/**
 * The listen-report engine: turning a time preset into an interval relative
 * to "now", and bucketing a user's listens into per-day/week/month/year
 * counts over a requested range.
 *
 * Time strings arrive already parsed: `None` stands for a missing or empty
 * string, `Some(d)` for a non-empty one whose parse is d (the invalid date
 * when it does not parse). Clock readings are parameters (`startClock` and
 * `endClock` for the two readings of `getIntervalFromPreset`, `now` for a
 * report, whose custom range ignores the clock), the listen
 * store is the parameter `store`, and the week-start convention of the date
 * library is the parameter `weekStartsOn`.
 */
module Reports {
  import opened Wrappers
  import opened Calendar

  /** The bucket granularity of a report. */
  datatype Timeframe = Day | Week | Month | Year

  /** The named time ranges. */
  datatype TimePreset =
    | Last7Days | Last30Days | Last90Days | Last180Days | Last365Days
    | AllTime
    | Custom

  /** The presets that reach back a fixed number of days from today. */
  predicate IsLastNDays(preset: TimePreset)
  {
    !(preset.AllTime? || preset.Custom?)
  }

  /** The `timePresetToDays` table; the two presets it marks unused map to 0. */
  function TimePresetToDays(preset: TimePreset): (days: nat)
    ensures days > 0 <==> IsLastNDays(preset)
  {
    match preset
    case Last7Days => 7
    case Last30Days => 30
    case Last90Days => 90
    case Last180Days => 180
    case Last365Days => 365
    case AllTime => 0
    case Custom => 0
  }

  /** A closed interval of instants. */
  datatype Interval = Interval(start: Date, end: Date)

  /** The errors a report request can end in. */
  datatype ReportError =
    | MissingCustomTime  // the `BadRequestException("MissingCustomTime")`
    | InvalidInterval    // the date library's RangeError "Invalid interval"

  /** `parseJSON`/`parseISO` of a time string: a missing or empty string parses to the invalid date. */
  function Parse(s: Option<Date>): (d: Date)
    ensures s.None? ==> d == InvalidDate
    ensures s.Some? ==> d == s.value
  {
    match s
    case Some(d) => d
    case None => InvalidDate
  }

  // ------------------------------------------------------------ intervals

  /**
   * The interval a preset denotes. `getIntervalFromPreset` reads the clock
   * twice: `startClock` is the reading behind the initial start of day and
   * `endClock` the one behind the end of day. The last N days run from the
   * start of the day N days before the first reading's day to the end of the
   * second reading's day; all time runs from the epoch to the end of the
   * second reading's day; a custom range takes its two bounds verbatim, and
   * is an error only when both are missing.
   */
  function PresetInterval(preset: TimePreset, startClock: int, endClock: int,
                          customTimeStart: Option<Date>, customTimeEnd: Option<Date>)
    : (r: Result<Interval, ReportError>)
    ensures r.Failure? <==> preset == Custom && customTimeStart.None? && customTimeEnd.None?
    ensures r.Failure? ==> r.error == MissingCustomTime
  {
    match preset
    case AllTime => Success(Interval(Date(0), Date(EndOfDay(endClock))))
    case Custom =>
      if customTimeStart.None? && customTimeEnd.None? then Failure(MissingCustomTime)
      else Success(Interval(Parse(customTimeStart), Parse(customTimeEnd)))
    case _ =>
      var start := StartOfDay(SubDays(StartOfDay(startClock), TimePresetToDays(preset)));
      Success(Interval(Date(start), Date(EndOfDay(endClock))))
  }

  /** `getIntervalFromPreset`: starts from today and narrows or replaces the interval per preset. */
  method GetIntervalFromPreset(preset: TimePreset, startClock: int, endClock: int,
                               customTimeStart: Option<Date>, customTimeEnd: Option<Date>)
    returns (r: Result<Interval, ReportError>)
    ensures r == PresetInterval(preset, startClock, endClock, customTimeStart, customTimeEnd)
  {
    var interval := Interval(Date(StartOfDay(startClock)), Date(EndOfDay(endClock)));
    match preset {
      case Last7Days | Last30Days | Last90Days | Last180Days | Last365Days =>
        interval := interval.(start := Date(StartOfDay(SubDays(interval.start.time, TimePresetToDays(preset)))));
      case AllTime =>
        interval := interval.(start := Date(0));
      case Custom =>
        if customTimeStart.None? && customTimeEnd.None? {
          return Failure(MissingCustomTime);
        }
        interval := Interval(Parse(customTimeStart), Parse(customTimeEnd));
    }
    return Success(interval);
  }

  /**
   * A last-N-days interval starts at midnight N days before the first
   * reading's day and ends at the last instant of the second reading's day.
   * It spans N + 1 whole calendar days plus however many midnights passed
   * between the two readings, and holds both readings when they are in order.
   */
  lemma LastNDaysInterval(preset: TimePreset, startClock: int, endClock: int,
                          customTimeStart: Option<Date>, customTimeEnd: Option<Date>)
    requires IsLastNDays(preset)
    ensures var r := PresetInterval(preset, startClock, endClock, customTimeStart, customTimeEnd);
      var n := TimePresetToDays(preset);
      && r.Success? && r.value.start.Date? && r.value.end.Date?
      && var (start, end) := (r.value.start.time, r.value.end.time);
      && n in {7, 30, 90, 180, 365}
      && start % MsPerDay == 0 && DayOf(start) == DayOf(startClock) - n
      && DayOf(end) == DayOf(endClock) && DayOf(end + 1) == DayOf(endClock) + 1
      && end - start + 1 == (n + 1 + DayOf(endClock) - DayOf(startClock)) * MsPerDay
      && (startClock <= endClock ==> start <= startClock <= endClock <= end)
  {
  }

  /** When both readings fall on the same day, the last N days span exactly N + 1 whole days. */
  lemma LastNDaysSameDay(preset: TimePreset, startClock: int, endClock: int,
                         customTimeStart: Option<Date>, customTimeEnd: Option<Date>)
    requires IsLastNDays(preset)
    requires DayOf(startClock) == DayOf(endClock)
    ensures var r := PresetInterval(preset, startClock, endClock, customTimeStart, customTimeEnd).value;
      r.end.time - r.start.time + 1 == (TimePresetToDays(preset) + 1) * MsPerDay
  {
    LastNDaysInterval(preset, startClock, endClock, customTimeStart, customTimeEnd);
  }

  /**
   * Readings on either side of midnight, at 2024-03-09T23:59:59.999Z and
   * 2024-03-10T00:00:00.000Z, stretch the last 7 days to 9 whole days:
   * 2024-03-02T00:00:00.000Z to 2024-03-10T23:59:59.999Z.
   */
  lemma Last7DaysAcrossMidnight()
    ensures PresetInterval(Last7Days, 1_710_028_799_999, 1_710_028_800_000, None, None)
         == Success(Interval(Date(1_709_337_600_000), Date(1_710_115_199_999)))
    ensures 1_710_115_199_999 - 1_709_337_600_000 + 1 == 9 * MsPerDay
  {
  }

  /** All time runs from the epoch to the last instant of the second reading's day. */
  lemma AllTimeInterval(startClock: int, endClock: int, customTimeStart: Option<Date>, customTimeEnd: Option<Date>)
    ensures var r := PresetInterval(AllTime, startClock, endClock, customTimeStart, customTimeEnd);
      && r.Success? && r.value.start == Date(0) && r.value.end.Date?
      && DayOf(r.value.end.time) == DayOf(endClock) && DayOf(r.value.end.time + 1) == DayOf(endClock) + 1
      && endClock <= r.value.end.time
  {
  }

  /** A custom range keeps its parsed bounds as they are, with no alignment to days. */
  lemma CustomIntervalVerbatim(startClock: int, endClock: int, customTimeStart: Option<Date>, customTimeEnd: Option<Date>)
    requires customTimeStart.Some? || customTimeEnd.Some?
    ensures PresetInterval(Custom, startClock, endClock, customTimeStart, customTimeEnd)
         == Success(Interval(Parse(customTimeStart), Parse(customTimeEnd)))
  {
  }

  // --------------------------------------------------------------- listens

  /** One recorded playback: who listened, when, and to what. */
  datatype Listen = Listen(user: nat, playedAt: int, track: string)

  /** The page size the report asks the listen store for, in a single call for page 1. */
  const ListenFetchLimit: nat := 10_000_000

  /**
   * SQL `BETWEEN` on an interval: inclusive at both ends. An invalid bound is
   * taken to match nothing; how the store treats an invalid timestamp itself
   * is not part of this model.
   */
  predicate During(t: int, interval: Interval): (r: bool)
    ensures r ==> interval.start.Date? && interval.end.Date? && interval.start.time <= interval.end.time
  {
    interval.start.Date? && interval.end.Date? && interval.start.time <= t <= interval.end.time
  }

  /** SQL `BETWEEN` includes both bounds of a valid, non-empty interval. */
  lemma DuringIncludesBounds(start: int, end: int)
    requires start <= end
    ensures During(start, Interval(Date(start), Date(end))) && During(end, Interval(Date(start), Date(end)))
    ensures !During(start - 1, Interval(Date(start), Date(end))) && !During(end + 1, Interval(Date(start), Date(end)))
  {
  }

  /** The store's listens by `user` played during `interval`, in store order. */
  function ListensDuring(store: seq<Listen>, user: nat, interval: Interval): (r: seq<Listen>)
    ensures |r| <= |store|
    ensures forall l :: l in r <==> l in store && l.user == user && During(l.playedAt, interval)
    ensures forall l :: multiset(r)[l] == if l.user == user && During(l.playedAt, interval) then multiset(store)[l] else 0
  {
    if store == [] then []
    else
      var l := store[0];
      assert store == [l] + store[1..];
      (if l.user == user && During(l.playedAt, interval) then [l] else [])
        + ListensDuring(store[1..], user, interval)
  }

  /** The first page of at most `ListenFetchLimit` listens of `user` during `interval`. */
  function FetchListens(store: seq<Listen>, user: nat, interval: Interval): (r: seq<Listen>)
    ensures |r| <= ListenFetchLimit
    ensures r <= ListensDuring(store, user, interval)
    ensures |ListensDuring(store, user, interval)| <= ListenFetchLimit ==> r == ListensDuring(store, user, interval)
  {
    var all := ListensDuring(store, user, interval);
    if |all| <= ListenFetchLimit then all else all[..ListenFetchLimit]
  }

  // --------------------------------------------------------------- reports

  /** The `timeframeToDateFns` table: the calendar unit behind each timeframe's bucketing and comparison. */
  function TimeframeToDateFns(timeFrame: Timeframe, weekStartsOn: Weekday): (u: Unit)
    ensures u.WeekUnit? <==> timeFrame == Week
    ensures u.WeekUnit? ==> u.weekStartsOn == weekStartsOn
  {
    match timeFrame
    case Day => DayUnit
    case Week => WeekUnit(weekStartsOn)
    case Month => MonthUnit
    case Year => YearUnit
  }

  /** Different timeframes bucket by different units. */
  lemma TimeframeToDateFnsInjective(a: Timeframe, b: Timeframe, weekStartsOn: Weekday)
    ensures TimeframeToDateFns(a, weekStartsOn) == TimeframeToDateFns(b, weekStartsOn) ==> a == b
  {
  }

  /** One bucket of a report: its anchor instant and how many listens fall in its unit. */
  datatype ReportItem = ReportItem(date: int, count: nat)

  /** A listen report, echoing the request's range and timeframe. */
  datatype ListenReport = ListenReport(items: seq<ReportItem>, timeStart: Option<Date>, timeEnd: Option<Date>, timeFrame: Timeframe)

  /** The listens played in the same unit as `date` (the `filter` of one bucket). */
  function ListensInUnit(u: Unit, date: int, listens: seq<Listen>): (r: seq<Listen>)
    ensures |r| <= |listens|
    ensures forall l :: l in r <==> l in listens && IsSame(u, date, l.playedAt)
    ensures forall l :: multiset(r)[l] == if IsSame(u, date, l.playedAt) then multiset(listens)[l] else 0
  {
    if listens == [] then []
    else
      assert listens == [listens[0]] + listens[1..];
      (if IsSame(u, date, listens[0].playedAt) then [listens[0]] else [])
        + ListensInUnit(u, date, listens[1..])
  }

  /** One item per anchor: the anchor and the number of listens in its unit (the `map` over anchors). */
  function ReportItems(u: Unit, anchors: seq<int>, listens: seq<Listen>): (items: seq<ReportItem>)
    ensures |items| == |anchors|
  {
    if anchors == [] then []
    else [ReportItem(anchors[0], |ListensInUnit(u, anchors[0], listens)|)] + ReportItems(u, anchors[1..], listens)
  }

  /** Item i is dated by anchor i and counts the listens in that anchor's unit. */
  lemma {:induction false} ReportItemAt(u: Unit, anchors: seq<int>, listens: seq<Listen>, i: int)
    requires 0 <= i < |anchors|
    ensures ReportItems(u, anchors, listens)[i] == ReportItem(anchors[i], |ListensInUnit(u, anchors[i], listens)|)
    decreases i
  {
    if i > 0 {
      ReportItemAt(u, anchors[1..], listens, i - 1);
    }
  }

  /** The range is usable for bucketing: both bounds parse and start <= end. */
  predicate IsValidRange(timeStart: Option<Date>, timeEnd: Option<Date>)
  {
    Parse(timeStart).Date? && Parse(timeEnd).Date? && Parse(timeStart).time <= Parse(timeEnd).time
  }

  /**
   * `getListens`: resolves the fetch interval through the custom preset, fetches
   * the user's listens in it, and counts them per unit of the requested
   * timeframe over the requested range.
   */
  function GetListens(store: seq<Listen>, user: nat, timeFrame: Timeframe, weekStartsOn: Weekday,
                      timeStart: Option<Date>, timeEnd: Option<Date>, now: int)
    : (r: Result<ListenReport, ReportError>)
    ensures r.Success? <==> IsValidRange(timeStart, timeEnd)
    ensures r.Failure? ==> r.error == if timeStart.None? && timeEnd.None? then MissingCustomTime else InvalidInterval
    ensures r.Success? ==> r.value.timeStart == timeStart && r.value.timeEnd == timeEnd && r.value.timeFrame == timeFrame
  {
    match PresetInterval(Custom, now, now, timeStart, timeEnd)
    case Failure(e) => Failure(e)
    case Success(interval) =>
      var listens := FetchListens(store, user, interval);
      var reportInterval := Interval(Parse(timeStart), Parse(timeEnd));
      var u := TimeframeToDateFns(timeFrame, weekStartsOn);
      match EachOfInterval(u, reportInterval.start, reportInterval.end)
      case None => Failure(InvalidInterval)
      case Some(anchors) => Success(ListenReport(ReportItems(u, anchors, listens), timeStart, timeEnd, timeFrame))
  }

  // ---------------------------------------------------- report properties

  /** The sum of a report's counts. */
  function TotalCount(items: seq<ReportItem>): nat
  {
    if items == [] then 0 else items[0].count + TotalCount(items[1..])
  }

  /** With no listens every bucket counts zero. */
  lemma {:induction false} NoListensNoCounts(u: Unit, anchors: seq<int>)
    ensures forall i | 0 <= i < |anchors| :: ReportItems(u, anchors, [])[i].count == 0
    ensures TotalCount(ReportItems(u, anchors, [])) == 0
    decreases |anchors|
  {
    if anchors != [] {
      NoListensNoCounts(u, anchors[1..]);
      ReportItemsTail(u, anchors, []);
    }
  }

  /** The items after the first are the items of the remaining anchors. */
  lemma ReportItemsTail(u: Unit, anchors: seq<int>, listens: seq<Listen>)
    requires anchors != []
    ensures ReportItems(u, anchors, listens)[1..] == ReportItems(u, anchors[1..], listens)
    ensures ReportItems(u, anchors, listens)[0].count == |ListensInUnit(u, anchors[0], listens)|
  {
    assert ReportItems(u, anchors, listens)
        == [ReportItem(anchors[0], |ListensInUnit(u, anchors[0], listens)|)] + ReportItems(u, anchors[1..], listens);
  }

  /** The first listen adds one to a bucket's count when it lies in the bucket's unit. */
  lemma ListensInUnitFirst(u: Unit, date: int, listens: seq<Listen>)
    requires listens != []
    ensures |ListensInUnit(u, date, listens)|
         == (if IsSame(u, date, listens[0].playedAt) then 1 else 0) + |ListensInUnit(u, date, listens[1..])|
  {
  }

  /** The first listen adds one to the total for each anchor whose unit holds it. */
  lemma {:induction false} TotalCountFirstListen(u: Unit, anchors: seq<int>, listens: seq<Listen>)
    requires listens != []
    ensures TotalCount(ReportItems(u, anchors, listens))
         == CountSameUnit(u, anchors, listens[0].playedAt) + TotalCount(ReportItems(u, anchors, listens[1..]))
    decreases |anchors|
  {
    if anchors != [] {
      ListensInUnitFirst(u, anchors[0], listens);
      TotalCountFirstListen(u, anchors[1..], listens);
      ReportItemsTail(u, anchors, listens);
      ReportItemsTail(u, anchors, listens[1..]);
    }
  }

  /** When each listen lies in the unit of exactly one anchor, the counts add up to the number of listens. */
  lemma {:induction false} TotalCountOfPartition(u: Unit, anchors: seq<int>, listens: seq<Listen>)
    requires forall l | l in listens :: CountSameUnit(u, anchors, l.playedAt) == 1
    ensures TotalCount(ReportItems(u, anchors, listens)) == |listens|
    decreases |listens|
  {
    if listens == [] {
      NoListensNoCounts(u, anchors);
    } else {
      TotalCountFirstListen(u, anchors, listens);
      TotalCountOfPartition(u, anchors, listens[1..]);
    }
  }

  /** A successful report buckets the fetched listens by the anchors of the requested range. */
  lemma ReportItemsOfRange(store: seq<Listen>, user: nat, timeFrame: Timeframe, weekStartsOn: Weekday,
                           timeStart: Option<Date>, timeEnd: Option<Date>, now: int)
    requires IsValidRange(timeStart, timeEnd)
    ensures var u := TimeframeToDateFns(timeFrame, weekStartsOn);
      var interval := Interval(Parse(timeStart), Parse(timeEnd));
      GetListens(store, user, timeFrame, weekStartsOn, timeStart, timeEnd, now).value.items
        == ReportItems(u, EachOfInterval(u, interval.start, interval.end).value, FetchListens(store, user, interval))
  {
  }

  /**
   * Each bucket is dated by its anchor and counts the listens in the anchor's
   * unit: at most all of them, and zero exactly when none lies in that unit.
   */
  lemma BucketCounts(u: Unit, anchors: seq<int>, listens: seq<Listen>)
    ensures var items := ReportItems(u, anchors, listens);
      forall i | 0 <= i < |items| ::
        && items[i].date == anchors[i]
        && items[i].count == |ListensInUnit(u, anchors[i], listens)| <= |listens|
        && (items[i].count == 0 <==> forall l | l in listens :: !IsSame(u, anchors[i], l.playedAt))
  {
    var items := ReportItems(u, anchors, listens);
    forall i | 0 <= i < |items|
      ensures items[i].date == anchors[i] && items[i].count == |ListensInUnit(u, anchors[i], listens)|
      ensures items[i].count == 0 <==> forall l | l in listens :: !IsSame(u, anchors[i], l.playedAt)
    {
      ReportItemAt(u, anchors, listens, i);
      var r := ListensInUnit(u, anchors[i], listens);
      if r != [] {
        assert r[0] in r;
      }
    }
  }

  /**
   * Items that follow the calendar over [start, end]: item i is dated in the
   * i-th unit from start's unit on, through end's unit; the dates strictly
   * ascend; the first is at or before start and the last at or before end.
   */
  predicate FollowsCalendar(u: Unit, start: int, end: int, items: seq<ReportItem>)
  {
    && |items| == UnitOf(u, end) - UnitOf(u, start) + 1 >= 1
    && (forall i | 0 <= i < |items| :: UnitOf(u, items[i].date) == UnitOf(u, start) + i)
    && (forall i, j | 0 <= i < j < |items| :: items[i].date < items[j].date)
    && items[0].date <= start && items[|items| - 1].date <= end
  }

  /** The buckets over a valid range take their dates from the anchors, in calendar order. */
  lemma BucketsFollowCalendar(u: Unit, start: int, end: int, listens: seq<Listen>)
    requires start <= end
    ensures FollowsCalendar(u, start, end, ReportItems(u, EachOfInterval(u, Date(start), Date(end)).value, listens))
  {
    var anchors := EachOfInterval(u, Date(start), Date(end)).value;
    BucketCounts(u, anchors, listens);
    AnchorsInConsecutiveUnits(u, start, end);
    AnchorsAscending(u, start, end);
    AnchorsBracketInterval(u, start, end);
  }

  /**
   * The buckets of a report follow the calendar: item i is dated in the i-th
   * unit from the range start's unit on, through the range end's unit; the
   * dates strictly ascend; the first bucket begins at or before the range
   * start and the last at or before its end.
   */
  lemma ReportFollowsCalendar(store: seq<Listen>, user: nat, timeFrame: Timeframe, weekStartsOn: Weekday,
                              timeStart: Option<Date>, timeEnd: Option<Date>, now: int)
    requires IsValidRange(timeStart, timeEnd)
    ensures FollowsCalendar(TimeframeToDateFns(timeFrame, weekStartsOn), Parse(timeStart).time, Parse(timeEnd).time,
                            GetListens(store, user, timeFrame, weekStartsOn, timeStart, timeEnd, now).value.items)
  {
    var u := TimeframeToDateFns(timeFrame, weekStartsOn);
    var interval := Interval(Parse(timeStart), Parse(timeEnd));
    ReportItemsOfRange(store, user, timeFrame, weekStartsOn, timeStart, timeEnd, now);
    BucketsFollowCalendar(u, interval.start.time, interval.end.time, FetchListens(store, user, interval));
  }

  /**
   * Each count of a report is the number of fetched listens played in the
   * same unit as the item's date, so at most the number fetched, and zero
   * exactly when no fetched listen lies in that unit.
   */
  lemma ReportCountsListensInUnit(store: seq<Listen>, user: nat, timeFrame: Timeframe, weekStartsOn: Weekday,
                                  timeStart: Option<Date>, timeEnd: Option<Date>, now: int)
    requires IsValidRange(timeStart, timeEnd)
    ensures var items := GetListens(store, user, timeFrame, weekStartsOn, timeStart, timeEnd, now).value.items;
      var u := TimeframeToDateFns(timeFrame, weekStartsOn);
      var listens := FetchListens(store, user, Interval(Parse(timeStart), Parse(timeEnd)));
      forall i | 0 <= i < |items| ::
        && items[i].count == |ListensInUnit(u, items[i].date, listens)| <= |listens|
        && (items[i].count == 0 <==> forall l | l in listens :: !IsSame(u, items[i].date, l.playedAt))
  {
    var u := TimeframeToDateFns(timeFrame, weekStartsOn);
    var interval := Interval(Parse(timeStart), Parse(timeEnd));
    ReportItemsOfRange(store, user, timeFrame, weekStartsOn, timeStart, timeEnd, now);
    BucketCounts(u, EachOfInterval(u, interval.start, interval.end).value, FetchListens(store, user, interval));
  }

  /**
   * Every listen the report fetched is counted in exactly one bucket: the
   * counts add up to the number of listens fetched for the range, which the
   * report resolves through the custom preset.
   */
  lemma EveryFetchedListenCountedOnce(store: seq<Listen>, user: nat, timeFrame: Timeframe, weekStartsOn: Weekday,
                                      timeStart: Option<Date>, timeEnd: Option<Date>, now: int)
    requires IsValidRange(timeStart, timeEnd)
    ensures var interval := PresetInterval(Custom, now, now, timeStart, timeEnd).value;
      TotalCount(GetListens(store, user, timeFrame, weekStartsOn, timeStart, timeEnd, now).value.items)
        == |FetchListens(store, user, interval)|
  {
    var u := TimeframeToDateFns(timeFrame, weekStartsOn);
    var interval := Interval(Parse(timeStart), Parse(timeEnd));
    var (start, end) := (Parse(timeStart).time, Parse(timeEnd).time);
    var all := ListensDuring(store, user, interval);
    var listens := FetchListens(store, user, interval);
    var anchors := EachOfInterval(u, Date(start), Date(end)).value;
    forall l | l in listens
      ensures CountSameUnit(u, anchors, l.playedAt) == 1
    {
      var i :| 0 <= i < |listens| && listens[i] == l;
      assert all[i] == l;
      ExactlyOneAnchorHolds(u, start, end, l.playedAt);
    }
    TotalCountOfPartition(u, anchors, listens);
  }

  /**
   * Below the page limit nothing is dropped: the counts add up to the number
   * of the user's listens played within the requested range.
   */
  lemma BelowLimitAllListensCounted(store: seq<Listen>, user: nat, timeFrame: Timeframe, weekStartsOn: Weekday,
                                    timeStart: Option<Date>, timeEnd: Option<Date>, now: int)
    requires IsValidRange(timeStart, timeEnd)
    requires |ListensDuring(store, user, Interval(Parse(timeStart), Parse(timeEnd)))| <= ListenFetchLimit
    ensures TotalCount(GetListens(store, user, timeFrame, weekStartsOn, timeStart, timeEnd, now).value.items)
         == |ListensDuring(store, user, Interval(Parse(timeStart), Parse(timeEnd)))|
  {
    EveryFetchedListenCountedOnce(store, user, timeFrame, weekStartsOn, timeStart, timeEnd, now);
  }

  /** A store without listens gives a report of zero counts. */
  lemma EmptyStoreZeroCounts(user: nat, timeFrame: Timeframe, weekStartsOn: Weekday,
                             timeStart: Option<Date>, timeEnd: Option<Date>, now: int)
    requires IsValidRange(timeStart, timeEnd)
    ensures var items := GetListens([], user, timeFrame, weekStartsOn, timeStart, timeEnd, now).value.items;
      |items| > 0 && forall i | 0 <= i < |items| :: items[i].count == 0
  {
    var u := TimeframeToDateFns(timeFrame, weekStartsOn);
    NoListensNoCounts(u, EachOfInterval(u, Parse(timeStart), Parse(timeEnd)).value);
    AnchorsInConsecutiveUnits(u, Parse(timeStart).time, Parse(timeEnd).time);
  }

  // ------------------------------------------------------------ scenarios

  /** Last 7 days at 2024-03-10T00:00Z: from 2024-03-03T00:00:00.000Z to 2024-03-10T23:59:59.999Z. */
  lemma Last7DaysScenario()
    ensures PresetInterval(Last7Days, 1_710_028_800_000, 1_710_028_800_000, None, None)
         == Success(Interval(Date(1_709_424_000_000), Date(1_710_115_199_999)))
  {
  }

  /** The listens of user 1 between 2024-01-01T00:00Z and 2024-01-03T00:00Z, in the daily scenario's store. */
  lemma DailyScenarioFetch()
    ensures FetchListens(
              [Listen(1, 1_704_103_200_000, "a"), Listen(1, 1_704_239_940_000, "b"), Listen(2, 1_704_153_600_000, "c")],
              1, Interval(Date(1_704_067_200_000), Date(1_704_240_000_000)))
         == [Listen(1, 1_704_103_200_000, "a"), Listen(1, 1_704_239_940_000, "b")]
  {
    var interval := Interval(Date(1_704_067_200_000), Date(1_704_240_000_000));
    var store := [Listen(1, 1_704_103_200_000, "a"), Listen(1, 1_704_239_940_000, "b"), Listen(2, 1_704_153_600_000, "c")];
    assert ListensDuring(store[2..], 1, interval) == [];
    assert ListensDuring(store[1..], 1, interval) == [store[1]];
  }

  /** The days from 2024-01-01 to 2024-01-03 are anchored at their midnights. */
  lemma DailyScenarioAnchors()
    ensures EachOfInterval(DayUnit, Date(1_704_067_200_000), Date(1_704_240_000_000))
         == Some([1_704_067_200_000, 1_704_153_600_000, 1_704_240_000_000])
  {
    assert UnitOf(DayUnit, 1_704_067_200_000) == 19723;
    assert UnitOf(DayUnit, 1_704_240_000_000) == 19725;
    assert UnitStarts(DayUnit, 19723, 3) == [1_704_067_200_000, 1_704_153_600_000, 1_704_240_000_000];
  }

  /** Listens at 2024-01-01T10:00Z and 2024-01-02T23:59Z fill the three days' buckets with 1, 1 and 0. */
  lemma DailyScenarioBuckets()
    ensures ReportItems(DayUnit, [1_704_067_200_000, 1_704_153_600_000, 1_704_240_000_000],
                        [Listen(1, 1_704_103_200_000, "a"), Listen(1, 1_704_239_940_000, "b")])
         == [ReportItem(1_704_067_200_000, 1), ReportItem(1_704_153_600_000, 1), ReportItem(1_704_240_000_000, 0)]
  {
    var listens := [Listen(1, 1_704_103_200_000, "a"), Listen(1, 1_704_239_940_000, "b")];
    assert ListensInUnit(DayUnit, 1_704_067_200_000, listens[1..]) == [];
    assert ListensInUnit(DayUnit, 1_704_153_600_000, listens[1..]) == [listens[1]];
    assert ListensInUnit(DayUnit, 1_704_240_000_000, listens[1..]) == [];
  }

  /**
   * A daily report from 2024-01-01 to 2024-01-03 over listens of user 1 at
   * 2024-01-01T10:00Z and 2024-01-02T23:59Z (and one of another user) counts
   * 1, 1 and 0.
   */
  lemma DailyReportScenario()
    ensures GetListens([Listen(1, 1_704_103_200_000, "a"), Listen(1, 1_704_239_940_000, "b"), Listen(2, 1_704_153_600_000, "c")],
                       1, Day, 0, Some(Date(1_704_067_200_000)), Some(Date(1_704_240_000_000)), 1_704_240_000_000)
         == Success(ListenReport(
              [ReportItem(1_704_067_200_000, 1), ReportItem(1_704_153_600_000, 1), ReportItem(1_704_240_000_000, 0)],
              Some(Date(1_704_067_200_000)), Some(Date(1_704_240_000_000)), Day))
  {
    DailyScenarioFetch();
    DailyScenarioAnchors();
    DailyScenarioBuckets();
  }
}
