/**
 * A civil calendar over UTC instants: the date functions the report engine
 * takes from its date library (start and end of day, day/week/month/year
 * buckets, "is the same unit", "each unit of an interval"), stated over the
 * proleptic Gregorian calendar.
 *
 * Instants are milliseconds since 1970-01-01T00:00:00Z; days are whole day
 * numbers since that date. Every calendar unit is numbered by an index k and
 * begins on day UnitStartDay(u, k); the starts strictly increase, so every day
 * lies in exactly one unit, UnitOfDay(u, d).
 */
module Calendar {
  import opened Wrappers

  /** Milliseconds in one UTC day. */
  const MsPerDay: int := 86_400_000

  /** A JavaScript `Date`: a time value in ms since the epoch, or the invalid date. */
  datatype Date = Date(time: int) | InvalidDate

  /** A day of the week, 0 = Sunday .. 6 = Saturday (the convention of `Date.getDay`). */
  type Weekday = d: int | 0 <= d < 7

  /** The day number of instant t (floor division: instants before 1970 too). */
  function DayOf(t: int): int
  {
    t / MsPerDay
  }

  /** `startOfDay`: 00:00:00.000 of t's day. */
  function StartOfDay(t: int): (r: int)
    ensures r <= t < r + MsPerDay
    ensures DayOf(r) == DayOf(t) && r % MsPerDay == 0
  {
    DayOf(t) * MsPerDay
  }

  /** `endOfDay`: 23:59:59.999 of t's day, the last instant of that day. */
  function EndOfDay(t: int): (r: int)
    ensures t <= r && DayOf(r) == DayOf(t)
    ensures DayOf(r + 1) == DayOf(t) + 1
  {
    StartOfDay(t) + MsPerDay - 1
  }

  /** `sub(t, { days: n })` in UTC. */
  function SubDays(t: int, n: int): (r: int)
    ensures DayOf(r) == DayOf(t) - n
    ensures r % MsPerDay == t % MsPerDay
  {
    t - n * MsPerDay
  }

  /** The day of the week of day number d; 1970-01-01 was a Thursday. */
  function WeekdayOf(d: int): Weekday
  {
    (d + 4) % 7
  }

  // ---------------------------------------------------------------- years

  /** The Gregorian leap-year rule. */
  predicate IsLeapYear(y: int)
  {
    y % 4 == 0 && (y % 100 != 0 || y % 400 == 0)
  }

  /** The length of year y in days. */
  function DaysInYear(y: int): int
  {
    if IsLeapYear(y) then 366 else 365
  }

  /** The day number of January 1 of year y: the lengths of the years from 1970 on, summed. */
  function DaysBeforeYear(y: int): int
    decreases if y < 1970 then 1970 - y else y - 1970
  {
    if y == 1970 then 0
    else if y > 1970 then DaysBeforeYear(y - 1) + DaysInYear(y - 1)
    else DaysBeforeYear(y + 1) - DaysInYear(y)
  }

  /** Year y begins DaysInYear(y) days before year y + 1. */
  lemma YearLength(y: int)
    ensures DaysBeforeYear(y + 1) - DaysBeforeYear(y) == DaysInYear(y)
  {
  }

  /** Leap years among 1..y by the Gregorian rule (floored below 1). */
  function LeapYearsThrough(y: int): int
  {
    y / 4 - y / 100 + y / 400
  }

  /** One more leap year is counted exactly at a leap year. */
  lemma LeapYearsStep(y: int)
    ensures LeapYearsThrough(y) - LeapYearsThrough(y - 1) == if IsLeapYear(y) then 1 else 0
  {
    MultipleStep(y, 4);
    MultipleStep(y, 100);
    MultipleStep(y, 400);
  }

  /** Among 1..y there is one more multiple of n than among 1..y-1 exactly when n divides y. */
  lemma MultipleStep(y: int, n: int)
    requires n == 4 || n == 100 || n == 400
    ensures y / n - (y - 1) / n == if y % n == 0 then 1 else 0
  {
  }

  /** The usual closed form of the day number of January 1. */
  lemma {:induction false} DaysBeforeYearClosedForm(y: int)
    ensures DaysBeforeYear(y) == 365 * (y - 1970) + LeapYearsThrough(y - 1) - LeapYearsThrough(1969)
    decreases if y < 1970 then 1970 - y else y - 1970
  {
    if y > 1970 {
      DaysBeforeYearClosedForm(y - 1);
      LeapYearsStep(y - 1);
    } else if y < 1970 {
      DaysBeforeYearClosedForm(y + 1);
      LeapYearsStep(y);
    }
  }

  /** The year holding day d: the y with DaysBeforeYear(y) <= d < DaysBeforeYear(y + 1). */
  function YearOf(d: int): (y: int)
    ensures DaysBeforeYear(y) <= d < DaysBeforeYear(y + 1)
  {
    if d >= 0 then YearFrom(1970, d) else YearUntil(1969, d)
  }

  /** Searches forwards from year y for the year holding day d. */
  function YearFrom(y: int, d: int): (r: int)
    requires DaysBeforeYear(y) <= d
    ensures DaysBeforeYear(r) <= d < DaysBeforeYear(r + 1)
    decreases d - DaysBeforeYear(y)
  {
    YearLength(y);
    if d < DaysBeforeYear(y + 1) then y else YearFrom(y + 1, d)
  }

  /** Searches backwards from year y for the year holding day d. */
  function YearUntil(y: int, d: int): (r: int)
    requires d < DaysBeforeYear(y + 1)
    ensures DaysBeforeYear(r) <= d < DaysBeforeYear(r + 1)
    decreases DaysBeforeYear(y + 1) - d
  {
    YearLength(y);
    if DaysBeforeYear(y) <= d then y else YearUntil(y - 1, d)
  }

  // --------------------------------------------------------------- months

  /** Days of a year before month m (0 = January; m = 12 gives the year's length). */
  function DaysBeforeMonth(m: int, leap: bool): int
    requires 0 <= m <= 12
  {
    var common :=
      if m < 6 then
        (if m == 0 then 0 else if m == 1 then 31 else if m == 2 then 59
         else if m == 3 then 90 else if m == 4 then 120 else 151)
      else
        (if m == 6 then 181 else if m == 7 then 212 else if m == 8 then 243
         else if m == 9 then 273 else if m == 10 then 304 else if m == 11 then 334 else 365);
    common + if leap && m >= 2 then 1 else 0
  }

  /** The length of month m (0 = January) in a common or a leap year. */
  function DaysInMonth(m: int, leap: bool): int
    requires 0 <= m < 12
  {
    if m == 1 then (if leap then 29 else 28)
    else if m == 3 || m == 5 || m == 8 || m == 10 then 30
    else 31
  }

  /** The cumulative table agrees with the month lengths, and sums to the year's length. */
  lemma MonthTable(m: int, leap: bool)
    requires 0 <= m < 12
    ensures DaysBeforeMonth(m + 1, leap) - DaysBeforeMonth(m, leap) == DaysInMonth(m, leap)
    ensures DaysBeforeMonth(12, leap) == if leap then 366 else 365
  {
  }

  /** The month index of January 1970; month index k is year k / 12, month k % 12 (0 = January). */
  const EpochMonth: int := 1970 * 12

  /** The length in days of month index k. */
  function DaysOfMonth(k: int): (n: int)
    ensures 28 <= n <= 31
  {
    DaysInMonth(k % 12, IsLeapYear(k / 12))
  }

  /** The day number of the first day of month index k: the lengths of the months from January 1970 on, summed. */
  function MonthStartDay(k: int): int
    decreases if k < EpochMonth then EpochMonth - k else k - EpochMonth
  {
    if k == EpochMonth then 0
    else if k > EpochMonth then MonthStartDay(k - 1) + DaysOfMonth(k - 1)
    else MonthStartDay(k + 1) - DaysOfMonth(k)
  }

  /** Month index k begins DaysOfMonth(k) days before month index k + 1. */
  lemma MonthLength(k: int)
    ensures MonthStartDay(k + 1) - MonthStartDay(k) == DaysOfMonth(k)
  {
    if k >= EpochMonth {
      assert MonthStartDay(k + 1) == MonthStartDay(k) + DaysOfMonth(k);
    } else {
      assert MonthStartDay(k) == MonthStartDay(k + 1) - DaysOfMonth(k);
    }
  }

  /** Searches forwards from month index k for the month holding day d. */
  function MonthFrom(k: int, d: int): (r: int)
    requires MonthStartDay(k) <= d
    ensures MonthStartDay(r) <= d < MonthStartDay(r + 1)
    decreases d - MonthStartDay(k)
  {
    MonthLength(k);
    if d < MonthStartDay(k + 1) then k else MonthFrom(k + 1, d)
  }

  /** Searches backwards from month index k for the month holding day d. */
  function MonthUntil(k: int, d: int): (r: int)
    requires d < MonthStartDay(k + 1)
    ensures MonthStartDay(r) <= d < MonthStartDay(r + 1)
    decreases MonthStartDay(k + 1) - d
  {
    MonthLength(k);
    if MonthStartDay(k) <= d then k else MonthUntil(k - 1, d)
  }

  /** Month index 12 * y + m is month m of year y. */
  lemma MonthOfYear(y: int, m: int)
    requires 0 <= m < 12
    ensures DaysOfMonth(12 * y + m) == DaysInMonth(m, IsLeapYear(y))
  {
    assert (12 * y + m) / 12 == y && (12 * y + m) % 12 == m;
  }

  /** Month m (0 = January) of year y starts DaysBeforeMonth(m) days after the year's first month. */
  lemma {:induction false} MonthOffset(y: int, m: int)
    requires 0 <= m <= 12
    ensures MonthStartDay(12 * y + m) == MonthStartDay(12 * y) + DaysBeforeMonth(m, IsLeapYear(y))
  {
    if m > 0 {
      MonthOffset(y, m - 1);
      MonthLength(12 * y + m - 1);
      MonthOfYear(y, m - 1);
      MonthTable(m - 1, IsLeapYear(y));
    }
  }

  /** The months tile the years: January of year y begins on January 1 of year y. */
  lemma {:induction false} MonthsTileYears(y: int)
    ensures MonthStartDay(12 * y) == DaysBeforeYear(y)
    decreases if y < 1970 then 1970 - y else y - 1970
  {
    if y != 1970 {
      var z := if y > 1970 then y - 1 else y;
      MonthsTileYears(if y > 1970 then y - 1 else y + 1);
      MonthOffset(z, 12);
      MonthTable(0, IsLeapYear(z));
      YearLength(z);
      assert 12 * z + 12 == 12 * (z + 1);
    }
  }

  // ---------------------------------------------------------------- units

  /** The bucket granularities: calendar day, week (starting on a given weekday), month, year. */
  datatype Unit = DayUnit | WeekUnit(weekStartsOn: Weekday) | MonthUnit | YearUnit

  /**
   * The day number of the first day of unit k: day k; the week whose first day
   * is the k-th such weekday counted from the week holding 1970-01-01; month
   * index k = year * 12 + (month - 1); year k.
   */
  function UnitStartDay(u: Unit, k: int): int
  {
    match u
    case DayUnit => k
    case WeekUnit(ws) => 7 * k + ws - 4
    case MonthUnit => MonthStartDay(k)
    case YearUnit => DaysBeforeYear(k)
  }

  /** Each unit begins after the one before it. */
  lemma UnitStartStep(u: Unit, k: int)
    ensures UnitStartDay(u, k) < UnitStartDay(u, k + 1)
  {
    match u
    case DayUnit =>
    case WeekUnit(_) =>
    case MonthUnit => MonthLength(k);
    case YearUnit => YearLength(k);
  }

  /** Unit starts strictly increase with the unit index. */
  lemma {:induction false} UnitStartIncreasing(u: Unit, k: int, j: int)
    requires k < j
    ensures UnitStartDay(u, k) < UnitStartDay(u, j)
    decreases j - k
  {
    UnitStartStep(u, k);
    if k + 1 < j {
      UnitStartIncreasing(u, k + 1, j);
    }
  }

  /** The unit holding day d. */
  function UnitOfDay(u: Unit, d: int): (k: int)
    ensures UnitStartDay(u, k) <= d < UnitStartDay(u, k + 1)
  {
    match u
    case DayUnit => d
    case WeekUnit(ws) => WeekOfDay(ws, d)
    case MonthUnit => MonthOfDay(d)
    case YearUnit => YearOf(d)
  }

  /** The week (starting on weekday ws) holding day d. */
  function WeekOfDay(ws: Weekday, d: int): (k: int)
    ensures 7 * k + ws - 4 <= d < 7 * (k + 1) + ws - 4
  {
    (d + 4 - ws) / 7
  }

  /** The month index holding day d. */
  function MonthOfDay(d: int): (k: int)
    ensures MonthStartDay(k) <= d < MonthStartDay(k + 1)
  {
    if d >= 0 then MonthFrom(EpochMonth, d) else MonthUntil(EpochMonth - 1, d)
  }

  /** Unit starts are ordered like the unit indexes. */
  lemma UnitStartReflects(u: Unit, j: int, k: int)
    requires UnitStartDay(u, j) < UnitStartDay(u, k)
    ensures j < k
  {
    if k < j {
      UnitStartIncreasing(u, k, j);
    }
  }

  /** A day lies in only one unit: bounds that place d in units j and k make them equal. */
  lemma UnitIsUnique(u: Unit, d: int, j: int, k: int)
    requires UnitStartDay(u, j) <= d < UnitStartDay(u, j + 1)
    requires UnitStartDay(u, k) <= d < UnitStartDay(u, k + 1)
    ensures j == k
  {
    UnitStartReflects(u, j, k + 1);
    UnitStartReflects(u, k, j + 1);
  }

  /** A unit's first day lies in that unit. */
  lemma UnitOfStartDay(u: Unit, k: int)
    ensures UnitOfDay(u, UnitStartDay(u, k)) == k
  {
    UnitStartStep(u, k);
    UnitIsUnique(u, UnitStartDay(u, k), UnitOfDay(u, UnitStartDay(u, k)), k);
  }

  /** A later day never lies in an earlier unit. */
  lemma UnitOfDayMonotone(u: Unit, d1: int, d2: int)
    requires d1 <= d2
    ensures UnitOfDay(u, d1) <= UnitOfDay(u, d2)
  {
    UnitStartReflects(u, UnitOfDay(u, d1), UnitOfDay(u, d2) + 1);
  }

  // ------------------------------------------------------------- instants

  /** The unit holding instant t. */
  function UnitOf(u: Unit, t: int): int
  {
    UnitOfDay(u, DayOf(t))
  }

  /** 00:00:00.000 of the first day of unit k (`startOfDay`/`startOfWeek`/`startOfMonth`/`startOfYear`). */
  function StartOfUnit(u: Unit, k: int): (r: int)
    ensures r % MsPerDay == 0 && DayOf(r) == UnitStartDay(u, k)
  {
    UnitStartDay(u, k) * MsPerDay
  }

  /**
   * `isSameDay`/`isSameWeek`/`isSameMonth`/`isSameYear`: a and b lie in one
   * unit, that is, b lies between the start of a's unit and the start of the
   * unit after it.
   */
  predicate IsSame(u: Unit, a: int, b: int): (r: bool)
    ensures r <==> StartOfUnit(u, UnitOf(u, a)) <= b < StartOfUnit(u, UnitOf(u, a) + 1)
  {
    InUnit(u, UnitOf(u, a), b);
    UnitOf(u, a) == UnitOf(u, b)
  }

  /** The start of unit k lies in unit k, and t lies between its unit's start and the next one's. */
  lemma UnitOfStartOfUnit(u: Unit, k: int)
    ensures UnitOf(u, StartOfUnit(u, k)) == k
  {
    assert DayOf(StartOfUnit(u, k)) == UnitStartDay(u, k);
    UnitOfStartDay(u, k);
  }

  /** Instant t lies at or after the start of its unit and before the start of the next. */
  lemma UnitBounds(u: Unit, t: int)
    ensures StartOfUnit(u, UnitOf(u, t)) <= t < StartOfUnit(u, UnitOf(u, t) + 1)
  {
    var k, d := UnitOf(u, t), DayOf(t);
    assert UnitStartDay(u, k) <= d < UnitStartDay(u, k + 1);
    assert UnitStartDay(u, k) * MsPerDay <= d * MsPerDay <= t;
    assert t < (d + 1) * MsPerDay <= UnitStartDay(u, k + 1) * MsPerDay;
  }

  /** Instant t lies in unit k exactly when it lies between the start of unit k and the start of unit k + 1. */
  lemma InUnit(u: Unit, k: int, t: int)
    ensures UnitOf(u, t) == k <==> StartOfUnit(u, k) <= t < StartOfUnit(u, k + 1)
  {
    var d := DayOf(t);
    if StartOfUnit(u, k) <= t < StartOfUnit(u, k + 1) {
      assert UnitStartDay(u, k) <= d < UnitStartDay(u, k + 1);
      UnitIsUnique(u, d, k, UnitOfDay(u, d));
    }
    UnitBounds(u, t);
  }

  /** A later instant never lies in an earlier unit. */
  lemma UnitOfMonotone(u: Unit, a: int, b: int)
    requires a <= b
    ensures UnitOf(u, a) <= UnitOf(u, b)
  {
    UnitOfDayMonotone(u, DayOf(a), DayOf(b));
  }

  // ------------------------------------------------------------ intervals

  /** The consecutive unit starts StartOfUnit(u, first), .. , StartOfUnit(u, first + n - 1). */
  function UnitStarts(u: Unit, first: int, n: nat): (anchors: seq<int>)
    ensures |anchors| == n
    ensures forall i | 0 <= i < n :: anchors[i] == StartOfUnit(u, first + i)
  {
    seq(n, i requires 0 <= i < n => StartOfUnit(u, first + i))
  }

  /**
   * `eachDayOfInterval`/`eachWeekOfInterval`/`eachMonthOfInterval`/`eachYearOfInterval`:
   * the starts of every unit from start's to end's, or None (the library's
   * RangeError "Invalid interval") when the bounds are not two valid dates
   * with start <= end.
   */
  function EachOfInterval(u: Unit, start: Date, end: Date): (r: Option<seq<int>>)
    ensures r.None? <==> !(start.Date? && end.Date? && start.time <= end.time)
  {
    if start.Date? && end.Date? && start.time <= end.time then
      UnitOfMonotone(u, start.time, end.time);
      var first := UnitOf(u, start.time);
      Some(UnitStarts(u, first, UnitOf(u, end.time) - first + 1))
    else
      None
  }

  /** The anchors of a valid interval lie one in each unit from start's to end's. */
  lemma AnchorsInConsecutiveUnits(u: Unit, start: int, end: int)
    requires start <= end
    ensures var anchors := EachOfInterval(u, Date(start), Date(end)).value;
      && |anchors| == UnitOf(u, end) - UnitOf(u, start) + 1
      && forall i | 0 <= i < |anchors| :: UnitOf(u, anchors[i]) == UnitOf(u, start) + i
  {
    var anchors := EachOfInterval(u, Date(start), Date(end)).value;
    forall i | 0 <= i < |anchors|
      ensures UnitOf(u, anchors[i]) == UnitOf(u, start) + i
    {
      UnitOfStartOfUnit(u, UnitOf(u, start) + i);
    }
  }

  /** Units start in the order of their indexes, also as instants. */
  lemma StartOfUnitIncreasing(u: Unit, k: int, j: int)
    requires k < j
    ensures StartOfUnit(u, k) < StartOfUnit(u, j)
  {
    UnitStartIncreasing(u, k, j);
  }

  /** Consecutive unit starts strictly ascend. */
  lemma UnitStartsAscending(u: Unit, first: int, n: nat)
    ensures var anchors := UnitStarts(u, first, n);
      forall i, j | 0 <= i < j < n :: anchors[i] < anchors[j]
  {
    var anchors := UnitStarts(u, first, n);
    forall i, j | 0 <= i < j < n
      ensures anchors[i] < anchors[j]
    {
      StartOfUnitIncreasing(u, first + i, first + j);
    }
  }

  /** The anchors of a valid interval strictly ascend. */
  lemma AnchorsAscending(u: Unit, start: int, end: int)
    requires start <= end
    ensures var anchors := EachOfInterval(u, Date(start), Date(end)).value;
      forall i, j | 0 <= i < j < |anchors| :: anchors[i] < anchors[j]
  {
    var first := UnitOf(u, start);
    UnitOfMonotone(u, start, end);
    var n := UnitOf(u, end) - first + 1;
    assert EachOfInterval(u, Date(start), Date(end)).value == UnitStarts(u, first, n);
    UnitStartsAscending(u, first, n);
  }

  /**
   * The first anchor is at or before start, the last at or before end, and the
   * unit after the last begins after end.
   */
  lemma AnchorsBracketInterval(u: Unit, start: int, end: int)
    requires start <= end
    ensures var anchors := EachOfInterval(u, Date(start), Date(end)).value;
      && |anchors| >= 1
      && anchors[0] <= start
      && anchors[|anchors| - 1] <= end < StartOfUnit(u, UnitOf(u, end) + 1)
  {
    var (first, last) := (UnitOf(u, start), UnitOf(u, end));
    UnitOfMonotone(u, start, end);
    var anchors := EachOfInterval(u, Date(start), Date(end)).value;
    assert anchors == UnitStarts(u, first, last - first + 1);
    assert anchors[0] == StartOfUnit(u, first);
    assert anchors[|anchors| - 1] == StartOfUnit(u, last);
    UnitBounds(u, start);
    UnitBounds(u, end);
  }

  /** How many of the anchors lie in the same unit as t. */
  function CountSameUnit(u: Unit, anchors: seq<int>, t: int): nat
  {
    if anchors == [] then 0
    else (if IsSame(u, anchors[0], t) then 1 else 0) + CountSameUnit(u, anchors[1..], t)
  }

  /** Anchors lying in consecutive units first, first + 1, .. hold t's unit at most once. */
  lemma {:induction false} CountSameUnitOfConsecutive(u: Unit, anchors: seq<int>, first: int, t: int)
    requires forall i | 0 <= i < |anchors| :: UnitOf(u, anchors[i]) == first + i
    ensures CountSameUnit(u, anchors, t) == if first <= UnitOf(u, t) < first + |anchors| then 1 else 0
    decreases |anchors|
  {
    if anchors != [] {
      var rest := anchors[1..];
      assert forall i | 0 <= i < |rest| :: UnitOf(u, rest[i]) == (first + 1) + i by {
        forall i | 0 <= i < |rest| ensures UnitOf(u, rest[i]) == (first + 1) + i {
          assert rest[i] == anchors[i + 1];
        }
      }
      CountSameUnitOfConsecutive(u, rest, first + 1, t);
      assert UnitOf(u, anchors[0]) == first;
    }
  }

  /**
   * Every instant of a valid interval lies in the unit of exactly one anchor,
   * the one at index UnitOf(u, t) - UnitOf(u, start).
   */
  lemma ExactlyOneAnchorHolds(u: Unit, start: int, end: int, t: int)
    requires start <= t <= end
    ensures var anchors := EachOfInterval(u, Date(start), Date(end)).value;
      && CountSameUnit(u, anchors, t) == 1
      && var i := UnitOf(u, t) - UnitOf(u, start);
         0 <= i < |anchors| && IsSame(u, anchors[i], t)
  {
    var anchors := EachOfInterval(u, Date(start), Date(end)).value;
    AnchorsInConsecutiveUnits(u, start, end);
    UnitOfMonotone(u, start, t);
    UnitOfMonotone(u, t, end);
    CountSameUnitOfConsecutive(u, anchors, UnitOf(u, start), t);
  }

  /**
   * An instant exactly at an anchor belongs to that anchor's bucket and not to
   * the previous one.
   */
  lemma BoundaryBelongsToLaterBucket(u: Unit, start: int, end: int, i: int)
    requires start <= end
    requires 0 <= i < |EachOfInterval(u, Date(start), Date(end)).value|
    ensures var anchors := EachOfInterval(u, Date(start), Date(end)).value;
      && UnitOf(u, anchors[i]) - UnitOf(u, start) == i
      && (i > 0 ==> !IsSame(u, anchors[i - 1], anchors[i]))
  {
    AnchorsInConsecutiveUnits(u, start, end);
  }

  // ------------------------------------------------ calendar sanity facts

  /** Weeks are seven days long and begin on the configured weekday. */
  lemma WeeksStartOnWeekday(ws: Weekday, k: int)
    ensures WeekdayOf(UnitStartDay(WeekUnit(ws), k)) == ws
    ensures UnitStartDay(WeekUnit(ws), k + 1) - UnitStartDay(WeekUnit(ws), k) == 7
  {
  }

  /** 1970-01-01 is day 0 and 2024-01-01 is day 19723; 2024 is a leap year and 1900 is not. */
  lemma KnownDates()
    ensures DaysBeforeYear(1970) == 0
    ensures DaysBeforeYear(2024) == 19723
    ensures IsLeapYear(2024) && IsLeapYear(2000) && !IsLeapYear(1900)
    ensures WeekdayOf(DaysBeforeYear(2024)) == 1
  {
    DaysBeforeYearClosedForm(2024);
  }
}
