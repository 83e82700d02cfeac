# Listory core: listen reports and the music catalog

Listory records what its users play on Spotify and shows reports over that history. This project models two services of its backend and proves properties of them in Dafny.

- **The listen report** (`src/reports/reports.service.ts`):
  - A time preset (last 7/30/90/180/365 days, all time, custom) becomes an interval relative to "now".
  - A user's listens in a custom range are fetched and bucketed per day, week, month or year.
  - The bucket dates are the starts of every calendar unit from the range start's unit through the range end's unit. Each count is the number of fetched listens played in the same unit as the bucket's date.
- **The music library** (`src/music-library/music-library.service.ts`):
  - The catalog holds artists, albums, genres and tracks, one table per kind. The natural key is the Spotify id, or the name for genres.
  - `create*` recovers from a lost race with a concurrent importer: when the store rejects the insert for violating that kind's own unique index, it answers with the record that is now stored. Every other failure reaches the caller.
  - `updateArtist` refreshes an artist, and `getArtistWithOldestUpdate` picks the least recently refreshed one.

Modules:

- `wrappers.dfy` (`Wrappers`) holds `Option` and `Result`.
- `calendar.dfy` (`Calendar`) covers the parts of the date library the report uses.
  - It provides `startOfDay`, `endOfDay`, `sub` in days, `eachDay/Week/Month/YearOfInterval` and `isSameDay/Week/Month/Year`.
  - These are stated over UTC instants in the proleptic Gregorian calendar, with Euclidean division, so instants before 1970 work too.
  - Every unit kind numbers its units by an integer index whose first days strictly increase. So every instant lies in exactly one unit.
  - Month starts are the month lengths summed from January 1970, and year starts are the year lengths summed. `MonthsTileYears` proves that January of every year starts on that year's first day.
- `reports.dfy` (`Reports`) holds the preset table, `getIntervalFromPreset` (an imperative method proved equal to the function `PresetInterval`), the listen fetch and `getListens`.
- `catalog.dfy` (`Catalog`) gives the store semantics as functions.
  - It has the save of a new record (`Insert`), the save of a stored record (`Update`) and the create-or-fetch rule (`CreateOrFetch`).
  - It also proves that rule's properties, including idempotence when any number of creators race for one key.
- `music_library.dfy` (`MusicLibrary`) holds the entities and the `MusicLibraryService` class.
  - The class keeps one map per kind, from natural key to record. Its methods reassign those maps.
  - Each `create*` method and `updateArtist` is proved equal to the `Catalog` function that specifies it. The `find*` methods and `getArtistWithOldestUpdate` state their answer directly in terms of the maps. Every method keeps the invariant of one record per natural key.

How the model represents the source's inputs and effects:

- **Time.** Instants are integers: milliseconds since 1970-01-01T00:00Z.
  - A JavaScript `Date` is `Date(time)` or `InvalidDate`.
  - A custom bound as sent by the client is an `Option<Date>`. `None` is a missing or empty string. `Some(d)` is a non-empty string whose parse is `d`. This assumes both parsers the source uses read the string alike (see "## Left out").
  - The clock is a parameter. `getIntervalFromPreset` reads it twice, once for the start of today and once for the end of today, so its model takes two readings, `startClock` and `endClock`. A report's custom range ignores the clock, so `getListens` takes one reading, `now`.
- **The listen store** is a sequence parameter `store`.
  - The fetch keeps the user's listens whose `playedAt` lies between the interval's bounds, inclusive at both ends like SQL `BETWEEN`. It then takes the first 10,000,000 of them.
- **The date library's week start** is the parameter `weekStartsOn`. Sunday is 0, and that is the library's default.
- **Store failures** other than a duplicate key are the parameter `fault`. The store's exceptions become the typed `SaveError` (`UniqueViolation(constraint)` or `OtherError(code)`).

Three properties of the code shape the model:

- **Intervals are closed.** The listen fetch's `BETWEEN` includes both bounds (`DuringIncludesBounds`). `LastNDaysInterval` proves that "last N days" spans N + 1 whole days (today plus the N before it) when both clock readings fall on the same day. It spans one more day for each midnight passed between the two readings (`Last7DaysAcrossMidnight`).
- **The fetch is a single page.** The code asks once for page 1 with a limit of 10,000,000. `FetchListens` keeps that limit, and `BelowLimitAllListensCounted` states what holds below it.
- **Weeks use the date library's default week start** (Sunday), not ISO weeks. The week start is a parameter, shared by the bucketing and the same-week test as it is in the code.

## Model

| member | source | states |
|---|---|---|
| Reports.TimePresetToDays | src/reports/reports.service.ts:48-56 | the day count is positive exactly for the five last-N-days presets; all time and custom map to 0 |
| Reports.PresetInterval | src/reports/reports.service.ts:94-136 | a preset's interval fails exactly for a custom range missing both bounds, and then with MissingCustomTime |
| Reports.GetIntervalFromPreset | src/reports/reports.service.ts:94-136 | the method, which starts from the start and end of today, each from its own clock reading, and narrows or replaces the interval per preset, returns exactly PresetInterval |
| Reports.LastNDaysInterval | src/reports/reports.service.ts:99-114 | last N days (N in 7, 30, 90, 180, 365) runs from midnight N days before the first reading's day to the last instant of the second reading's day: N + 1 whole days plus one per midnight between the readings, holding both readings when they are in order |
| Reports.LastNDaysSameDay | src/reports/reports.service.ts:99-114 | when both clock readings fall on one day, last N days spans exactly N + 1 whole days |
| Reports.Last7DaysAcrossMidnight | src/reports/reports.service.ts:99-114 | readings at 2024-03-09T23:59:59.999Z and 2024-03-10T00:00:00.000Z give the last 7 days as the 9 whole days 2024-03-02 to 2024-03-10 |
| Reports.AllTimeInterval | src/reports/reports.service.ts:116-119 | all time runs from the epoch to the last instant of the second reading's day |
| Reports.CustomIntervalVerbatim | src/reports/reports.service.ts:121-132 | a custom range with at least one bound takes both parsed bounds as they are |
| Reports.Last7DaysScenario | src/reports/reports.service.ts:99-114 | at 2024-03-10T00:00Z the last 7 days run from 2024-03-03T00:00:00.000Z to 2024-03-10T23:59:59.999Z |
| Reports.Parse | src/reports/reports.service.ts:80-81 | a missing or empty bound parses to the invalid date; a present bound to its parsed date |
| Reports.During | src/listens/listen.repository.ts:22-27 | an instant matches `BETWEEN` only when both bounds are valid dates and start <= end |
| Reports.DuringIncludesBounds | src/listens/listen.repository.ts:22-27 | `BETWEEN` matches both bounds themselves and nothing just outside them |
| Reports.ListensDuring | src/listens/listen.repository.ts:12-27 | a listen is fetched exactly when it is in the store, is the user's, and was played between the two valid bounds inclusive; each such listen is kept as many times as the store holds it |
| Reports.FetchListens | src/reports/reports.service.ts:72-77 | the fetch is a prefix of the matching listens of at most 10,000,000, and all of them when there are no more |
| Reports.TimeframeToDateFns | src/reports/reports.service.ts:24-46 | the week timeframe, and only it, buckets by weeks, and those weeks start on the configured weekday |
| Reports.TimeframeToDateFnsInjective | src/reports/reports.service.ts:24-46 | each timeframe selects its own calendar unit for both bucketing and comparison |
| Reports.ListensInUnit | src/reports/reports.service.ts:87-88 | a bucket's filter keeps exactly the listens in the same unit as the bucket date, each as many times as it occurs, and no more listens than given |
| Reports.ReportItems | src/reports/reports.service.ts:86-90 | one report item per anchor |
| Reports.ReportItemAt | src/reports/reports.service.ts:86-90 | item i is dated by anchor i and counts the listens in that anchor's unit |
| Reports.GetListens | src/reports/reports.service.ts:62-93 | a report succeeds exactly when both bounds parse and start <= end; otherwise it fails with MissingCustomTime when both are missing, else InvalidInterval; a report echoes the requested range and timeframe |
| Reports.BucketCounts | src/reports/reports.service.ts:86-90 | each item is dated by its anchor and counts the listens in the anchor's unit: at most all of them, and zero exactly when none lies there |
| Reports.BucketsFollowCalendar | src/reports/reports.service.ts:79-90 | the items of a valid range lie one per unit from the start's unit through the end's, strictly ascending, the first at or before the start and the last at or before the end |
| Reports.ReportFollowsCalendar | src/reports/reports.service.ts:62-92 | the same calendar shape for the items of a successful report |
| Reports.ReportCountsListensInUnit | src/reports/reports.service.ts:72-90 | each count of a successful report is the number of fetched listens in its unit, at most the number fetched, and zero exactly when none lies there |
| Reports.NoListensNoCounts | src/reports/reports.service.ts:86-90 | with no listens every bucket counts zero |
| Reports.TotalCountFirstListen | src/reports/reports.service.ts:86-90 | one listen adds to the total count once for each anchor whose unit holds it |
| Reports.TotalCountOfPartition | src/reports/reports.service.ts:86-90 | when each listen lies in exactly one anchor's unit, the counts add up to the number of listens |
| Reports.EveryFetchedListenCountedOnce | src/reports/reports.service.ts:62-92 | every fetched listen is counted in exactly one bucket: a report's counts add up to the number of listens fetched for its range |
| Reports.BelowLimitAllListensCounted | src/reports/reports.service.ts:72-77 | below the page limit the counts add up to the number of the user's listens in the range |
| Reports.EmptyStoreZeroCounts | src/reports/reports.service.ts:86-90 | an empty store gives a non-empty report of zero counts |
| Reports.DailyScenarioFetch | src/listens/listen.repository.ts:22-27 | for the daily scenario's store, the fetch keeps user 1's two listens within 2024-01-01..2024-01-03 and drops user 2's |
| Reports.DailyScenarioAnchors | src/reports/reports.service.ts:84-86 | 2024-01-01..2024-01-03 by day has the three midnights as anchors |
| Reports.DailyScenarioBuckets | src/reports/reports.service.ts:86-90 | listens at 2024-01-01T10:00Z and 2024-01-02T23:59Z fill the three daily buckets with 1, 1 and 0 |
| Reports.DailyReportScenario | src/reports/reports.service.ts:62-93 | the whole daily report for that range and store is the items 1, 1, 0, echoing the range and timeframe |
| Calendar.StartOfDay | src/reports/reports.service.ts:100 | startOfDay is midnight of the same day, at most one day before the instant |
| Calendar.EndOfDay | src/reports/reports.service.ts:101 | endOfDay is the last instant of the same day |
| Calendar.SubDays | src/reports/reports.service.ts:110-112 | subtracting n days moves the day number back by n and keeps the time of day |
| Calendar.DaysBeforeYearClosedForm | src/reports/reports.service.ts:42-45 | January 1 of year y is day 365 (y - 1970) plus the leap days in between, by the Gregorian rule |
| Calendar.YearOf | src/reports/reports.service.ts:42-45 | the year holding a day begins at or before it and the next year begins after it |
| Calendar.MonthOfDay | src/reports/reports.service.ts:38-41 | the month holding a day begins at or before it and the next month begins after it |
| Calendar.MonthTable | src/reports/reports.service.ts:38-41 | the cumulative month table agrees with the month lengths and sums to 365 or 366 days |
| Calendar.MonthOffset | src/reports/reports.service.ts:38-41 | month m of a year starts the table's day count after the year's first month |
| Calendar.MonthsTileYears | src/reports/reports.service.ts:38-45 | January of every year starts on that year's first day: months and years agree |
| Calendar.UnitStartIncreasing | src/reports/reports.service.ts:24-46 | days, weeks, months and years each begin after the one before |
| Calendar.UnitOfDay | src/reports/reports.service.ts:24-46 | the unit found for a day begins at or before it and the next unit begins after it |
| Calendar.UnitIsUnique | src/reports/reports.service.ts:24-46 | a day lies in only one unit of each kind |
| Calendar.UnitOfMonotone | src/reports/reports.service.ts:24-46 | a later instant never lies in an earlier unit |
| Calendar.YearLength | src/reports/reports.service.ts:42-45 | each year starts its own length in days before the next |
| Calendar.LeapYearsStep | src/reports/reports.service.ts:42-45 | the closed-form leap-year count grows by one exactly at a Gregorian leap year |
| Calendar.MonthOfYear | src/reports/reports.service.ts:38-41 | month index 12y + m has the length of month m in year y, leap February included |
| Calendar.MonthLength | src/reports/reports.service.ts:38-41 | each month starts its own length in days before the next |
| Calendar.UnitStartStep | src/reports/reports.service.ts:24-46 | each day, week, month and year begins before the next one |
| Calendar.UnitStartReflects | src/reports/reports.service.ts:24-46 | units that begin in a given order have indexes in that order |
| Calendar.UnitOfStartDay | src/reports/reports.service.ts:24-46 | a unit's first day lies in that unit |
| Calendar.UnitOfDayMonotone | src/reports/reports.service.ts:24-46 | a later day never lies in an earlier unit |
| Calendar.UnitOfStartOfUnit | src/reports/reports.service.ts:86-88 | the start of a unit is in that unit, so each anchor lies in its own bucket |
| Calendar.StartOfUnitIncreasing | src/reports/reports.service.ts:86 | later units begin at later instants |
| Calendar.UnitStartsAscending | src/reports/reports.service.ts:86 | consecutive unit starts strictly ascend |
| Calendar.StartOfUnit | src/reports/reports.service.ts:86 | an anchor is midnight of its unit's first day |
| Calendar.IsSame | src/reports/reports.service.ts:87 | two instants are in the same unit exactly when the second lies between the start of the first's unit and the start of the next unit |
| Calendar.InUnit | src/reports/reports.service.ts:87 | an instant lies in unit k exactly when it lies between the starts of units k and k + 1 |
| Calendar.UnitBounds | src/reports/reports.service.ts:24-46 | an instant lies between the start of its unit and the start of the next |
| Calendar.WeeksStartOnWeekday | src/reports/reports.service.ts:34-37 | weeks are seven days long and begin on the configured weekday |
| Calendar.EachOfInterval | src/reports/reports.service.ts:86 | eachXOfInterval fails (RangeError) exactly when a bound is invalid or start > end |
| Calendar.AnchorsInConsecutiveUnits | src/reports/reports.service.ts:86 | the anchors lie one per unit from the start's unit through the end's |
| Calendar.AnchorsAscending | src/reports/reports.service.ts:86 | the anchors strictly ascend |
| Calendar.AnchorsBracketInterval | src/reports/reports.service.ts:86 | there is at least one anchor; the first is at or before the start and the last at or before the end, and the next unit begins after the end |
| Calendar.CountSameUnitOfConsecutive | src/reports/reports.service.ts:86-88 | anchors in consecutive units hold a given instant's unit once if it is in their range, else never |
| Calendar.ExactlyOneAnchorHolds | src/reports/reports.service.ts:86-88 | every instant of a valid range is in the same unit as exactly one anchor, the one at its unit's offset from the start's unit |
| Calendar.BoundaryBelongsToLaterBucket | src/reports/reports.service.ts:86-88 | an instant exactly at anchor i lies in the i-th unit from the start's unit, so it belongs to bucket i and not to the previous one |
| Calendar.KnownDates | src/reports/reports.service.ts:117 | 1970-01-01 is day 0 and 2024-01-01 is day 19723, a Monday; 2024 and 2000 are leap years and 1900 is not |
| Catalog.Lookup | src/music-library/music-library.service.ts:30-34 | `findOneBy` on the natural key finds a record exactly when one is filed under the key, and it is that record |
| Catalog.LookupFindsKey | src/music-library/music-library.service.ts:30-34 | a lookup by natural key finds a record exactly when one is stored under the key, and that record carries the key |
| Catalog.Insert | src/music-library/music-library.service.ts:54-55 | saving a new record succeeds exactly when its key is free and the store does not fail; a failure of the store is reported whatever the key; otherwise a taken key violates the kind's index; a rejected save changes nothing |
| Catalog.Update | src/music-library/music-library.service.ts:80 | saving a stored record fails exactly with the store's failure; otherwise the record is stored under its key |
| Catalog.UpdateOnlyTouchesItsKey | src/music-library/music-library.service.ts:72-81 | an update keeps one record per key and leaves every other key's record unchanged |
| Catalog.CreateOrFetch | src/music-library/music-library.service.ts:47-70 | create-or-fetch either leaves the table alone or adds the new record under a free key, and keeps one record per key |
| Catalog.CreateNewKey | src/music-library/music-library.service.ts:47-55 | a record with a new key is stored and returned as built |
| Catalog.CreateExistingKey | src/music-library/music-library.service.ts:54-63 | a record whose key is taken adds nothing, and unless the store fails for another reason the caller receives the record already stored |
| Catalog.CreateOtherFailure | src/music-library/music-library.service.ts:57-66 | any other failure, a violation of a different index included, reaches the caller unchanged and stores nothing, whether or not the key is taken |
| Catalog.CreateAnswerIsStored | src/music-library/music-library.service.ts:61-63 | every record a create hands back is the one now stored under the requested key |
| Catalog.CreateOnlyTouchesItsKey | src/music-library/music-library.service.ts:47-70 | a create leaves every other key and its record unchanged |
| Catalog.CreateInTurnKeyTaken | src/music-library/music-library.service.ts:61-63 | once a key is stored, any number of further creates for it change nothing and all receive the stored record |
| Catalog.CreateIsIdempotent | src/music-library/music-library.service.ts:61-63 | any number of creates racing for one key leave exactly one record under it (the earlier one, else the first creator's), touch no other key, and all receive that record |
| MusicLibrary.OldestExists | src/music-library/music-library.service.ts:36-45 | every non-empty artist table has a least recently updated artist |
| MusicLibrary.UpdatedArtistFields | src/music-library/music-library.service.ts:76-78 | a refreshed artist keeps its Spotify identity, takes the new name and genres, and is stamped with the refresh time |
| MusicLibrary.MusicLibraryService.constructor | src/music-library/music-library.service.ts:23-28 | a new service works over the injected tables as they are, which the unique indexes keep at one record per key |
| MusicLibrary.MusicLibraryService.FindArtist | src/music-library/music-library.service.ts:30-34 | finds the artist stored under the Spotify id exactly when there is one; it carries that id |
| MusicLibrary.MusicLibraryService.GetArtistWithOldestUpdate | src/music-library/music-library.service.ts:36-45 | none exactly when there are no artists; otherwise a stored artist whose updatedAt is at most every stored artist's |
| MusicLibrary.MusicLibraryService.CreateArtist | src/music-library/music-library.service.ts:47-70 | the artists table and the answer are CreateOrFetch on IDX_ARTIST_SPOTIFY_ID for the artist built from the input; the other tables are unchanged; one artist per Spotify id is kept |
| MusicLibrary.MusicLibraryService.UpdateArtist | src/music-library/music-library.service.ts:72-81 | the artist with new name and genres, stamped now, is saved over its Spotify id and returned, or the store's failure is returned and nothing changes; the other tables are unchanged |
| MusicLibrary.MusicLibraryService.FindAlbum | src/music-library/music-library.service.ts:83-87 | finds the album stored under the Spotify id exactly when there is one; it carries that id |
| MusicLibrary.MusicLibraryService.CreateAlbum | src/music-library/music-library.service.ts:89-112 | the albums table and the answer are CreateOrFetch on IDX_ALBUM_SPOTIFY_ID; the other tables are unchanged |
| MusicLibrary.MusicLibraryService.FindGenre | src/music-library/music-library.service.ts:114-118 | finds the genre stored under the name exactly when there is one; it carries that name |
| MusicLibrary.MusicLibraryService.CreateGenre | src/music-library/music-library.service.ts:120-141 | the genres table and the answer are CreateOrFetch on IDX_GENRE_NAME, keyed by name; the other tables are unchanged |
| MusicLibrary.MusicLibraryService.FindTrack | src/music-library/music-library.service.ts:143-147 | finds the track stored under the Spotify id exactly when there is one; it carries that id |
| MusicLibrary.MusicLibraryService.CreateTrack | src/music-library/music-library.service.ts:149-173 | the tracks table and the answer are CreateOrFetch on IDX_TRACK_SPOTIFY_ID; the other tables are unchanged |

## Left out

- Time zones and daylight saving time: the date library works in the server's local zone, and the model works in UTC.
- String formats: `formatISO` renders the bucket dates as text, and the model keeps them as instants. The custom bounds are taken as already-parsed instants; the next line says what that leaves out.
- Reports.GetListens: the source parses each custom bound twice. `parseJSON` builds the fetch interval (`src/reports/reports.service.ts:127-128`) and `parseISO` builds the bucket range (`src/reports/reports.service.ts:80-81`). `parseJSON` accepts only a date with a time of day including seconds. So a bound that is missing, is not a date, is a date alone (such as `2024-01-01`) or has no seconds (such as `2024-01-01T10:00Z`) reaches the listen query as an invalid date (`src/reports/reports.service.ts:72-77`). The listen service and the database are not part of this model. The request can be expected to fail there with a database error rather than match nothing. The model parses each bound once, to the same `Date` for both uses. It answers InvalidInterval where a bound is missing or unparseable, and gives a report for date-only bounds, for which the source is expected to fail at the database. `During` takes an invalid bound to match nothing. `DailyReportScenario` therefore describes bounds that both parsers accept, such as `2024-01-01T00:00:00Z`. The database error is not modelled. It is likely unintended in the source, since date-only bounds are what a day-level report would naturally send.
- Reports.FetchListens: the listen service's pagination object and its ordering of listens are not modelled beyond "the first page of at most 10,000,000 matching listens".
- The reports controller (`src/reports/reports.controller.ts`) and `getTopArtists` are not part of this model. The controller passes the range as one `time` object, while `getListens` reads `timeStart` and `timeEnd` directly. The model follows the service's own parameters.
- Postgres itself is not modelled: transactions, real concurrency, surrogate ids, creation timestamps and the entity files' column defaults. Concurrent importers are modelled as creates taking turns on one table, which is what the unique index makes of them. A failure of the store that has nothing to do with the key is the parameter `fault`.
- MusicLibrary.MusicLibraryService.CreateArtist: the entity file is not part of this model, so the new artist's `updatedAt` is taken to be the creation time `now`.
- MusicLibrary.MusicLibraryService.UpdateArtist: the source overwrites the fields of the caller's artist object in place. The model takes the artist as a value and returns the updated value, so aliasing of that object is not captured. Saving an artist that is not stored inserts it under its Spotify id.
- MusicLibrary.MusicLibraryService.GetArtistWithOldestUpdate: when several artists share the oldest `updatedAt`, the database picks one; the model promises only that some oldest stored artist is returned.
- Entities hold related entities by value (an album's artists, a track's album), not as database relations.
