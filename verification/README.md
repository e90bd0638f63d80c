# Discontinuous time scale of react-financial-charts, in Dafny

This project models the x-scale engine of the `scales` package of
react-financial-charts. A financial chart plots records at consecutive
integer positions, so weekends, holidays and closed hours leave no gaps.
The engine has three parts:

- the **level ladder** (`levels.ts`): 23 rungs that rank a record's
  calendar boundary from level 22 (a year that is a multiple of 12) down to
  level 0 (any millisecond), each naming a formatter key;
- the **index builder** (`discontinuousTimeScaleProvider.ts`): a size-2
  sliding window over the records derives boundary flags from each pair of
  consecutive dates, classifies each record with the first rung that fires,
  and emits one `DiscontinuousIndex` entry (index, level, date, format) per
  record; a builder of settings wraps this into a provider that also tags
  the records with their entries and builds the scale;
- the **finance discontinuous scale** (`financeDiscontinuousScale.ts`): an
  affine map from index values to pixels held by a backing linear scale;
  lookups from index values back into the index array; and the tick
  algorithm. That algorithm takes whole levels from the most significant
  down while the count stays under a threshold, sorts them, and deletes the
  less significant tick of every pair that is too close.

Modules, in dependency order: `Wrappers` (Option, Result, failures),
`Boundaries` (calendar inputs, flag rows), `Levels` (ladder, formatters),
`IndexBuilder`, `FinanceScale` (linear backing, scale record, accessors,
lookups), `ScaleProvider`, `Sorting`, `Thinning` (conflict resolution),
`Ticks`. `IndexScenarios` and `TickScenarios` hold worked examples taken
from the repository's test suites.

Modelling choices:

- A record's calendar position is the input `CalendarDate` (seconds,
  minutes, hours, weekday, month, full year, epoch milliseconds). The
  conversion from an instant to local calendar fields belongs to the
  JavaScript `Date` and is not modelled.
- A stored date is its epoch milliseconds. A stored formatter is its
  d3-time-format specifier string. Rendering is a parameter
  `render(specifier, date)` of the label lookup.
- Levels are `Option<int>`. When every rung's key has an empty specifier,
  nothing fires and the entry keeps no level. Its formatter is then built
  from the specifier "undefined".
- Throwing is `Err(TypeError)` (reading a field of a missing array
  element) or `Err(MissingIndex)` (creating a scale without an index).
- The backing linear scale works on exact reals. Its `ticks(m)` output is
  an input sequence. The selection threshold is a `Bound` that can be
  infinite or NaN, because a zero-width domain divides by zero.
- A deleted tick never affects a later decision of the nested loops.
  So the deleted set is the set of losers of all close pairs.
  `Thinning.ThinTicks` runs the loops themselves and is proved to compute
  that set-based definition.

Behaviours of the code worth knowing:

- With no backing ticks, the minimum tick distance is `ceil(1 * 1.5) = 2`
  (`Thinning.Distance`).
- The first record's parity argument is `initialIndex` itself, while every
  later record's is its position. So an odd `initialIndex` moves the first
  record from level 15 to level 14 and leaves every other level as it was
  (`IndexBuilder.OffsetShift`).
- A new year divisible by 12 is level 22, the highest level
  (`Levels.YearRungsNested`, `IndexScenarios.YearMultipleOfTwelve`).
- The lookups add `|index[0].index|` to the requested index value. This
  re-bases correctly only when the first stored index is at most 0. With
  a positive `initialIndex` they read the wrong position
  (`ScaleProvider.PositiveInitialIndexMisses`, `TickScenarios.PositiveHeadMisaligns`).

## Model

| member | source | states |
|---|---|---|
| `Boundaries.FirstRow` | packages/scales/src/discontinuousTimeScaleProvider.ts:42-63 | the first record's flag row carries its timestamp and sets exactly one flag, the day boundary |
| `Boundaries.PairRow` | packages/scales/src/discontinuousTimeScaleProvider.ts:78-131 | each base flag is set exactly when that calendar field differs between the two dates; a week starts exactly when the weekday decreases; each multiple flag implies its base flag |
| `Boundaries.SameInstantSetsNoFlag` | packages/scales/src/discontinuousTimeScaleProvider.ts:84-110 | two records with the same calendar fields set no flag |
| `Boundaries.WrapTestDetectsCrossing` | packages/scales/src/discontinuousTimeScaleProvider.ts:90-92 | the wrap-around test `now % n <= prev % n` holds exactly when a step shorter than n crosses a multiple of n, on a cycle n divides |
| `Boundaries.MinuteMultipleFlagsCrossing` | packages/scales/src/discontinuousTimeScaleProvider.ts:89-92 | for steps under five minutes, the 5-, 15- and 30-minute flags mark exactly the crossed multiples |
| `Boundaries.QuarterFlagCrossing` | packages/scales/src/discontinuousTimeScaleProvider.ts:106-108 | for steps under three months, the quarter flag marks exactly a crossed multiple of three months |
| `Boundaries.SecondsLandMinutesCross` | packages/scales/src/discontinuousTimeScaleProvider.ts:84-92 | second multiples are flagged only when landed on, minute multiples when crossed: 3s to 7s is not flagged, 58 min to 2 min is, 2 min to 8 min is not |
| `Levels.DefaultFormatters` | packages/scales/src/levels.ts:15-25 | every key has a non-empty specifier; quarter and month, week and day, hour and minute share theirs |
| `Levels.Rung` | packages/scales/src/levels.ts:27-51 | the last rung fires whatever the record and names the millisecond key |
| `Levels.RungKeyFollowsTable` | packages/scales/src/levels.ts:27-51 | every rung that fires names the formatter key of its level's band (year, quarter, month, week, day, hour, minute, second, millisecond) |
| `Levels.LastRungAlwaysFires` | packages/scales/src/levels.ts:50 | the level-0 rung names the millisecond key whatever the record |
| `Levels.YearRungsNested` | packages/scales/src/levels.ts:28-31 | a year boundary satisfying a higher year rung satisfies every lower one |
| `Levels.ParityRungs` | packages/scales/src/levels.ts:35-40 | level 15 fires on a day boundary at an even parity argument and level 10 on an hour boundary at an even hour |
| `Levels.DefaultFormattersNonEmpty` | packages/scales/src/levels.ts:15-25 | every default specifier is non-empty |
| `IndexBuilder.FirstFiring` | packages/scales/src/discontinuousTimeScaleProvider.ts:27-37 | the scan returns the first rung from its start that fires, with its level and specifier, or none when none fires |
| `IndexBuilder.EvaluateLevel` | packages/scales/src/discontinuousTimeScaleProvider.ts:27-37 | the classification is the highest firing level with its key's specifier, and is absent exactly when no level fires |
| `IndexBuilder.ClassifiedAt` | packages/scales/src/discontinuousTimeScaleProvider.ts:27-37 | a firing level with no higher firing level is the classification |
| `IndexBuilder.AlwaysClassified` | packages/scales/src/levels.ts:50 | with a non-empty millisecond specifier every record is classified |
| `IndexBuilder.FirstRowLevel` | packages/scales/src/discontinuousTimeScaleProvider.ts:42-67 | the first record's level is 15 for an even parity argument and 14 for an odd one |
| `IndexBuilder.FirstEntry` | packages/scales/src/discontinuousTimeScaleProvider.ts:41-68 | the first record stores initialIndex and its own timestamp, is a day boundary and nothing else, and with a day specifier gets level 15 or 14 by the parity of initialIndex |
| `IndexBuilder.NextEntry` | packages/scales/src/discontinuousTimeScaleProvider.ts:71-136 | record i stores i + initialIndex and its timestamp; its level, with parity argument i, is the highest that fires on the pair's flags, absent exactly when none fires |
| `IndexBuilder.ToIndex` | packages/scales/src/discontinuousTimeScaleProvider.ts:157-164 | the entry keeps index, date, level and specifier; an unclassified record gets no level and the specifier "undefined" |
| `IndexBuilder.EntryAt` | packages/scales/src/discontinuousTimeScaleProvider.ts:39-136 | the window output at position k stores index initialIndex + k and record k's timestamp, with well-nested flags |
| `IndexBuilder.Calculate` | packages/scales/src/discontinuousTimeScaleProvider.ts:39-137 | the size-2 window emits exactly one entry per record, the one for its position |
| `IndexBuilder.CreateIndex` | packages/scales/src/discontinuousTimeScaleProvider.ts:146-169 | one entry per record, index initialIndex + k, date the record's timestamp, level absent or in 0..22 |
| `IndexBuilder.CreateIndexEntry` | packages/scales/src/discontinuousTimeScaleProvider.ts:39-136 | entry 0 is the sentinel entry, entry k > 0 the pairwise entry for records k-1 and k at parity k |
| `IndexBuilder.IndexIsDense` | packages/scales/src/discontinuousTimeScaleProvider.ts:135 | consecutive stored indices differ by one |
| `IndexBuilder.AllClassified` | packages/scales/src/discontinuousTimeScaleProvider.ts:157-165 | with a non-empty millisecond specifier every entry carries a level in 0..22 |
| `IndexBuilder.FirstEntryLevel` | packages/scales/src/discontinuousTimeScaleProvider.ts:43-67 | the first entry's level is 15 when initialIndex is even and 14 when it is odd, whatever the first record |
| `IndexBuilder.OffsetShift` | packages/scales/src/discontinuousTimeScaleProvider.ts:43-135 | an offset n shifts every index by n and keeps dates and later levels; the first level is kept exactly when n is even |
| `FinanceScale.Create` | packages/scales/src/financeDiscontinuousScale.ts:23-27 | creation fails exactly when no index is given, otherwise keeps the index and the backing scale |
| `FinanceScale.Round4` | packages/scales/src/financeDiscontinuousScale.ts:41 | the result is a multiple of 1e-4 within half a step of the value, so it is the nearest multiple, with halves rounded up |
| `FinanceScale.Round4Exact` | packages/scales/src/financeDiscontinuousScale.ts:41 | multiples of 1e-4 are kept |
| `FinanceScale.Invert` | packages/scales/src/financeDiscontinuousScale.ts:39-42 | the inverse is the multiple of 1e-4 nearest the backing inverse |
| `FinanceScale.Apply` | packages/scales/src/financeDiscontinuousScale.ts:32-34 | without clamping the domain's ends map to the range's ends; with clamping the pixel never leaves the range |
| `FinanceScale.InvertAfterApply` | packages/scales/src/financeDiscontinuousScale.ts:32-42 | on a non-degenerate domain and range, invert after scale gives back the value rounded to 1e-4 |
| `FinanceScale.InterpolateUndoesNormalize` | packages/scales/src/financeDiscontinuousScale.ts:32-34 | the backing map's two halves are inverse on a non-degenerate interval |
| `FinanceScale.NormalizeUndoesInterpolate` | packages/scales/src/financeDiscontinuousScale.ts:39-42 | normalizing an interpolated point recovers its fraction |
| `FinanceScale.ClampTo` | packages/scales/src/financeDiscontinuousScale.ts:72-80 | clamping lands inside the interval, in either orientation, and keeps inner values |
| `FinanceScale.WithDomain` | packages/scales/src/financeDiscontinuousScale.ts:46-54 | setting the domain changes only the domain |
| `FinanceScale.WithRange` | packages/scales/src/financeDiscontinuousScale.ts:58-66 | setting the range changes only the range |
| `FinanceScale.WithClamp` | packages/scales/src/financeDiscontinuousScale.ts:72-80 | setting clamping changes only the flag |
| `FinanceScale.WithIndex` | packages/scales/src/financeDiscontinuousScale.ts:183-191 | setting the index changes only the index |
| `FinanceScale.Copy` | packages/scales/src/financeDiscontinuousScale.ts:196-198 | a copy has the same index and backing state |
| `FinanceScale.CopyIsIndependent` | packages/scales/src/financeDiscontinuousScale.ts:196-198 | a copy equals the original, and setting its domain gives the original with only the backing domain replaced |
| `FinanceScale.Value` | packages/scales/src/financeDiscontinuousScale.ts:165-172 | throws exactly on an empty index; any date found is a stored date |
| `FinanceScale.TickFormat` | packages/scales/src/financeDiscontinuousScale.ts:155-161 | throws on an empty index; a label exists exactly when the date lookup finds a date, and it is the render of a stored entry |
| `FinanceScale.LookupFindsIndexValue` | packages/scales/src/financeDiscontinuousScale.ts:155-172 | on a re-based index, value and label at x come from the entry whose index is floor(x) |
| `FinanceScale.LookupOutsideIndex` | packages/scales/src/financeDiscontinuousScale.ts:155-172 | on a re-based index, x outside the stored range gives no date and a throwing label |
| `ScaleProvider.Builder` | packages/scales/src/discontinuousTimeScaleProvider.ts:177-185 | a fresh builder starts at index 0 with no supplied index and the default formatters |
| `ScaleProvider.BuilderReadsBack` | packages/scales/src/discontinuousTimeScaleProvider.ts:181-182 | the default accessor reads back the entry the default mutator attached |
| `ScaleProvider.WithInitialIndex` | packages/scales/src/discontinuousTimeScaleProvider.ts:211-216 | only the initial index changes |
| `ScaleProvider.WithInputDateAccessor` | packages/scales/src/discontinuousTimeScaleProvider.ts:217-221 | only the date accessor changes |
| `ScaleProvider.WithIndexAccessor` | packages/scales/src/discontinuousTimeScaleProvider.ts:222-227 | only the index accessor changes |
| `ScaleProvider.WithIndexMutator` | packages/scales/src/discontinuousTimeScaleProvider.ts:228-235 | only the index mutator changes |
| `ScaleProvider.WithIndex` | packages/scales/src/discontinuousTimeScaleProvider.ts:236-241 | only the supplied index changes |
| `ScaleProvider.SetLocale` | packages/scales/src/discontinuousTimeScaleProvider.ts:252-258 | formatters are replaced when given and kept otherwise; nothing else changes |
| `ScaleProvider.Provide` | packages/scales/src/discontinuousTimeScaleProvider.ts:187-209 | uses the supplied index or the calculator's; tags records position by position up to the shorter length; scale over that index with a fresh linear backing |
| `ScaleProvider.IndexCalculator` | packages/scales/src/discontinuousTimeScaleProvider.ts:260-262 | the returned calculator gives one entry per record, numbered from initialIndex, with the record's timestamp |
| `ScaleProvider.XAccessor` | packages/scales/src/discontinuousTimeScaleProvider.ts:206 | a record's x value is its entry's stored index, absent when the record or its entry is missing |
| `ScaleProvider.DisplayXAccessor` | packages/scales/src/discontinuousTimeScaleProvider.ts:207 | the display date is the date the index builder stores for the record |
| `ScaleProvider.CalculatorNumbersRecords` | packages/scales/src/discontinuousTimeScaleProvider.ts:260-262 | the index calculator numbers records from initialIndex, with their dates |
| `ScaleProvider.BuiltIndexIsRebased` | packages/scales/src/discontinuousTimeScaleProvider.ts:187-193 | an index built from initialIndex <= 0 is dense and starts at or below 0 |
| `ScaleProvider.XValueOfRecord` | packages/scales/src/discontinuousTimeScaleProvider.ts:199-206 | record k's x value is initialIndex + k |
| `ScaleProvider.XValueRoundTrip` | packages/scales/src/discontinuousTimeScaleProvider.ts:187-207 | for initialIndex <= 0, looking a record's x value up in the provided scale gives the record's date |
| `ScaleProvider.PositiveInitialIndexMisses` | packages/scales/src/financeDiscontinuousScale.ts:165-172 | with initialIndex 1 the first record's x value finds no date |
| `ScaleProvider.SuppliedIndexTruncates` | packages/scales/src/discontinuousTimeScaleProvider.ts:188-201 | a supplied index is used verbatim and records beyond its length are dropped |
| `Sorting.Insert` | packages/scales/src/financeDiscontinuousScale.ts:127 | inserting into a sorted list keeps it sorted and adds exactly the one element |
| `Sorting.SortAscending` | packages/scales/src/financeDiscontinuousScale.ts:127 | the sort is a sorted permutation of its input |
| `Sorting.SortedArrangementUnique` | packages/scales/src/financeDiscontinuousScale.ts:127 | two sorted lists with the same elements are equal |
| `Sorting.SortIsTheSortedArrangement` | packages/scales/src/financeDiscontinuousScale.ts:127 | the sort equals any sorted permutation of its input |
| `Sorting.Dedup` | packages/scales/src/financeDiscontinuousScale.ts:130 | a Set keeps the same values without repeats, strictly increasing when the input is sorted |
| `Sorting.DedupOfNoDup` | packages/scales/src/financeDiscontinuousScale.ts:130 | a list without repeats passes through a Set unchanged |
| `Sorting.Survivors` | packages/scales/src/financeDiscontinuousScale.ts:144-146 | exactly the values not deleted remain, in order |
| `Thinning.Distance` | packages/scales/src/financeDiscontinuousScale.ts:135-139 | the minimum distance is 1.5 times a quarter of the backing ticks' mean spacing, rounded up, and 2 with no backing ticks |
| `Thinning.Loser` | packages/scales/src/financeDiscontinuousScale.ts:144 | the deleted tick is one of the pair: the later one when the earlier level is at least as high, the earlier one otherwise |
| `Thinning.Thin` | packages/scales/src/financeDiscontinuousScale.ts:129-146 | throws exactly when a close pair's levels cannot be read; otherwise keeps exactly the values not deleted, strictly increasing for sorted input |
| `Thinning.LosersStep` | packages/scales/src/financeDiscontinuousScale.ts:141-144 | visiting one more pair adds at most its loser |
| `Thinning.ThinTicks` | packages/scales/src/financeDiscontinuousScale.ts:129-147 | the nested deletion loops compute the set-based thinning |
| `Thinning.ThinnedTicksSpread` | packages/scales/src/financeDiscontinuousScale.ts:141-146 | any two kept ticks are more than the minimum distance apart |
| `Thinning.LeadingTopTickSurvives` | packages/scales/src/financeDiscontinuousScale.ts:141-146 | the earliest tick of the highest level is never deleted |
| `Thinning.NothingCloseKeepsAll` | packages/scales/src/financeDiscontinuousScale.ts:141-146 | with no close pair nothing is deleted |
| `Ticks.WindowOf` | packages/scales/src/financeDiscontinuousScale.ts:98-104 | on a re-based index the window is exactly the positions whose index values lie in the domain |
| `Ticks.Threshold` | packages/scales/src/financeDiscontinuousScale.ts:106-107 | 1.5 times the window's share of the domain times the backing tick count, rounded up; for a zero-width domain +Infinity, -Infinity or NaN by the sign of the window's span |
| `Ticks.Bucket` | packages/scales/src/financeDiscontinuousScale.ts:110-117 | a level's bucket holds exactly the index values of window entries at that level |
| `Ticks.Stack` | packages/scales/src/financeDiscontinuousScale.ts:110-125 | the buckets from the top down to a level hold exactly the window entries at or above it |
| `Ticks.Cut` | packages/scales/src/financeDiscontinuousScale.ts:120-125 | every level taken keeps the count within the threshold, and the first refused level would exceed it |
| `Ticks.Collect` | packages/scales/src/financeDiscontinuousScale.ts:120-125 | the selection loop yields the stack down to the cut level |
| `Ticks.CutIsLowestFittingLevel` | packages/scales/src/financeDiscontinuousScale.ts:120-125 | the cut is the level whose stack fits while the next lower stack does not |
| `Ticks.StackGrows` | packages/scales/src/financeDiscontinuousScale.ts:120-125 | taking more levels never shrinks the stack |
| `Ticks.StackEmptyAbove` | packages/scales/src/financeDiscontinuousScale.ts:110-117 | with no window entry at a level or above, that stack is empty |
| `Ticks.TicksOf` | packages/scales/src/financeDiscontinuousScale.ts:94-150 | empty index gives no ticks; a result is sorted and consists of index values of classified entries |
| `Ticks.CandidatesAreUpperLevels` | packages/scales/src/financeDiscontinuousScale.ts:110-125 | candidates are exactly the window entries at or above the cut level |
| `Ticks.UnthinnedTicksAreSortedCandidates` | packages/scales/src/financeDiscontinuousScale.ts:127-149 | without thinning the ticks are the sorted arrangement of the candidates |
| `Ticks.RebasedCandidate` | packages/scales/src/financeDiscontinuousScale.ts:98-125 | on a re-based index a candidate is readable, inside the domain and at or above the cut |
| `Ticks.TicksOnRebasedIndex` | packages/scales/src/financeDiscontinuousScale.ts:94-150 | on a re-based index ticks never throw, and every tick is inside the domain at or above the cut level |
| `Ticks.ThinnedTicksAreSpread` | packages/scales/src/financeDiscontinuousScale.ts:129-146 | when thinning runs, any two returned ticks are more than the minimum distance apart |
| `IndexScenarios.SecondLevelIsHighestFiring` | packages/scales/src/discontinuousTimeScaleProvider.ts:27-37 | the second record's level is the highest firing one |
| `IndexScenarios.OddHourBoundary` | packages/scales/test/discontinuousTimeScaleProvider.test.ts:161-172 | 10:00 to 11:00 is level 9 |
| `IndexScenarios.EvenHourBoundary` | packages/scales/test/discontinuousTimeScaleProvider.test.ts:337-348 | 01:00 to 02:00 is level 10 |
| `IndexScenarios.HalfDayBoundary` | packages/scales/test/discontinuousTimeScaleProvider.test.ts:298-310 | 00:00 to 12:00 is level 13 |
| `IndexScenarios.QuarterDayBoundary` | packages/scales/test/discontinuousTimeScaleProvider.test.ts:311-323 | 00:00 to 06:00 is level 12 |
| `IndexScenarios.EighthDayBoundary` | packages/scales/test/discontinuousTimeScaleProvider.test.ts:324-336 | 00:00 to 03:00 is level 11 |
| `IndexScenarios.ThirtyMinuteBoundary` | packages/scales/test/discontinuousTimeScaleProvider.test.ts:218-230 | 10:00 to 10:30 is level 8 |
| `IndexScenarios.FifteenMinuteBoundary` | packages/scales/test/discontinuousTimeScaleProvider.test.ts:231-243 | 10:00 to 10:15 is level 7 |
| `IndexScenarios.FiveMinuteBoundary` | packages/scales/test/discontinuousTimeScaleProvider.test.ts:174-186 | 10:00 to 10:05 is level 6 |
| `IndexScenarios.ThirtySecondBoundary` | packages/scales/test/discontinuousTimeScaleProvider.test.ts:283-295 | 10:00:00 to 10:00:30 is level 4 |
| `IndexScenarios.FifteenSecondBoundary` | packages/scales/test/discontinuousTimeScaleProvider.test.ts:270-282 | 10:00:00 to 10:00:15 is level 3 |
| `IndexScenarios.FiveSecondBoundary` | packages/scales/test/discontinuousTimeScaleProvider.test.ts:257-269 | 10:00:00 to 10:00:05 is level 2 |
| `IndexScenarios.SecondBoundary` | packages/scales/test/discontinuousTimeScaleProvider.test.ts:244-256 | 10:00:00 to 10:00:01 is level 1 |
| `IndexScenarios.RepeatedTimestamp` | packages/scales/test/discontinuousTimeScaleProvider.test.ts:416-425 | a repeated timestamp is level 0 |
| `IndexScenarios.QuarterBoundary` | packages/scales/src/levels.ts:32 | a month change into a quarter start is level 18 |
| `IndexScenarios.SundayToMonday` | packages/scales/src/levels.ts:34-36 | Sunday to Monday is a day boundary (level 14 at odd parity), not a week start |
| `IndexScenarios.SaturdayToSunday` | packages/scales/src/levels.ts:34 | Saturday to Sunday starts a week, level 16 |
| `IndexScenarios.YearMultipleOfTwelve` | packages/scales/src/levels.ts:28 | a new year divisible by 12 is level 22 |
| `IndexScenarios.YearMultipleOfFour` | packages/scales/src/levels.ts:29 | a new year divisible by 4 but not 12 is level 21 |
| `IndexScenarios.EvenYear` | packages/scales/src/levels.ts:30 | an even new year not divisible by 4 is level 20 |
| `IndexScenarios.OddYear` | packages/scales/src/levels.ts:31 | an odd new year is level 19 |
| `IndexScenarios.SingleRecordAtNewYear` | packages/scales/test/discontinuousTimeScaleProvider.test.ts:139-148 | a lone record on January 1st gets level 15, not a year level |
| `TickScenarios.ThreeDayLookups` | packages/scales/test/financeDiscontinuousScale.test.ts:59-67 | labels and dates come from the entry at the index value |
| `TickScenarios.MidpointMapping` | packages/scales/test/financeDiscontinuousScale.test.ts:32-37 | domain [0, 2] onto [0, 100] maps 1 to 50 and inverts 50 to 1 |
| `TickScenarios.PositiveHeadMisaligns` | packages/scales/src/financeDiscontinuousScale.ts:165-172 | index values starting at 5 make value(5) miss |
| `TickScenarios.EmptyIndex` | packages/scales/test/financeDiscontinuousScale.test.ts:27-30 | no index throws at creation; an empty index gives no ticks and a throwing lookup |
| `TickScenarios.SparseCandidates` | packages/scales/test/financeDiscontinuousScale.test.ts:132-139 | domain [0, 1] takes every level |
| `TickScenarios.SparseWindowKeepsAll` | packages/scales/test/financeDiscontinuousScale.test.ts:132-139 | ticks are 0 and 1 without thinning |
| `TickScenarios.UntickedCandidates` | packages/scales/test/financeDiscontinuousScale.test.ts:117-130 | with no backing ticks not even the year is taken |
| `TickScenarios.NoBackingTicks` | packages/scales/test/financeDiscontinuousScale.test.ts:117-130 | with no backing ticks the result is empty |
| `TickScenarios.AlternatingCandidates` | packages/scales/test/financeDiscontinuousScale.test.ts:185-217 | the three years fit the threshold, the days do not |
| `TickScenarios.AlternatingThinning` | packages/scales/test/financeDiscontinuousScale.test.ts:201-204 | minimum distance 1 deletes none of the years |
| `TickScenarios.QuarterSpacingDistance` | packages/scales/test/financeDiscontinuousScale.test.ts:201-204 | backing ticks 0, 2.5, 5 give distance 1 |
| `TickScenarios.AlternatingLevels` | packages/scales/test/financeDiscontinuousScale.test.ts:185-228 | the result is the three years 0, 2, 4 |
| `TickScenarios.DayYearCandidates` | packages/scales/test/financeDiscontinuousScale.test.ts:100-115 | only the year fits the threshold |
| `TickScenarios.DayThenYear` | packages/scales/test/financeDiscontinuousScale.test.ts:100-115 | the result is the year alone |
| `TickScenarios.CollisionCandidates` | packages/scales/src/financeDiscontinuousScale.ts:110-125 | a month and a year are taken, four days are not |
| `TickScenarios.CollisionThinning` | packages/scales/src/financeDiscontinuousScale.ts:141-144 | the close pair deletes the earlier, lower tick |
| `TickScenarios.EarlierLowerTickDeleted` | packages/scales/test/financeDiscontinuousScale.test.ts:230-249 | the deletion of the earlier tick does occur, leaving only the year |

## Left out

- `utc()` (discontinuousTimeScaleProvider.ts lines 242-251): it shifts dates by the host's time-zone offset, which is environment state. The date accessor is used as given.
- Calendar arithmetic: the local calendar fields of a `Date` are inputs, not derived from the timestamp.
- `setLocale`'s locale argument: it sets d3's global default locale, which only affects rendering.
- Label rendering by d3-time-format: entries keep the specifier, and `TickFormat` takes the renderer as a parameter.
- The d3 linear scale's `ticks`, `nice`, `rangeRound`, `interpolate` and `unknown` are not modelled. Its tick output is an input of `TicksOf`; the rest only forward to d3.
- IEEE-754 arithmetic: the model computes on exact reals, so rounding in `(end - start) / (d1 - d0) * n` and in the inverse is not modelled.
- Domains and ranges with more than two points (d3's polylinear mode), and NaN or null inputs to the scale, are not modelled.
- `initialIndex` is assumed to be an integer; a fractional offset, which the builder accepts and stores in every entry, is not modelled.
- `slidingWindow` and `zipper` live in the core package, which is not part of this model. They are modelled from their use: a size-2 window, and element-wise pairing up to the shorter length.
- The tick test on two years of generated trade data (financeDiscontinuousScale.test.ts lines 148-181) is not reproduced, because its records come from a random generator.
- `Thinning.LeadingTopTickSurvives`: stated for strictly increasing candidates whose levels can all be read, which holds on a re-based index; duplicate tick values are not covered.
- `FinanceScale.TickFormat`: its contract does not name the rendered entry or say that an out-of-range position throws; `FinanceScale.LookupFindsIndexValue` and `FinanceScale.LookupOutsideIndex` state both on a re-based index.
- `FinanceScale.Value`: its contract states only where a found date comes from; `FinanceScale.LookupFindsIndexValue` gives the full lookup on a re-based index.
