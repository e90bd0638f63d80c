/**
 * Concrete classifications of two-record sequences with the default
 * formatters, one per boundary kind the ladder distinguishes. Dates are
 * local calendar components; 2026-01-05 is a Monday (weekday 1). Epoch
 * milliseconds do not influence a level and are given as offsets.
 */
module IndexScenarios {
  import opened Wrappers
  import opened Boundaries
  import opened Levels
  import opened IndexBuilder

  /** A local date of January 5th, 2026 at the given clock time. */
  function Jan5(hours: nat, minutes: nat, seconds: nat): CalendarDate {
    CalendarDate(seconds, minutes, hours, 1, 0, 2026, ((hours * 60 + minutes) * 60 + seconds) * 1000)
  }

  /** The level of the second record of a two-record index built with the defaults. */
  function SecondLevel(a: CalendarDate, b: CalendarDate): Option<int> {
    CreateIndex([a, b], (d: CalendarDate) => d, 0, DefaultFormatters())[1].level
  }

  /** The second record's level is the highest level whose rung fires on the pair's flags at parity 1. */
  lemma SecondLevelIsHighestFiring(a: CalendarDate, b: CalendarDate, level: int)
    requires 0 <= level <= MaxLevel
    requires FiresAtLevel(level, PairRow(a, b), b, 1, DefaultFormatters())
    requires forall p :: 0 <= p < MaxLevel - level ==> !Fires(p, PairRow(a, b), b, 1, DefaultFormatters())
    ensures SecondLevel(a, b) == Some(level)
  {
    var row := PairRow(a, b);
    forall l | level < l <= MaxLevel
      ensures !FiresAtLevel(l, row, b, 1, DefaultFormatters())
    {
      assert !Fires(MaxLevel - l, row, b, 1, DefaultFormatters());
    }
    ClassifiedAt(level, row, b, 1, DefaultFormatters());
    CreateIndexEntry([a, b], (d: CalendarDate) => d, 0, DefaultFormatters(), 1);
  }

  /** 10:00 to 11:00 is an odd-hour boundary (level 9). */
  lemma OddHourBoundary()
    ensures SecondLevel(Jan5(10, 0, 0), Jan5(11, 0, 0)) == Some(9)
  {
    SecondLevelIsHighestFiring(Jan5(10, 0, 0), Jan5(11, 0, 0), 9);
  }

  /** 01:00 to 02:00 is an even-hour boundary (level 10). */
  lemma EvenHourBoundary()
    ensures SecondLevel(Jan5(1, 0, 0), Jan5(2, 0, 0)) == Some(10)
  {
    SecondLevelIsHighestFiring(Jan5(1, 0, 0), Jan5(2, 0, 0), 10);
  }

  /** 00:00 to 12:00 is a half-day boundary (level 13). */
  lemma HalfDayBoundary()
    ensures SecondLevel(Jan5(0, 0, 0), Jan5(12, 0, 0)) == Some(13)
  {
    SecondLevelIsHighestFiring(Jan5(0, 0, 0), Jan5(12, 0, 0), 13);
  }

  /** 00:00 to 06:00 is a quarter-day boundary (level 12). */
  lemma QuarterDayBoundary()
    ensures SecondLevel(Jan5(0, 0, 0), Jan5(6, 0, 0)) == Some(12)
  {
    SecondLevelIsHighestFiring(Jan5(0, 0, 0), Jan5(6, 0, 0), 12);
  }

  /** 00:00 to 03:00 is an eighth-of-a-day boundary (level 11). */
  lemma EighthDayBoundary()
    ensures SecondLevel(Jan5(0, 0, 0), Jan5(3, 0, 0)) == Some(11)
  {
    SecondLevelIsHighestFiring(Jan5(0, 0, 0), Jan5(3, 0, 0), 11);
  }

  /** 10:00 to 10:30 is a 30-minute boundary (level 8). */
  lemma ThirtyMinuteBoundary()
    ensures SecondLevel(Jan5(10, 0, 0), Jan5(10, 30, 0)) == Some(8)
  {
    SecondLevelIsHighestFiring(Jan5(10, 0, 0), Jan5(10, 30, 0), 8);
  }

  /** 10:00 to 10:15 is a 15-minute boundary (level 7). */
  lemma FifteenMinuteBoundary()
    ensures SecondLevel(Jan5(10, 0, 0), Jan5(10, 15, 0)) == Some(7)
  {
    SecondLevelIsHighestFiring(Jan5(10, 0, 0), Jan5(10, 15, 0), 7);
  }

  /** 10:00 to 10:05 is a 5-minute boundary (level 6). */
  lemma FiveMinuteBoundary()
    ensures SecondLevel(Jan5(10, 0, 0), Jan5(10, 5, 0)) == Some(6)
  {
    SecondLevelIsHighestFiring(Jan5(10, 0, 0), Jan5(10, 5, 0), 6);
  }

  /** 10:00:00 to 10:00:30 is a 30-second boundary (level 4). */
  lemma ThirtySecondBoundary()
    ensures SecondLevel(Jan5(10, 0, 0), Jan5(10, 0, 30)) == Some(4)
  {
    SecondLevelIsHighestFiring(Jan5(10, 0, 0), Jan5(10, 0, 30), 4);
  }

  /** 10:00:00 to 10:00:15 is a 15-second boundary (level 3). */
  lemma FifteenSecondBoundary()
    ensures SecondLevel(Jan5(10, 0, 0), Jan5(10, 0, 15)) == Some(3)
  {
    SecondLevelIsHighestFiring(Jan5(10, 0, 0), Jan5(10, 0, 15), 3);
  }

  /** 10:00:00 to 10:00:05 is a 5-second boundary (level 2). */
  lemma FiveSecondBoundary()
    ensures SecondLevel(Jan5(10, 0, 0), Jan5(10, 0, 5)) == Some(2)
  {
    SecondLevelIsHighestFiring(Jan5(10, 0, 0), Jan5(10, 0, 5), 2);
  }

  /** 10:00:00 to 10:00:01 is a plain second boundary (level 1). */
  lemma SecondBoundary()
    ensures SecondLevel(Jan5(10, 0, 0), Jan5(10, 0, 1)) == Some(1)
  {
    SecondLevelIsHighestFiring(Jan5(10, 0, 0), Jan5(10, 0, 1), 1);
  }

  /** The same instant twice sets no flag and falls through to the millisecond level (level 0). */
  lemma RepeatedTimestamp()
    ensures SecondLevel(Jan5(10, 0, 0), Jan5(10, 0, 0)) == Some(0)
  {
    SecondLevelIsHighestFiring(Jan5(10, 0, 0), Jan5(10, 0, 0), 0);
  }

  /** 2026-03-31 (Tuesday, month 2) to 2026-04-01 (Wednesday, month 3) at 10:00 is a quarter boundary (level 18). */
  lemma QuarterBoundary()
    ensures SecondLevel(CalendarDate(0, 0, 10, 2, 2, 2026, 0), CalendarDate(0, 0, 10, 3, 3, 2026, 86400000)) == Some(18)
  {
    SecondLevelIsHighestFiring(CalendarDate(0, 0, 10, 2, 2, 2026, 0), CalendarDate(0, 0, 10, 3, 3, 2026, 86400000), 18);
  }

  /** Weeks start on Sunday: Sunday 2026-01-04 to Monday 2026-01-05 is only a day boundary, at the odd parity 1 (level 14). */
  lemma SundayToMonday()
    ensures SecondLevel(CalendarDate(0, 0, 10, 0, 0, 2026, 0), Jan5(10, 0, 0)) == Some(14)
  {
    SecondLevelIsHighestFiring(CalendarDate(0, 0, 10, 0, 0, 2026, 0), Jan5(10, 0, 0), 14);
  }

  /** Saturday 2026-01-03 to Sunday 2026-01-04 is a week boundary (level 16). */
  lemma SaturdayToSunday()
    ensures SecondLevel(CalendarDate(0, 0, 10, 6, 0, 2026, 0), CalendarDate(0, 0, 10, 0, 0, 2026, 86400000)) == Some(16)
  {
    SecondLevelIsHighestFiring(CalendarDate(0, 0, 10, 6, 0, 2026, 0), CalendarDate(0, 0, 10, 0, 0, 2026, 86400000), 16);
  }

  /** New Year 2016 (a multiple of 12) reaches the top level (level 22). */
  lemma YearMultipleOfTwelve()
    ensures SecondLevel(CalendarDate(0, 0, 0, 4, 11, 2015, 0), CalendarDate(0, 0, 0, 5, 0, 2016, 1)) == Some(22)
  {
    SecondLevelIsHighestFiring(CalendarDate(0, 0, 0, 4, 11, 2015, 0), CalendarDate(0, 0, 0, 5, 0, 2016, 1), 22);
  }

  /** New Year 2024 (a multiple of 4, not of 12) (level 21). */
  lemma YearMultipleOfFour()
    ensures SecondLevel(CalendarDate(0, 0, 0, 0, 11, 2023, 0), CalendarDate(0, 0, 0, 1, 0, 2024, 1)) == Some(21)
  {
    SecondLevelIsHighestFiring(CalendarDate(0, 0, 0, 0, 11, 2023, 0), CalendarDate(0, 0, 0, 1, 0, 2024, 1), 21);
  }

  /** New Year 2030 (even, not a multiple of 4) (level 20). */
  lemma EvenYear()
    ensures SecondLevel(CalendarDate(0, 0, 0, 1, 11, 2029, 0), CalendarDate(0, 0, 0, 2, 0, 2030, 1)) == Some(20)
  {
    SecondLevelIsHighestFiring(CalendarDate(0, 0, 0, 1, 11, 2029, 0), CalendarDate(0, 0, 0, 2, 0, 2030, 1), 20);
  }

  /** New Year 2027 (odd) reaches only the plain year level (level 19). */
  lemma OddYear()
    ensures SecondLevel(CalendarDate(0, 0, 0, 4, 11, 2026, 0), CalendarDate(0, 0, 0, 5, 0, 2027, 1)) == Some(19)
  {
    SecondLevelIsHighestFiring(CalendarDate(0, 0, 0, 4, 11, 2026, 0), CalendarDate(0, 0, 0, 5, 0, 2027, 1), 19);
  }

  /** A single record at 2026-01-01T00:00 gets level 15 with offset 0, whatever its calendar position. */
  lemma SingleRecordAtNewYear()
    ensures CreateIndex([CalendarDate(0, 0, 0, 4, 0, 2026, 0)], (d: CalendarDate) => d, 0, DefaultFormatters())[0].level
      == Some(15)
  {
    FirstEntryLevel([CalendarDate(0, 0, 0, 4, 0, 2026, 0)], (d: CalendarDate) => d, 0, DefaultFormatters());
  }
}
