/**
 * The level ladder: twenty-three predicates over a boundary-flag record,
 * scanned coarsest first, each naming a formatter key, and the formatter
 * table those keys select from.
 */
module Levels {
  import opened Wrappers
  import opened Boundaries

  /** The nine keys of a formatter table. */
  datatype FormatKey =
    | YearFormat
    | QuarterFormat
    | MonthFormat
    | WeekFormat
    | DayFormat
    | HourFormat
    | MinuteFormat
    | SecondFormat
    | MilliSecondFormat

  /** A formatter table: one d3-time-format specifier per key, treated as an opaque string. */
  datatype Formatters = Formatters(
    yearFormat: string,
    quarterFormat: string,
    monthFormat: string,
    weekFormat: string,
    dayFormat: string,
    hourFormat: string,
    minuteFormat: string,
    secondFormat: string,
    milliSecondFormat: string)
  {
    /** The specifier stored under `key`. */
    function Get(key: FormatKey): string {
      match key
      case YearFormat => yearFormat
      case QuarterFormat => quarterFormat
      case MonthFormat => monthFormat
      case WeekFormat => weekFormat
      case DayFormat => dayFormat
      case HourFormat => hourFormat
      case MinuteFormat => minuteFormat
      case SecondFormat => secondFormat
      case MilliSecondFormat => milliSecondFormat
    }
  }

  /**
   * The table used unless a caller supplies its own: every key has a
   * specifier, and the keys that share a display (quarter and month, week
   * and day, hour and minute) share it.
   */
  function DefaultFormatters(): (f: Formatters)
    ensures forall key :: f.Get(key) != ""
    ensures f.quarterFormat == f.monthFormat && f.weekFormat == f.dayFormat && f.hourFormat == f.minuteFormat
    ensures f.secondFormat != f.minuteFormat && f.milliSecondFormat != f.secondFormat
  {
    Formatters(
    yearFormat := "%Y",
    quarterFormat := "%b",
    monthFormat := "%b",
    weekFormat := "%e",
    dayFormat := "%e",
    hourFormat := "%H:%M",
    minuteFormat := "%H:%M",
    secondFormat := "%H:%M:%S",
    milliSecondFormat := ".%L")
  }

  /** The number of rungs of the ladder. */
  const LadderLength: nat := 23

  /** The coarsest level, that of the first rung. */
  const MaxLevel: nat := LadderLength - 1

  /** The level of the rung at `position` (position 0 is the coarsest). */
  function LevelAt(position: nat): int {
    LadderLength - position - 1
  }

  function When(condition: bool, key: FormatKey): Option<FormatKey> {
    if condition then Some(key) else None
  }

  /**
   * The rung at `position` applied to a flag row, the record's date and its
   * parity argument `i`: the key it names, or None where the source's
   * predicate yields `false`. Divisibility tests `x % n === 0` agree with
   * Dafny's `%` for negative `x` as well, since both are zero exactly on
   * multiples of `n`.
   */
  function Rung(position: nat, row: RowLevel, date: CalendarDate, i: int): (r: Option<FormatKey>)
    requires position < LadderLength
    ensures position == LadderLength - 1 ==> r == Some(MilliSecondFormat)
  {
    if position == 0 then When(row.startOfYear && date.fullYear % 12 == 0, YearFormat)
    else if position == 1 then When(row.startOfYear && date.fullYear % 4 == 0, YearFormat)
    else if position == 2 then When(row.startOfYear && date.fullYear % 2 == 0, YearFormat)
    else if position == 3 then When(row.startOfYear, YearFormat)
    else if position == 4 then When(row.startOfQuarter, QuarterFormat)
    else if position == 5 then When(row.startOfMonth, MonthFormat)
    else if position == 6 then When(row.startOfWeek, WeekFormat)
    else if position == 7 then When(row.startOfDay && i % 2 == 0, DayFormat)
    else if position == 8 then When(row.startOfDay, DayFormat)
    else if position == 9 then When(row.startOfHalfDay, HourFormat)
    else if position == 10 then When(row.startOfQuarterDay, HourFormat)
    else if position == 11 then When(row.startOfEighthOfADay, HourFormat)
    else if position == 12 then When(row.startOfHour && date.hours % 2 == 0, HourFormat)
    else if position == 13 then When(row.startOfHour, HourFormat)
    else if position == 14 then When(row.startOf30Minutes, MinuteFormat)
    else if position == 15 then When(row.startOf15Minutes, MinuteFormat)
    else if position == 16 then When(row.startOf5Minutes, MinuteFormat)
    else if position == 17 then When(row.startOfMinute, MinuteFormat)
    else if position == 18 then When(row.startOf30Seconds, SecondFormat)
    else if position == 19 then When(row.startOf15Seconds, SecondFormat)
    else if position == 20 then When(row.startOf5Seconds, SecondFormat)
    else if position == 21 then When(row.startOfSecond, SecondFormat)
    else Some(MilliSecondFormat)
  }

  /**
   * The formatter key a level is displayed with, as a table over level
   * ranges: 19-22 year, 18 quarter, 17 month, 16 week, 14-15 day, 9-13 hour,
   * 5-8 minute, 1-4 second, 0 millisecond.
   */
  function KeyOfLevel(level: int): FormatKey
    requires 0 <= level <= MaxLevel
  {
    if level >= 19 then YearFormat
    else if level == 18 then QuarterFormat
    else if level == 17 then MonthFormat
    else if level == 16 then WeekFormat
    else if level >= 14 then DayFormat
    else if level >= 9 then HourFormat
    else if level >= 5 then MinuteFormat
    else if level >= 1 then SecondFormat
    else MilliSecondFormat
  }

  /** Every rung that fires names the key the level table gives its level. */
  lemma RungKeyFollowsTable(position: nat, row: RowLevel, date: CalendarDate, i: int)
    requires position < LadderLength
    ensures 0 <= LevelAt(position) <= MaxLevel
    ensures Rung(position, row, date, i).Some? ==>
      Rung(position, row, date, i).value == KeyOfLevel(LevelAt(position))
  {
  }

  /** The last rung names the millisecond key unconditionally. */
  lemma LastRungAlwaysFires(row: RowLevel, date: CalendarDate, i: int)
    ensures LevelAt(LadderLength - 1) == 0
    ensures Rung(LadderLength - 1, row, date, i) == Some(MilliSecondFormat)
  {
  }

  /**
   * The year rungs are nested: a year boundary at a multiple of 12 also
   * satisfies the multiple-of-4 rung, which satisfies the even-year rung,
   * which satisfies the plain year rung.
   */
  lemma YearRungsNested(row: RowLevel, date: CalendarDate, i: int)
    ensures Rung(0, row, date, i).Some? ==> Rung(1, row, date, i).Some?
    ensures Rung(1, row, date, i).Some? ==> Rung(2, row, date, i).Some?
    ensures Rung(2, row, date, i).Some? ==> Rung(3, row, date, i).Some?
  {
    if date.fullYear % 12 == 0 {
      var q := date.fullYear / 12;
      DivModUnique(date.fullYear, 3 * q, 0, 4);
    }
    if date.fullYear % 4 == 0 {
      var q := date.fullYear / 4;
      DivModUnique(date.fullYear, 2 * q, 0, 2);
    }
  }

  /** Level 15 is a day boundary at an even parity argument; level 10 an hour boundary at an even hour. */
  lemma ParityRungs(row: RowLevel, date: CalendarDate, i: int)
    ensures LevelAt(7) == 15 && LevelAt(12) == 10
    ensures Rung(7, row, date, i).Some? <==> row.startOfDay && i % 2 == 0
    ensures Rung(12, row, date, i).Some? <==> row.startOfHour && date.hours % 2 == 0
  {
  }

  /** None of the default specifiers is empty, so no rung is skipped under the defaults. */
  lemma DefaultFormattersNonEmpty(key: FormatKey)
    ensures DefaultFormatters().Get(key) != ""
  {
  }
}
