/**
 * Boundary flags of one record relative to its predecessor: the `RowLevel`
 * record and the sliding pairwise derivation of its seventeen flags.
 *
 * A date is taken already decomposed into the local calendar components that
 * the derivation reads, so the flags are pure integer arithmetic.
 */
module Boundaries {

  /**
   * The calendar components of one JavaScript `Date` as read through its
   * getters: `getSeconds`, `getMinutes`, `getHours`, `getDay` (weekday,
   * Sunday = 0), `getMonth` (January = 0), `getFullYear` and `getTime`
   * (epoch milliseconds).
   */
  datatype CalendarDate = CalendarDate(
    seconds: nat,
    minutes: nat,
    hours: nat,
    day: nat,
    month: nat,
    fullYear: int,
    time: int)

  /** The boundary-flag record of one index entry, with its epoch milliseconds. */
  datatype RowLevel = RowLevel(
    date: int,
    startOfSecond: bool,
    startOf5Seconds: bool,
    startOf15Seconds: bool,
    startOf30Seconds: bool,
    startOfMinute: bool,
    startOf5Minutes: bool,
    startOf15Minutes: bool,
    startOf30Minutes: bool,
    startOfHour: bool,
    startOfEighthOfADay: bool,
    startOfQuarterDay: bool,
    startOfHalfDay: bool,
    startOfDay: bool,
    startOfWeek: bool,
    startOfMonth: bool,
    startOfQuarter: bool,
    startOfYear: bool)

  /**
   * The hierarchy every derived row respects: each multiple-of-a-unit flag
   * implies the flag of its unit, a quarter start is a month start and a
   * week start is a day start.
   */
  predicate WellNested(r: RowLevel) {
    && (r.startOf5Seconds ==> r.startOfSecond)
    && (r.startOf15Seconds ==> r.startOfSecond)
    && (r.startOf30Seconds ==> r.startOfSecond)
    && (r.startOf5Minutes ==> r.startOfMinute)
    && (r.startOf15Minutes ==> r.startOfMinute)
    && (r.startOf30Minutes ==> r.startOfMinute)
    && (r.startOfEighthOfADay ==> r.startOfHour)
    && (r.startOfQuarterDay ==> r.startOfHour)
    && (r.startOfHalfDay ==> r.startOfHour)
    && (r.startOfQuarter ==> r.startOfMonth)
    && (r.startOfWeek ==> r.startOfDay)
  }

  /** The number of flags a row sets. */
  function FlagCount(r: RowLevel): nat {
    (if r.startOfSecond then 1 else 0) + (if r.startOf5Seconds then 1 else 0)
    + (if r.startOf15Seconds then 1 else 0) + (if r.startOf30Seconds then 1 else 0)
    + (if r.startOfMinute then 1 else 0) + (if r.startOf5Minutes then 1 else 0)
    + (if r.startOf15Minutes then 1 else 0) + (if r.startOf30Minutes then 1 else 0)
    + (if r.startOfHour then 1 else 0) + (if r.startOfEighthOfADay then 1 else 0)
    + (if r.startOfQuarterDay then 1 else 0) + (if r.startOfHalfDay then 1 else 0)
    + (if r.startOfDay then 1 else 0) + (if r.startOfWeek then 1 else 0)
    + (if r.startOfMonth then 1 else 0) + (if r.startOfQuarter then 1 else 0)
    + (if r.startOfYear then 1 else 0)
  }

  /**
   * The sentinel row of the first record, which has no predecessor: only
   * `startOfDay` is set, whatever the record's calendar position.
   */
  function FirstRow(d: CalendarDate): (r: RowLevel)
    ensures r.date == d.time
    ensures r.startOfDay && FlagCount(r) == 1
    ensures WellNested(r)
  {
    RowLevel(
      date := d.time,
      startOfSecond := false,
      startOf5Seconds := false,
      startOf15Seconds := false,
      startOf30Seconds := false,
      startOfMinute := false,
      startOf5Minutes := false,
      startOf15Minutes := false,
      startOf30Minutes := false,
      startOfHour := false,
      startOfEighthOfADay := false,
      startOfQuarterDay := false,
      startOfHalfDay := false,
      startOfDay := true,
      startOfWeek := false,
      startOfMonth := false,
      startOfQuarter := false,
      startOfYear := false)
  }

  /**
   * The flags of `now` relative to its predecessor `prev`. Second and hour
   * multiples test `now % N == 0`; minute multiples and the quarter test the
   * wrap-around `now % N <= prev % N`; a day start compares weekdays, not
   * calendar dates; a week start is a weekday that decreased.
   */
  function PairRow(prev: CalendarDate, now: CalendarDate): (r: RowLevel)
    ensures r.date == now.time
    ensures WellNested(r)
    ensures r.startOfSecond <==> prev.seconds != now.seconds
    ensures r.startOfMinute <==> prev.minutes != now.minutes
    ensures r.startOfHour <==> prev.hours != now.hours
    ensures r.startOfDay <==> prev.day != now.day
    ensures r.startOfWeek <==> now.day < prev.day
    ensures r.startOfMonth <==> prev.month != now.month
    ensures r.startOfYear <==> prev.fullYear != now.fullYear
  {
    var startOfSecond := now.seconds != prev.seconds;
    var startOfMinute := now.minutes != prev.minutes;
    var startOfHour := now.hours != prev.hours;
    var startOfMonth := now.month != prev.month;
    RowLevel(
      date := now.time,
      startOfSecond := startOfSecond,
      startOf5Seconds := startOfSecond && now.seconds % 5 == 0,
      startOf15Seconds := startOfSecond && now.seconds % 15 == 0,
      startOf30Seconds := startOfSecond && now.seconds % 30 == 0,
      startOfMinute := startOfMinute,
      startOf5Minutes := startOfMinute && now.minutes % 5 <= prev.minutes % 5,
      startOf15Minutes := startOfMinute && now.minutes % 15 <= prev.minutes % 15,
      startOf30Minutes := startOfMinute && now.minutes % 30 <= prev.minutes % 30,
      startOfHour := startOfHour,
      startOfEighthOfADay := startOfHour && now.hours % 3 == 0,
      startOfQuarterDay := startOfHour && now.hours % 6 == 0,
      startOfHalfDay := startOfHour && now.hours % 12 == 0,
      startOfDay := now.day != prev.day,
      startOfWeek := now.day < prev.day,
      startOfMonth := startOfMonth,
      startOfQuarter := startOfMonth && now.month % 3 <= prev.month % 3,
      startOfYear := now.fullYear != prev.fullYear)
  }

  /** Two records with identical calendar components set no flag at all. */
  lemma SameInstantSetsNoFlag(d: CalendarDate)
    ensures FlagCount(PairRow(d, d)) == 0
  {
  }

  /** Step `t` forward from `prev` lands on a multiple of `n`. */
  predicate LandsOnMultiple(prev: int, t: int, n: int)
    requires n > 0
  {
    (prev + t) % n == 0
  }

  /**
   * A boundary of the `n`-cycle is crossed when stepping forward `delta`
   * units from `prev`: some step `t` in 1..delta lands on a multiple of `n`.
   */
  predicate Crosses(prev: int, delta: int, n: int)
    requires n > 0
  {
    exists t :: 1 <= t <= delta && LandsOnMultiple(prev, t, n)
  }

  /** Euclidean division is unique: a decomposition x = a*n + r with 0 <= r < n is the one `/` and `%` give. */
  lemma DivModUnique(x: int, a: int, r: int, n: int)
    requires n > 0 && 0 <= r < n
    requires x == a * n + r
    ensures x / n == a && x % n == r
  {
    var q, s := x / n, x % n;
    assert x == q * n + s;
    assert (a - q) * n == s - r;
    if a - q >= 1 {
      assert (a - q) * n >= n by { MulAtLeast(a - q, n); }
      assert false;
    } else if a - q <= -1 {
      assert (q - a) * n >= n by { MulAtLeast(q - a, n); }
      assert false;
    }
  }

  /** A positive multiple of a positive number is at least that number. */
  lemma MulAtLeast(k: int, n: int)
    requires k >= 1 && n > 0
    ensures k * n >= n
  {
    assert k * n == (k - 1) * n + n;
  }

  /**
   * The wrap-around test `now % n <= prev % n` detects exactly the crossing
   * of a multiple of `n` when less than `n` units elapsed on a cycle of
   * `m` units that `n` divides (minutes: m = 60, months: m = 12).
   */
  lemma {:induction false} WrapTestDetectsCrossing(prev: int, now: int, delta: int, n: int, m: int)
    requires 0 < n && 0 < m && m % n == 0
    requires 0 <= prev < m
    requires 0 < delta < n
    requires now == (prev + delta) % m
    ensures now % n <= prev % n <==> Crosses(prev, delta, n)
  {
    var c := Wraps(prev, delta, n, m);
    WrapsBack(prev, now, delta, n, m);
    if prev % n + delta >= n {
      CrossingCase(prev, now, delta, n, c);
    } else {
      NoCrossingCase(prev, now, delta, n, c);
    }
  }

  /** The multiples of `n` taken off when `prev + delta` wraps around a cycle of `m`. */
  function Wraps(prev: int, delta: int, n: int, m: int): int
    requires 0 < n
  {
    if prev + delta >= m then m / n else 0
  }

  /** Reducing modulo the cycle takes off `Wraps` multiples of `n`. */
  lemma WrapsBack(prev: int, now: int, delta: int, n: int, m: int)
    requires 0 < n && 0 < m && m % n == 0
    requires 0 <= prev < m && 0 < delta < n <= m
    requires now == (prev + delta) % m
    ensures now == prev + delta - Wraps(prev, delta, n, m) * n
  {
    if prev + delta >= m {
      DivModUnique(prev + delta, 1, prev + delta - m, m);
      assert m == (m / n) * n;
    } else {
      DivModUnique(prev + delta, 0, prev + delta, m);
    }
  }

  /** A step past the next multiple of `n`: it is crossed and the remainder drops. */
  lemma CrossingCase(prev: int, now: int, delta: int, n: int, c: int)
    requires 0 < n && 0 <= prev && 0 < delta < n
    requires now == prev + delta - c * n
    requires prev % n + delta >= n
    ensures now % n < prev % n
    ensures Crosses(prev, delta, n)
  {
    var p, q := prev % n, prev / n;
    assert prev == q * n + p;
    var t := n - p;
    DivModUnique(prev + t, q + 1, 0, n);
    assert 1 <= t <= delta && LandsOnMultiple(prev, t, n);
    assert now == (q + 1 - c) * n + (p + delta - n);
    DivModUnique(now, q + 1 - c, p + delta - n, n);
  }

  /** A step short of the next multiple of `n`: nothing is crossed and the remainder grows. */
  lemma NoCrossingCase(prev: int, now: int, delta: int, n: int, c: int)
    requires 0 < n && 0 <= prev && 0 < delta < n
    requires now == prev + delta - c * n
    requires prev % n + delta < n
    ensures now % n > prev % n
    ensures !Crosses(prev, delta, n)
  {
    var p, q := prev % n, prev / n;
    assert prev == q * n + p;
    assert now == (q - c) * n + (p + delta);
    DivModUnique(now, q - c, p + delta, n);
    forall t | 1 <= t <= delta
      ensures !LandsOnMultiple(prev, t, n)
    {
      DivModUnique(prev + t, q, p + t, n);
    }
  }

  /**
   * The five-, fifteen- and thirty-minute flags mark a crossed multiple of
   * the unit when the step is shorter than five minutes.
   */
  lemma MinuteMultipleFlagsCrossing(prev: CalendarDate, now: CalendarDate, delta: int)
    requires prev.minutes < 60
    requires 0 < delta < 5
    requires now.minutes == (prev.minutes + delta) % 60
    ensures PairRow(prev, now).startOf5Minutes <==> Crosses(prev.minutes, delta, 5)
    ensures PairRow(prev, now).startOf15Minutes <==> Crosses(prev.minutes, delta, 15)
    ensures PairRow(prev, now).startOf30Minutes <==> Crosses(prev.minutes, delta, 30)
  {
    WrapTestDetectsCrossing(prev.minutes, now.minutes, delta, 5, 60);
    WrapTestDetectsCrossing(prev.minutes, now.minutes, delta, 15, 60);
    WrapTestDetectsCrossing(prev.minutes, now.minutes, delta, 30, 60);
  }

  /** A quarter start is a crossed multiple of three months when fewer than three months elapsed. */
  lemma QuarterFlagCrossing(prev: CalendarDate, now: CalendarDate, delta: int)
    requires prev.month < 12
    requires 0 < delta < 3
    requires now.month == (prev.month + delta) % 12
    ensures PairRow(prev, now).startOfQuarter <==> Crosses(prev.month, delta, 3)
  {
    WrapTestDetectsCrossing(prev.month, now.month, delta, 3, 12);
  }

  /**
   * Second multiples are flagged only when a record lands on them, minute
   * multiples when one is crossed within the step: from second 3 to second 7
   * the five-second mark is crossed but not flagged, while from minute 58 to
   * minute 2 the five-minute mark is flagged. A step of five minutes or more
   * can miss it: from minute 2 to minute 8 nothing is flagged.
   */
  lemma SecondsLandMinutesCross(a: CalendarDate, b: CalendarDate, c: CalendarDate)
    requires a.seconds == 3 && b.seconds == 7
    requires a.minutes == 58 && b.minutes == 2
    requires c.minutes == 8
    ensures Crosses(a.seconds, 4, 5) && !PairRow(a, b).startOf5Seconds
    ensures PairRow(a, b).startOf5Minutes
    ensures Crosses(b.minutes, 6, 5) && !PairRow(b, c).startOf5Minutes
  {
    assert LandsOnMultiple(a.seconds, 2, 5);
    assert LandsOnMultiple(b.minutes, 3, 5);
  }
}
