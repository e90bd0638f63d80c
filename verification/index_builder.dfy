/**
 * The index builder: classifies each record with the level ladder and emits
 * the dense index array, one `DiscontinuousIndex` per input record.
 */
module IndexBuilder {
  import opened Wrappers
  import opened Boundaries
  import opened Levels

  /** The classification of one record: its level and the specifier of its key. */
  datatype LevelEntry = LevelEntry(level: int, format: string)

  /**
   * One entry of the index array. `level` is None when no rung fired (the
   * source then leaves the field undefined); `date` is the epoch
   * milliseconds of the stored `Date`; `format` is the d3-time-format
   * specifier the entry's formatter was built from.
   */
  datatype DiscontinuousIndex = DiscontinuousIndex(index: int, level: Option<int>, date: int, format: string)

  /** The rung at `position` names a key whose specifier is non-empty (truthy). */
  predicate Fires(position: nat, row: RowLevel, date: CalendarDate, i: int, f: Formatters)
    requires position < LadderLength
  {
    Rung(position, row, date, i).Some? && f.Get(Rung(position, row, date, i).value) != ""
  }

  /** The rung of `level` fires. */
  predicate FiresAtLevel(level: int, row: RowLevel, date: CalendarDate, i: int, f: Formatters)
    requires 0 <= level <= MaxLevel
  {
    Fires(MaxLevel - level, row, date, i, f)
  }

  /** The scan from rung `from` onwards: the first rung that fires, as a level and specifier. */
  function FirstFiring(from: nat, row: RowLevel, date: CalendarDate, i: int, f: Formatters): (r: Option<LevelEntry>)
    requires from <= LadderLength
    decreases LadderLength - from
    ensures r.None? <==> forall p :: from <= p < LadderLength ==> !Fires(p, row, date, i, f)
    ensures r.Some? ==>
      && 0 <= r.value.level <= MaxLevel
      && from <= MaxLevel - r.value.level
      && Fires(MaxLevel - r.value.level, row, date, i, f)
      && r.value.format == f.Get(Rung(MaxLevel - r.value.level, row, date, i).value)
      && forall p :: from <= p < MaxLevel - r.value.level ==> !Fires(p, row, date, i, f)
  {
    if from == LadderLength then None
    else if Fires(from, row, date, i, f) then
      Some(LevelEntry(LevelAt(from), f.Get(Rung(from, row, date, i).value)))
    else FirstFiring(from + 1, row, date, i, f)
  }

  /**
   * The classification of a record: the highest level whose rung fires,
   * with that rung's specifier, or None when no rung fires.
   */
  function EvaluateLevel(row: RowLevel, date: CalendarDate, i: int, f: Formatters): (r: Option<LevelEntry>)
    ensures r.None? <==> forall l :: 0 <= l <= MaxLevel ==> !FiresAtLevel(l, row, date, i, f)
    ensures r.Some? ==>
      && 0 <= r.value.level <= MaxLevel
      && FiresAtLevel(r.value.level, row, date, i, f)
      && r.value.format == f.Get(KeyOfLevel(r.value.level))
      && forall l :: r.value.level < l <= MaxLevel ==> !FiresAtLevel(l, row, date, i, f)
  {
    var r := FirstFiring(0, row, date, i, f);
    if r.None? then
      assert forall l :: 0 <= l <= MaxLevel ==> !FiresAtLevel(l, row, date, i, f) by {
        forall l | 0 <= l <= MaxLevel
          ensures !FiresAtLevel(l, row, date, i, f)
        {
          assert !Fires(MaxLevel - l, row, date, i, f);
        }
      }
      r
    else
      RungKeyFollowsTable(MaxLevel - r.value.level, row, date, i);
      assert FiresAtLevel(r.value.level, row, date, i, f);
      assert forall l :: r.value.level < l <= MaxLevel ==> !FiresAtLevel(l, row, date, i, f) by {
        forall l | r.value.level < l <= MaxLevel
          ensures !FiresAtLevel(l, row, date, i, f)
        {
          assert !Fires(MaxLevel - l, row, date, i, f);
        }
      }
      r
  }

  /**
   * A level is the classification when its rung fires and no higher one
   * does; the specifier is the table's entry for the level's key.
   */
  lemma ClassifiedAt(level: int, row: RowLevel, date: CalendarDate, i: int, f: Formatters)
    requires 0 <= level <= MaxLevel
    requires FiresAtLevel(level, row, date, i, f)
    requires forall l :: level < l <= MaxLevel ==> !FiresAtLevel(l, row, date, i, f)
    ensures EvaluateLevel(row, date, i, f) == Some(LevelEntry(level, f.Get(KeyOfLevel(level))))
  {
    var r := EvaluateLevel(row, date, i, f);
    assert r.Some?;
  }

  /** With a non-empty millisecond specifier every record is classified, at a level in 0..22. */
  lemma AlwaysClassified(row: RowLevel, date: CalendarDate, i: int, f: Formatters)
    requires f.milliSecondFormat != ""
    ensures EvaluateLevel(row, date, i, f).Some?
  {
    assert FiresAtLevel(0, row, date, i, f);
  }

  /**
   * The first record is a day boundary and nothing coarser: level 15 when
   * its parity argument is even, 14 otherwise.
   */
  lemma FirstRowLevel(d: CalendarDate, i: int, f: Formatters)
    requires f.dayFormat != ""
    ensures EvaluateLevel(FirstRow(d), d, i, f)
      == Some(LevelEntry(if i % 2 == 0 then 15 else 14, f.dayFormat))
  {
    var row := FirstRow(d);
    var level := if i % 2 == 0 then 15 else 14;
    assert FiresAtLevel(level, row, d, i, f);
    forall l | level < l <= MaxLevel
      ensures !FiresAtLevel(l, row, d, i, f)
    {
    }
    ClassifiedAt(level, row, d, i, f);
  }

  /** The sliding window's output for one record: its flags, stored index and classification. */
  datatype IndexedRow = IndexedRow(row: RowLevel, index: int, level: Option<LevelEntry>)

  /**
   * The entry of the first record (the window's undefined value): sentinel
   * flags, with `initialIndex` both stored and used as the parity argument.
   */
  function FirstEntry(d: CalendarDate, initialIndex: int, f: Formatters): (r: IndexedRow)
    ensures r.index == initialIndex && r.row.date == d.time
    ensures r.row.startOfDay && FlagCount(r.row) == 1
    ensures f.dayFormat != "" ==> r.level == Some(LevelEntry(if initialIndex % 2 == 0 then 15 else 14, f.dayFormat))
  {
    var i := initialIndex;
    var row := FirstRow(d);
    assert f.dayFormat != "" ==> EvaluateLevel(row, d, i, f) == Some(LevelEntry(if i % 2 == 0 then 15 else 14, f.dayFormat)) by {
      if f.dayFormat != "" {
        FirstRowLevel(d, i, f);
      }
    }
    IndexedRow(row, i, EvaluateLevel(row, d, i, f))
  }

  /**
   * The entry of the record at position `i` >= 1 (the window's accumulator):
   * flags from the pair, parity from the position, stored index
   * `i + initialIndex`.
   */
  function NextEntry(prev: CalendarDate, now: CalendarDate, i: int, initialIndex: int, f: Formatters): (r: IndexedRow)
    ensures r.index == i + initialIndex && r.row.date == now.time
    ensures r.level.None? <==> forall l :: 0 <= l <= MaxLevel ==> !FiresAtLevel(l, PairRow(prev, now), now, i, f)
    ensures r.level.Some? ==>
      && 0 <= r.level.value.level <= MaxLevel
      && FiresAtLevel(r.level.value.level, PairRow(prev, now), now, i, f)
      && forall l :: r.level.value.level < l <= MaxLevel ==> !FiresAtLevel(l, PairRow(prev, now), now, i, f)
  {
    var row := PairRow(prev, now);
    IndexedRow(row, i + initialIndex, EvaluateLevel(row, now, i, f))
  }

  /** The window output at position `k`: the undefined value for the first record, the accumulator after it. */
  function EntryAt(dates: seq<CalendarDate>, k: nat, initialIndex: int, f: Formatters): (r: IndexedRow)
    requires k < |dates|
    ensures r.index == initialIndex + k && r.row.date == dates[k].time
    ensures WellNested(r.row)
  {
    if k == 0 then FirstEntry(dates[0], initialIndex, f)
    else NextEntry(dates[k - 1], dates[k], k, initialIndex, f)
  }

  /** The size-2 sliding window over the records' dates. */
  function Calculate(dates: seq<CalendarDate>, initialIndex: int, f: Formatters): (r: seq<IndexedRow>)
    ensures |r| == |dates|
    ensures forall k :: 0 <= k < |r| ==> r[k] == EntryAt(dates, k, initialIndex, f)
  {
    seq(|dates|, k requires 0 <= k < |dates| => EntryAt(dates, k, initialIndex, f))
  }

  /**
   * The index entry built from one window output: the date is rebuilt from
   * the row's epoch milliseconds; an unclassified record keeps no level and
   * its formatter is built from the undefined specifier, which d3 coerces
   * to the text "undefined".
   */
  function ToIndex(e: IndexedRow): (r: DiscontinuousIndex)
    ensures r.index == e.index && r.date == e.row.date
    ensures r.level.Some? <==> e.level.Some?
    ensures e.level.Some? ==> r.level.value == e.level.value.level && r.format == e.level.value.format
    ensures e.level.None? ==> r.format == "undefined"
  {
    match e.level
    case Some(entry) => DiscontinuousIndex(e.index, Some(entry.level), e.row.date, entry.format)
    case None => DiscontinuousIndex(e.index, None, e.row.date, "undefined")
  }

  /** The level an index entry carries, a number in 0..22 when classified. */
  predicate ClassifiedLevel(e: DiscontinuousIndex) {
    e.level.Some? && 0 <= e.level.value <= MaxLevel
  }

  /** The records' dates, read through the accessor. */
  function DatesOf<T>(data: seq<T>, dateOf: T -> CalendarDate): (r: seq<CalendarDate>)
    ensures |r| == |data| && forall k :: 0 <= k < |data| ==> r[k] == dateOf(data[k])
  {
    seq(|data|, k requires 0 <= k < |data| => dateOf(data[k]))
  }

  /**
   * The index of a record sequence read through `dateOf`: one entry per
   * record, stored index `initialIndex + k`, stored date the record's
   * timestamp, level (when present) a ladder level.
   */
  function CreateIndex<T>(data: seq<T>, dateOf: T -> CalendarDate, initialIndex: int, f: Formatters)
    : (r: seq<DiscontinuousIndex>)
    ensures |r| == |data|
    ensures forall k :: 0 <= k < |r| ==> r[k].index == initialIndex + k
    ensures forall k :: 0 <= k < |r| ==> r[k].date == dateOf(data[k]).time
    ensures forall k :: 0 <= k < |r| ==> r[k].level.None? || ClassifiedLevel(r[k])
  {
    var rows := Calculate(DatesOf(data, dateOf), initialIndex, f);
    seq(|rows|, k requires 0 <= k < |rows| => ToIndex(rows[k]))
  }

  /**
   * Entry `k` of the index is the converted window output for record `k`:
   * the sentinel entry for the first record, the pairwise entry at parity
   * `k` for every later one.
   */
  lemma CreateIndexEntry<T>(data: seq<T>, dateOf: T -> CalendarDate, initialIndex: int, f: Formatters, k: int)
    requires 0 <= k < |data|
    ensures k == 0 ==>
      CreateIndex(data, dateOf, initialIndex, f)[k] == ToIndex(FirstEntry(dateOf(data[0]), initialIndex, f))
    ensures k > 0 ==>
      CreateIndex(data, dateOf, initialIndex, f)[k]
      == ToIndex(NextEntry(dateOf(data[k - 1]), dateOf(data[k]), k, initialIndex, f))
  {
    var dates := DatesOf(data, dateOf);
    var rows := Calculate(dates, initialIndex, f);
    assert CreateIndex(data, dateOf, initialIndex, f)[k] == ToIndex(rows[k]);
    assert rows[k] == EntryAt(dates, k, initialIndex, f);
  }

  /** Consecutive stored indices differ by exactly one. */
  lemma {:induction false} IndexIsDense<T>(data: seq<T>, dateOf: T -> CalendarDate, initialIndex: int, f: Formatters, k: int)
    requires 0 < k < |data|
    ensures CreateIndex(data, dateOf, initialIndex, f)[k].index
      == CreateIndex(data, dateOf, initialIndex, f)[k - 1].index + 1
  {
  }

  /** With a non-empty millisecond specifier every entry carries a level in 0..22. */
  lemma AllClassified<T>(data: seq<T>, dateOf: T -> CalendarDate, initialIndex: int, f: Formatters, k: int)
    requires f.milliSecondFormat != ""
    requires 0 <= k < |data|
    ensures ClassifiedLevel(CreateIndex(data, dateOf, initialIndex, f)[k])
  {
    var dates := DatesOf(data, dateOf);
    CreateIndexEntry(data, dateOf, initialIndex, f, k);
    if k == 0 {
      AlwaysClassified(FirstRow(dates[0]), dates[0], initialIndex, f);
    } else {
      AlwaysClassified(PairRow(dates[k - 1], dates[k]), dates[k], k, f);
    }
  }

  /**
   * The first entry's level is 15 when `initialIndex` is even and 14 when
   * it is odd, whatever the first record's calendar position.
   */
  lemma FirstEntryLevel<T>(data: seq<T>, dateOf: T -> CalendarDate, initialIndex: int, f: Formatters)
    requires f.dayFormat != ""
    requires |data| > 0
    ensures CreateIndex(data, dateOf, initialIndex, f)[0].level
      == Some(if initialIndex % 2 == 0 then 15 else 14)
  {
    FirstRowLevel(dateOf(data[0]), initialIndex, f);
  }

  /**
   * Changing `initialIndex` from 0 to `n` shifts every stored index by `n`
   * and keeps every date; the levels of all records but the first are
   * unchanged, because their parity argument is the position, while the
   * first record's level changes exactly when `n` is odd.
   */
  lemma OffsetShift<T>(data: seq<T>, dateOf: T -> CalendarDate, n: int, f: Formatters)
    requires f.dayFormat != ""
    ensures var a, b := CreateIndex(data, dateOf, 0, f), CreateIndex(data, dateOf, n, f);
      && |a| == |b|
      && (forall k :: 0 <= k < |a| ==> b[k].index == a[k].index + n && b[k].date == a[k].date)
      && (forall k :: 0 < k < |a| ==> b[k].level == a[k].level && b[k].format == a[k].format)
      && (|a| > 0 ==> (b[0].level == a[0].level <==> n % 2 == 0))
  {
    if |data| > 0 {
      FirstEntryLevel(data, dateOf, 0, f);
      FirstEntryLevel(data, dateOf, n, f);
    }
  }
}
