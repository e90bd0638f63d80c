/**
 * The scale provider builder: a configuration of accessors and options
 * that turns a record sequence into index-tagged records, a finance scale
 * over the index and the accessors a chart reads them with.
 */
module ScaleProvider {
  import opened Wrappers
  import opened Boundaries
  import opened Levels
  import opened IndexBuilder
  import opened FinanceScale

  /**
   * The builder's settings, for records of type `T` tagged into records of
   * type `A`. `indexAccessor` reads a tagged record's entry (None when it
   * has none); `withIndex` is an index supplied by the caller.
   */
  datatype Provider<!T, !A> = Provider(
    initialIndex: int,
    inputDateAccessor: T -> CalendarDate,
    indexAccessor: A -> Option<DiscontinuousIndex>,
    indexMutator: (T, DiscontinuousIndex) -> A,
    withIndex: Option<seq<DiscontinuousIndex>>,
    formatters: Formatters)

  /** A record with its index entry attached as `idx`. */
  datatype Tagged<T> = Tagged(datum: T, idx: DiscontinuousIndex)

  /**
   * A fresh builder for records whose date is read by `dateOf`: index
   * from 0, entries attached as `idx`, no supplied index, default
   * formatters.
   */
  function Builder<T>(dateOf: T -> CalendarDate): (p: Provider<T, Tagged<T>>)
    ensures p.initialIndex == 0 && p.withIndex.None? && p.formatters == DefaultFormatters()
    ensures p.inputDateAccessor == dateOf
  {
    Provider(0, dateOf, (a: Tagged<T>) => Some(a.idx), (d: T, e: DiscontinuousIndex) => Tagged(d, e), None, DefaultFormatters())
  }

  /** The builder's accessor reads back the entry its mutator attached. */
  lemma BuilderReadsBack<T>(dateOf: T -> CalendarDate, d: T, e: DiscontinuousIndex)
    ensures Builder(dateOf).indexAccessor(Builder(dateOf).indexMutator(d, e)) == Some(e)
    ensures XAccessor(Builder(dateOf), Some(Builder(dateOf).indexMutator(d, e))) == Some(e.index)
  {
  }

  /** `initialIndex(n)`: nothing else changes. */
  function WithInitialIndex<T, A>(p: Provider<T, A>, n: int): (r: Provider<T, A>)
    ensures r.initialIndex == n && r.(initialIndex := p.initialIndex) == p
  {
    p.(initialIndex := n)
  }

  /** `inputDateAccessor(f)`: nothing else changes. */
  function WithInputDateAccessor<T, A>(p: Provider<T, A>, f: T -> CalendarDate): (r: Provider<T, A>)
    ensures r.inputDateAccessor == f && r.(inputDateAccessor := p.inputDateAccessor) == p
  {
    p.(inputDateAccessor := f)
  }

  /** `indexAccessor(f)`: nothing else changes. */
  function WithIndexAccessor<T, A>(p: Provider<T, A>, f: A -> Option<DiscontinuousIndex>): (r: Provider<T, A>)
    ensures r.indexAccessor == f && r.(indexAccessor := p.indexAccessor) == p
  {
    p.(indexAccessor := f)
  }

  /** `indexMutator(f)`: nothing else changes. */
  function WithIndexMutator<T, A>(p: Provider<T, A>, f: (T, DiscontinuousIndex) -> A): (r: Provider<T, A>)
    ensures r.indexMutator == f && r.(indexMutator := p.indexMutator) == p
  {
    p.(indexMutator := f)
  }

  /** `withIndex(a)`: later calls use `a` instead of building an index. */
  function WithIndex<T, A>(p: Provider<T, A>, a: seq<DiscontinuousIndex>): (r: Provider<T, A>)
    ensures r.withIndex == Some(a) && r.(withIndex := p.withIndex) == p
  {
    p.(withIndex := Some(a))
  }

  /**
   * `setLocale(locale, formatters)`: the formatters are replaced when
   * given and kept otherwise; the locale is global d3 state outside the
   * model.
   */
  function SetLocale<T, A>(p: Provider<T, A>, formatters: Option<Formatters>): (r: Provider<T, A>)
    ensures formatters.Some? ==> r.formatters == formatters.value
    ensures formatters.None? ==> r == p
    ensures r.(formatters := p.formatters) == p
  {
    if formatters.Some? then p.(formatters := formatters.value) else p
  }

  /** `indexCalculator()`: the index builder with the current settings. */
  function IndexCalculator<T(!new), A>(p: Provider<T, A>): (calculator: seq<T> -> seq<DiscontinuousIndex>)
    ensures forall data: seq<T> :: |calculator(data)| == |data|
    ensures forall data: seq<T>, k :: 0 <= k < |data| ==>
      calculator(data)[k].index == p.initialIndex + k && calculator(data)[k].date == p.inputDateAccessor(data[k]).time
  {
    (data: seq<T>) => CreateIndex(data, p.inputDateAccessor, p.initialIndex, p.formatters)
  }

  /** What a call of the provider returns. */
  datatype Provided<A> = Provided(data: seq<A>, xScale: Scale)

  function MinLength(a: nat, b: nat): nat {
    if a <= b then a else b
  }

  /**
   * A call of the provider on `data`: the supplied index, or else one
   * built from the records; the records paired with the entries at the
   * same position through the mutator, up to the shorter of the two; a
   * scale over the index with a fresh linear backing.
   */
  function Provide<T(!new), A>(p: Provider<T, A>, data: seq<T>): (r: Provided<A>)
    ensures p.withIndex.Some? ==> r.xScale.index == p.withIndex.value
    ensures p.withIndex.None? ==> r.xScale.index == IndexCalculator(p)(data) && |r.data| == |data|
    ensures r.xScale.backing == DefaultLinear
    ensures |r.data| == MinLength(|data|, |r.xScale.index|)
    ensures forall k :: 0 <= k < |r.data| ==> r.data[k] == p.indexMutator(data[k], r.xScale.index[k])
  {
    var index := if p.withIndex.Some? then p.withIndex.value else IndexCalculator(p)(data);
    var xScale := Create(Some(index), DefaultLinear).value;
    var merged := seq(MinLength(|data|, |index|), k requires 0 <= k < MinLength(|data|, |index|) => p.indexMutator(data[k], index[k]));
    Provided(merged, xScale)
  }

  /** `xAccessor`: the stored index of a tagged record's entry; nothing for a missing record. */
  function XAccessor<T, A>(p: Provider<T, A>, d: Option<A>): (r: Option<int>)
    ensures r.Some? <==> d.Some? && p.indexAccessor(d.value).Some?
    ensures r.Some? ==> r.value == p.indexAccessor(d.value).value.index
  {
    match d
    case None => None
    case Some(a) =>
      match p.indexAccessor(a)
      case None => None
      case Some(e) => Some(e.index)
  }

  /** `displayXAccessor`: the record's own date. */
  function DisplayXAccessor<T, A>(p: Provider<T, A>, d: T): (r: CalendarDate)
    ensures r.time == CreateIndex([d], p.inputDateAccessor, p.initialIndex, p.formatters)[0].date
  {
    p.inputDateAccessor(d)
  }

  /** The calculator numbers the records from `initialIndex`, one entry each, with their dates. */
  lemma CalculatorNumbersRecords<T(!new), A>(p: Provider<T, A>, data: seq<T>, k: int)
    requires 0 <= k < |data|
    ensures |IndexCalculator(p)(data)| == |data|
    ensures IndexCalculator(p)(data)[k].index == p.initialIndex + k
    ensures IndexCalculator(p)(data)[k].date == DisplayXAccessor(p, data[k]).time
  {
  }

  /** An index the provider builds from `initialIndex <= 0` is re-based. */
  lemma BuiltIndexIsRebased<T(!new), A>(p: Provider<T, A>, data: seq<T>)
    requires p.initialIndex <= 0
    ensures Rebased(IndexCalculator(p)(data))
  {
  }

  /** With the default builder, record `k` gets x value `initialIndex + k`. */
  lemma XValueOfRecord<T(!new)>(dateOf: T -> CalendarDate, n: int, data: seq<T>, k: int)
    requires 0 <= k < |data|
    ensures var p := WithInitialIndex(Builder(dateOf), n);
            var out := Provide(p, data);
            k < |out.data| && XAccessor(p, Some(out.data[k])) == Some(n + k)
  {
    var p := WithInitialIndex(Builder(dateOf), n);
    var out := Provide(p, data);
    CalculatorNumbersRecords(p, data, k);
    assert out.data[k] == Tagged(data[k], out.xScale.index[k]);
  }

  /**
   * When `initialIndex <= 0`, looking a record's x value up in the scale
   * gives back the record's date.
   */
  lemma {:induction false} XValueRoundTrip<T(!new)>(dateOf: T -> CalendarDate, n: int, data: seq<T>, k: int)
    requires n <= 0 && 0 <= k < |data|
    ensures var p := WithInitialIndex(Builder(dateOf), n);
            Value(Provide(p, data).xScale, (n + k) as real) == Ok(Some(DisplayXAccessor(p, data[k]).time))
  {
    var p := WithInitialIndex(Builder(dateOf), n);
    var scale := Provide(p, data).xScale;
    assert scale.index == IndexCalculator(p)(data);
    CalculatorNumbersRecords(p, data, k);
    BuiltIndexIsRebased(p, data);
    LookupFindsIndexValue(scale, (s: string, t: int) => s, (n + k) as real, k);
  }

  /**
   * With `initialIndex` 1 the lookup of record 0's x value reads position
   * 2: the first record's date is not found.
   */
  lemma PositiveInitialIndexMisses(d0: CalendarDate, d1: CalendarDate)
    ensures var p := WithInitialIndex(Builder((d: CalendarDate) => d), 1);
            var out := Provide(p, [d0, d1]);
            XAccessor(p, Some(out.data[0])) == Some(1)
            && Value(out.xScale, 1.0) == Ok(None)
  {
    var p := WithInitialIndex(Builder((d: CalendarDate) => d), 1);
    var out := Provide(p, [d0, d1]);
    assert out.xScale.index[0].index == 1;
    assert |out.xScale.index| == 2;
  }

  /** A supplied index is used as given; records past its end are dropped. */
  lemma SuppliedIndexTruncates<T(!new)>(dateOf: T -> CalendarDate, a: seq<DiscontinuousIndex>, data: seq<T>)
    requires |a| < |data|
    ensures var out := Provide(WithIndex(Builder(dateOf), a), data);
            out.xScale.index == a && |out.data| == |a|
            && forall k :: 0 <= k < |a| ==> out.data[k] == Tagged(data[k], a[k])
  {
  }
}
