/**
 * Worked examples of the finance scale: lookups, the affine mapping and
 * tick generation on small hand-built index arrays. Dates are
 * milliseconds; formats are specifiers, rendered by a formatter that
 * returns the specifier itself.
 */
module TickScenarios {
  import opened Wrappers
  import opened IndexBuilder
  import opened FinanceScale
  import opened Ticks
  import opened Sorting
  import opened Thinning

  /** An entry at index value `i` with level `level`. */
  function Entry(i: int, level: int, date: int, format: string): DiscontinuousIndex {
    DiscontinuousIndex(i, Some(level), date, format)
  }

  /** Three trading days: a year boundary followed by two plain days. */
  const ThreeDays: seq<DiscontinuousIndex> :=
    [Entry(0, 2, 1767225600000, "2026"), Entry(1, 0, 1767312000000, "Jan 2"), Entry(2, 0, 1767571200000, "Jan 5")]

  /** A formatter that ignores the date. */
  function Literal(format: string, date: int): string {
    format
  }

  /** Labels and dates come from the entry found at the index value. */
  lemma ThreeDayLookups()
    ensures TickFormat(Scale(ThreeDays, DefaultLinear), Literal, 0.0) == Ok("2026")
    ensures TickFormat(Scale(ThreeDays, DefaultLinear), Literal, 1.0) == Ok("Jan 2")
    ensures Value(Scale(ThreeDays, DefaultLinear), 2.0) == Ok(Some(1767571200000))
    ensures Value(Scale(ThreeDays, DefaultLinear), 3.0) == Ok(None)
  {
  }

  /** Domain [0, 2] onto range [0, 100]: 1 maps to 50 and 50 inverts to 1. */
  lemma MidpointMapping()
    ensures Apply(Scale(ThreeDays, Linear((0.0, 2.0), (0.0, 100.0), false)), 1.0) == 50.0
    ensures Invert(Scale(ThreeDays, Linear((0.0, 2.0), (0.0, 100.0), false)), 50.0) == 1.0
  {
    Round4Exact(10000);
  }

  /**
   * A positive head shifts the lookup: with index values starting at 5,
   * value(5) reads position 10, past the end, instead of the entry whose
   * index value is 5.
   */
  lemma PositiveHeadMisaligns()
    ensures Value(Scale([Entry(5, 0, 100, "a"), Entry(6, 0, 200, "b")], DefaultLinear), 5.0) == Ok(None)
    ensures Value(Scale([Entry(5, 0, 100, "a"), Entry(6, 0, 200, "b")], DefaultLinear), -3.5) == Ok(Some(200))
  {
  }

  /** An empty array has no ticks, but looking a value up in it throws. */
  lemma EmptyIndex()
    ensures TicksOf(Scale([], DefaultLinear), [0.0, 0.5, 1.0]) == Ok([])
    ensures Value(Scale([], DefaultLinear), 0.0) == Err(TypeError)
    ensures Create(None, DefaultLinear) == Err(MissingIndex)
  {
  }

  /** The scale of the sparse-window example: domain [0, 1] onto [0, 100]. */
  const Sparse: Scale := Scale(ThreeDays, Linear((0.0, 1.0), (0.0, 100.0), false))

  /** Domain [0, 1], three backing ticks: threshold 4.5, every level is taken. */
  lemma SparseCandidates()
    ensures WindowOf(Sparse) == Window(0, 1)
    ensures Candidates(Sparse, [0.0, 0.5, 1.0]) == [0, 1]
  {
    var w := Window(0, 1);
    assert WindowOf(Sparse) == w;
    assert Threshold(w, (0.0, 1.0), 3) == Finite(4.5);
    StackEmptyAbove(ThreeDays, w, 3);
    assert Bucket(ThreeDays, 0, 1, 2) == [0];
    assert Bucket(ThreeDays, 0, 1, 1) == [];
    assert Bucket(ThreeDays, 0, 1, 0) == [1];
    assert Stack(ThreeDays, w, 0) == [0, 1];
    CutIsLowestFittingLevel(ThreeDays, w, Finite(4.5), 0);
  }

  /** Both visible days are returned, without thinning: the window spans one step for two candidates. */
  lemma SparseWindowKeepsAll()
    ensures TicksOf(Sparse, [0.0, 0.5, 1.0]) == Ok([0, 1])
  {
    SparseCandidates();
    assert SortAscending([0, 1]) == [0, 1];
    TicksSteps(Sparse, [0.0, 0.5, 1.0]);
  }

  /** The scale of the empty-backing-ticks example: domain [-1, 1]. */
  const Unticked: Scale := Scale(ThreeDays, Linear((-1.0, 1.0), (0.0, 100.0), false))

  /** No backing ticks: the threshold is 0, so not even the year is taken. */
  lemma UntickedCandidates()
    ensures WindowOf(Unticked) == Window(0, 1)
    ensures Candidates(Unticked, []) == []
  {
    var w := Window(0, 1);
    assert WindowOf(Unticked) == w;
    assert Threshold(w, (-1.0, 1.0), 0) == Finite(0.0);
    StackEmptyAbove(ThreeDays, w, 3);
    assert Bucket(ThreeDays, 0, 1, 2) == [0];
    assert Stack(ThreeDays, w, 2) == [0];
    CutIsLowestFittingLevel(ThreeDays, w, Finite(0.0), 3);
  }

  /** With no backing ticks the result is empty. */
  lemma NoBackingTicks()
    ensures TicksOf(Unticked, []) == Ok([])
  {
    UntickedCandidates();
    TicksSteps(Unticked, []);
    assert Thin(ThreeDays, 0, [], 2) == Ok([]);
  }

  /** Years at 0, 2 and 4 between days, domain [-0.5, 6]. */
  const Alternating: Scale :=
    Scale([Entry(0, 2, 0, "Y"), Entry(1, 0, 0, "D"), Entry(2, 2, 0, "Y"), Entry(3, 0, 0, "D"), Entry(4, 2, 0, "Y")],
          Linear((-0.5, 6.0), (0.0, 1.0), false))

  /** Threshold 3: the three years fit, adding the two days would not. */
  lemma AlternatingCandidates()
    ensures WindowOf(Alternating) == Window(0, 4)
    ensures Candidates(Alternating, [0.0, 2.5, 5.0]) == [0, 2, 4]
  {
    var w := Window(0, 4);
    var index := Alternating.index;
    assert WindowOf(Alternating) == w;
    assert Threshold(w, (-0.5, 6.0), 3) == Finite(3.0);
    StackEmptyAbove(index, w, 3);
    assert Bucket(index, 0, 4, 2) == [0, 2, 4];
    assert Bucket(index, 0, 4, 1) == [];
    assert Bucket(index, 0, 4, 0) == [1, 3];
    assert Stack(index, w, 1) == [0, 2, 4];
    assert |Stack(index, w, 0)| == 5;
    CutIsLowestFittingLevel(index, w, Finite(3.0), 1);
  }

  /**
   * The years are kept: the window spans four steps for three candidates,
   * so conflict resolution runs with minimum distance 1, and no two years
   * are that close.
   */
  lemma AlternatingLevels()
    ensures TicksOf(Alternating, [0.0, 2.5, 5.0]) == Ok([0, 2, 4])
  {
    var bt := [0.0, 2.5, 5.0];
    AlternatingCandidates();
    SortYears();
    TicksSteps(Alternating, bt);
    AlternatingThinning();
    assert Abs(Alternating.index[0].index) == 0;
    assert TicksOf(Alternating, bt) == Thin(Alternating.index, 0, [0, 2, 4], Distance(bt));
  }

  /** The three years are already in order. */
  lemma SortYears()
    ensures SortAscending([0, 2, 4]) == [0, 2, 4]
  {
    SortIsTheSortedArrangement([0, 2, 4], [0, 2, 4]);
  }

  /** Backing ticks 0, 2.5, 5 give minimum distance 1, and no two years are that close. */
  lemma AlternatingThinning()
    ensures Distance([0.0, 2.5, 5.0]) == 1
    ensures Thin(Alternating.index, 0, [0, 2, 4], 1) == Ok([0, 2, 4])
  {
    QuarterSpacingDistance();
    NothingCloseKeepsAll(Alternating.index, 0, [0, 2, 4], 1);
    YearsSurvive();
  }

  /** Nothing to de-duplicate and nothing deleted. */
  lemma YearsSurvive()
    ensures Survivors(Dedup([0, 2, 4]), {}) == [0, 2, 4]
  {
    YearsDistinct();
    NoneDeleted();
  }

  /** The three years are distinct. */
  lemma YearsDistinct()
    ensures Dedup([0, 2, 4]) == [0, 2, 4]
  {
    DedupOfNoDup([0, 2, 4]);
  }

  /** Filtering by the empty set keeps the years. */
  lemma NoneDeleted()
    ensures Survivors([0, 2, 4], {}) == [0, 2, 4]
  {
  }

  /** Three backing ticks over [0, 5]: a quarter of the spacing is 5/12, times 1.5 rounds up to 1. */
  lemma QuarterSpacingDistance()
    ensures Distance([0.0, 2.5, 5.0]) == 1
  {
    assert (5.0 - 0.0) / 3.0 / 4.0 * 1.5 == 0.625;
    assert Ceil(0.625) == 1;
  }

  /** A day at 0 then a year at 1, domain [-0.1, 1.1]. */
  const DayYear: Scale := Scale([Entry(0, 0, 0, "D"), Entry(1, 2, 0, "Y")], Linear((-0.1, 1.1), (0.0, 0.1), false))

  /** Threshold 1.5: the year fits, adding the day would not. */
  lemma DayYearCandidates()
    ensures WindowOf(DayYear) == Window(0, 1)
    ensures Candidates(DayYear, [0.0]) == [1]
  {
    var w := Window(0, 1);
    var index := DayYear.index;
    assert WindowOf(DayYear) == w;
    assert Threshold(w, (-0.1, 1.1), 1) == Finite(1.5);
    StackEmptyAbove(index, w, 3);
    assert Bucket(index, 0, 1, 2) == [1];
    assert Bucket(index, 0, 1, 1) == [];
    assert Bucket(index, 0, 1, 0) == [0];
    assert Stack(index, w, 1) == [1];
    assert |Stack(index, w, 0)| == 2;
    CutIsLowestFittingLevel(index, w, Finite(1.5), 1);
  }

  /** Only the year is returned. */
  lemma DayThenYear()
    ensures TicksOf(DayYear, [0.0]) == Ok([1])
  {
    DayYearCandidates();
    assert SortAscending([1]) == [1];
    TicksSteps(DayYear, [0.0]);
  }

  /**
   * A month boundary at 0 right before a year at 1, then four days, domain
   * [0, 5] and backing ticks 0 and 5: the month at 0 and the year at 1 are
   * taken, they are within distance 1 of each other, and the earlier,
   * lower one is deleted.
   */
  const Collision: Scale :=
    Scale([Entry(0, 1, 0, "M"), Entry(1, 2, 0, "Y"), Entry(2, 0, 0, "D"), Entry(3, 0, 0, "D"),
           Entry(4, 0, 0, "D"), Entry(5, 0, 0, "D")],
          Linear((0.0, 5.0), (0.0, 1.0), false))

  /** Threshold 3: the year and the month fit, adding the four days would not. */
  lemma CollisionCandidates()
    ensures WindowOf(Collision) == Window(0, 5)
    ensures Candidates(Collision, [0.0, 5.0]) == [1, 0]
  {
    var w := Window(0, 5);
    var index := Collision.index;
    assert WindowOf(Collision) == w;
    assert Threshold(w, (0.0, 5.0), 2) == Finite(3.0);
    StackEmptyAbove(index, w, 3);
    assert Bucket(index, 0, 5, 2) == [1];
    assert Bucket(index, 0, 5, 1) == [0];
    assert |Bucket(index, 0, 5, 0)| == 4;
    assert Stack(index, w, 1) == [1, 0];
    assert |Stack(index, w, 0)| == 6;
    CutIsLowestFittingLevel(index, w, Finite(3.0), 1);
  }

  /** The only close pair is (0, 1), and its loser is the month at 0. */
  lemma CollisionThinning()
    ensures Distance([0.0, 5.0]) == 1
    ensures Thin(Collision.index, 0, [0, 1], 1) == Ok([1])
  {
    assert (5.0 - 0.0) / 2.0 / 4.0 * 1.5 == 0.9375;
    assert Ceil(0.9375) == 1;
    var t := [0, 1];
    assert Loser(Collision.index, 0, t, 0, 1) == 0;
    assert Deleted(Collision.index, 0, t, 1) == {0};
    assert Dedup(t) == t by {
      DedupOfNoDup(t);
    }
    assert Survivors(t, {0}) == [1];
  }

  /** The candidates in ascending order. */
  lemma SortTwo()
    ensures SortAscending([1, 0]) == [0, 1]
  {
    SortIsTheSortedArrangement([1, 0], [0, 1]);
  }

  /** Only the year is returned: the lower tick is deleted even though it comes first. */
  lemma EarlierLowerTickDeleted()
    ensures TicksOf(Collision, [0.0, 5.0]) == Ok([1])
  {
    CollisionCandidates();
    SortTwo();
    TicksSteps(Collision, [0.0, 5.0]);
    CollisionThinning();
  }
}
