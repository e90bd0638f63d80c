/**
 * Tick generation of the finance discontinuous scale: the visible window
 * of the index array, level buckets, greedy selection of whole levels from
 * the most significant down, ascending sort and conflict resolution.
 */
module Ticks {
  import opened Wrappers
  import opened Levels
  import opened IndexBuilder
  import opened FinanceScale
  import opened Sorting
  import opened Thinning

  function Min(a: int, b: int): int {
    if a <= b then a else b
  }

  function Max(a: int, b: int): int {
    if a >= b then a else b
  }

  /** The array positions `start..end` (both included) the algorithm reads. */
  datatype Window = Window(start: int, end: int)

  /**
   * The window: from the first whole index value in the domain (but not
   * before the head) to the last one (but not past the last entry), both
   * re-based by the head's absolute value.
   */
  function WindowOf(s: Scale): (w: Window)
    requires |s.index| > 0
    ensures w.start >= 0
    ensures Rebased(s.index) ==> w.end < |s.index|
    ensures Rebased(s.index) ==>
              forall p :: 0 <= p < |s.index| ==>
                (w.start <= p <= w.end <==>
                 s.backing.domain.0 <= s.index[p].index as real <= s.backing.domain.1)
  {
    var head := s.index[0].index;
    var last := s.index[|s.index| - 1].index;
    var w := Window(Max(Ceil(s.backing.domain.0), head) + Abs(head),
                    Min(s.backing.domain.1.Floor, last) + Abs(head));
    assert Rebased(s.index) ==> last == head + |s.index| - 1;
    w
  }

  /** Every position of a non-empty window can be read. */
  predicate Readable(index: seq<DiscontinuousIndex>, w: Window) {
    0 <= w.start && (w.start <= w.end ==> w.end < |index|)
  }

  /**
   * An IEEE-754 number as far as the selection threshold needs one: a
   * zero-width domain divides by zero.
   */
  datatype Bound = Finite(value: real) | PlusInfinity | MinusInfinity | NotANumber

  /** `count > bound` in JavaScript: never true against NaN or +Infinity. */
  predicate Exceeds(count: nat, b: Bound) {
    match b
    case Finite(v) => count as real > v
    case PlusInfinity => false
    case MinusInfinity => true
    case NotANumber => false
  }

  /**
   * `desiredTickCount * 1.5`, where the desired count is the share of the
   * domain the window covers times the number of backing ticks, rounded up.
   */
  function Threshold(w: Window, domain: (real, real), n: nat): (r: Bound)
    ensures domain.1 != domain.0 ==>
              var share := (w.end - w.start) as real / (domain.1 - domain.0) * n as real;
              r.Finite? && share * 1.5 <= r.value < (share + 1.0) * 1.5
    ensures domain.1 == domain.0 && n > 0 && w.end > w.start ==> r == PlusInfinity
    ensures domain.1 == domain.0 && (n == 0 || w.end == w.start) ==> r == NotANumber
    ensures domain.1 == domain.0 && n > 0 && w.end < w.start ==> r == MinusInfinity
  {
    var span := (w.end - w.start) as real;
    var width := domain.1 - domain.0;
    if width != 0.0 then Finite(Ceil(span / width * n as real) as real * 1.5)
    else if span == 0.0 || n == 0 then NotANumber
    else if span > 0.0 then PlusInfinity
    else MinusInfinity
  }

  /** The index values of the entries at positions `lo..hi` whose level is `level`, in order. */
  function Bucket(index: seq<DiscontinuousIndex>, lo: int, hi: int, level: int): (r: seq<int>)
    requires 0 <= lo && (lo <= hi ==> hi < |index|)
    ensures |r| <= if lo <= hi then hi - lo + 1 else 0
    ensures forall x :: x in r <==>
              exists p :: lo <= p <= hi && index[p].level == Some(level) && index[p].index == x
    decreases hi - lo + 1
  {
    if lo > hi then []
    else
      var rest := Bucket(index, lo + 1, hi, level);
      (if index[lo].level == Some(level) then [index[lo].index] else []) + rest
  }

  /** The buckets of levels `MaxLevel` down to `lo`, concatenated in that order. */
  function Stack(index: seq<DiscontinuousIndex>, w: Window, lo: nat): (r: seq<int>)
    requires Readable(index, w) && lo <= LadderLength
    ensures forall x :: x in r <==>
              exists p :: w.start <= p <= w.end && index[p].index == x && index[p].level.Some?
                          && lo <= index[p].level.value <= MaxLevel
    decreases LadderLength - lo
  {
    if lo == LadderLength then []
    else
      var r := Stack(index, w, lo + 1) + Bucket(index, w.start, w.end, lo);
      assert forall x :: x in r <==> x in Stack(index, w, lo + 1) || x in Bucket(index, w.start, w.end, lo);
      r
  }

  /**
   * The lowest level the greedy selection takes, scanning levels from `k`
   * down: every level it takes keeps the running count within the
   * threshold, and the first level it refuses would have exceeded it.
   */
  function Cut(index: seq<DiscontinuousIndex>, w: Window, threshold: Bound, k: int): (cut: nat)
    requires Readable(index, w) && -1 <= k <= MaxLevel
    ensures cut <= k + 1
    ensures forall l :: cut <= l <= k ==> !Exceeds(|Stack(index, w, l)|, threshold)
    ensures cut > 0 ==> Exceeds(|Stack(index, w, cut - 1)|, threshold)
    decreases k + 1
  {
    if k < 0 then 0
    else if Exceeds(|Bucket(index, w.start, w.end, k)| + |Stack(index, w, k + 1)|, threshold) then k + 1
    else Cut(index, w, threshold, k - 1)
  }

  /**
   * The selection loop: level by level from `k` down, append the whole
   * bucket unless that would exceed the threshold, and stop at the first
   * level that would.
   */
  function Collect(index: seq<DiscontinuousIndex>, w: Window, threshold: Bound, k: int, acc: seq<int>): (r: seq<int>)
    requires Readable(index, w) && -1 <= k <= MaxLevel
    requires acc == Stack(index, w, k + 1)
    ensures r == Stack(index, w, Cut(index, w, threshold, k))
    decreases k + 1
  {
    if k < 0 then acc
    else
      var bucket := Bucket(index, w.start, w.end, k);
      if Exceeds(|bucket| + |acc|, threshold) then acc
      else Collect(index, w, threshold, k - 1, acc + bucket)
  }

  /** The candidates the selection takes for a scale and its backing ticks. */
  function Candidates(s: Scale, backingTicks: seq<real>): seq<int>
    requires |s.index| > 0 && Readable(s.index, WindowOf(s))
  {
    var w := WindowOf(s);
    Collect(s.index, w, Threshold(w, s.backing.domain, |backingTicks|), MaxLevel, [])
  }

  /** The level the selection stops at. */
  function CutOf(s: Scale, backingTicks: seq<real>): nat
    requires |s.index| > 0 && Readable(s.index, WindowOf(s))
  {
    var w := WindowOf(s);
    Cut(s.index, w, Threshold(w, s.backing.domain, |backingTicks|), MaxLevel)
  }

  /**
   * `ticks(m)` for the backing scale's ticks `backingTicks`: no ticks for
   * an empty array; a window reaching past the array throws; otherwise the
   * sorted candidates, thinned when the window holds more positions than
   * there are candidates.
   */
  function TicksOf(s: Scale, backingTicks: seq<real>): (r: Result<seq<int>, Failure>)
    ensures |s.index| == 0 ==> r == Ok([])
    ensures r.Ok? ==> Sorted(r.value)
    ensures r.Ok? ==> forall x :: x in r.value ==>
              exists p :: 0 <= p < |s.index| && s.index[p].index == x && s.index[p].level.Some?
  {
    if |s.index| == 0 then Ok([])
    else
      var w := WindowOf(s);
      if !Readable(s.index, w) then Err(TypeError)
      else
        var candidates := Candidates(s, backingTicks);
        var ticks := SortAscending(candidates);
        assert forall x :: x in ticks <==> x in candidates by {
          forall x ensures x in ticks <==> x in candidates {
            assert x in ticks <==> x in multiset(ticks);
          }
        }
        if w.end - w.start > |ticks| then
          var r := Thin(s.index, Abs(s.index[0].index), ticks, Distance(backingTicks));
          assert r.Ok? ==> Sorted(r.value) by {
            if r.Ok? {
              assert Strict(r.value);
            }
          }
          r
        else Ok(ticks)
  }

  /**
   * The candidates are exactly the index values of the window's entries
   * whose level is at least the cut level.
   */
  lemma CandidatesAreUpperLevels(s: Scale, backingTicks: seq<real>, x: int)
    requires |s.index| > 0 && Readable(s.index, WindowOf(s))
    ensures x in Candidates(s, backingTicks) <==>
              exists p :: WindowOf(s).start <= p <= WindowOf(s).end && s.index[p].index == x
                          && s.index[p].level.Some? && CutOf(s, backingTicks) <= s.index[p].level.value <= MaxLevel
  {
  }

  /**
   * Without thinning, the ticks are the one sorted arrangement of the
   * candidates.
   */
  lemma UnthinnedTicksAreSortedCandidates(s: Scale, backingTicks: seq<real>, b: seq<int>)
    requires |s.index| > 0 && Readable(s.index, WindowOf(s))
    requires WindowOf(s).end - WindowOf(s).start <= |Candidates(s, backingTicks)|
    requires Sorted(b) && multiset(b) == multiset(Candidates(s, backingTicks))
    ensures TicksOf(s, backingTicks) == Ok(b)
  {
    SortIsTheSortedArrangement(Candidates(s, backingTicks), b);
  }

  /** On a re-based index a candidate is an in-bounds index value inside the domain. */
  lemma RebasedCandidate(s: Scale, backingTicks: seq<real>, x: int)
    requires Rebased(s.index) && |s.index| > 0 && Readable(s.index, WindowOf(s))
    requires x in Candidates(s, backingTicks)
    ensures InBounds(s.index, Abs(s.index[0].index), x)
    ensures s.backing.domain.0 <= x as real <= s.backing.domain.1
    ensures exists p :: 0 <= p < |s.index| && s.index[p].index == x && s.index[p].level.Some?
                        && CutOf(s, backingTicks) <= s.index[p].level.value
  {
    var w := WindowOf(s);
    CandidatesAreUpperLevels(s, backingTicks, x);
    var p :| w.start <= p <= w.end && s.index[p].index == x && s.index[p].level.Some?
             && CutOf(s, backingTicks) <= s.index[p].level.value <= MaxLevel;
    assert s.index[p].index == s.index[0].index + p;
  }

  /**
   * On a re-based index the algorithm never throws, and every tick is the
   * index value of an entry inside the domain whose level is at least the
   * cut level.
   */
  lemma {:induction false} TicksOnRebasedIndex(s: Scale, backingTicks: seq<real>)
    requires Rebased(s.index) && |s.index| > 0
    ensures Readable(s.index, WindowOf(s))
    ensures TicksOf(s, backingTicks).Ok?
    ensures forall x :: x in TicksOf(s, backingTicks).value ==>
              s.backing.domain.0 <= x as real <= s.backing.domain.1
              && exists p :: 0 <= p < |s.index| && s.index[p].index == x && s.index[p].level.Some?
                             && CutOf(s, backingTicks) <= s.index[p].level.value
  {
    var w := WindowOf(s);
    var d := Abs(s.index[0].index);
    var candidates := Candidates(s, backingTicks);
    var ticks := SortAscending(candidates);
    forall x | x in ticks
      ensures InBounds(s.index, d, x)
      ensures s.backing.domain.0 <= x as real <= s.backing.domain.1
      ensures exists p :: 0 <= p < |s.index| && s.index[p].index == x && s.index[p].level.Some?
                          && CutOf(s, backingTicks) <= s.index[p].level.value
    {
      assert x in multiset(ticks);
      RebasedCandidate(s, backingTicks, x);
    }
    var r := TicksOf(s, backingTicks);
    if w.end - w.start > |ticks| {
      var dist := Distance(backingTicks);
      forall i, j | 0 <= i < j < |ticks| ensures !Faulty(s.index, d, ticks, dist, i, j) {
        assert ticks[i] in ticks && ticks[j] in ticks;
      }
      assert r == Thin(s.index, d, ticks, dist);
    } else {
      assert r == Ok(ticks);
    }
  }

  /** When the conflict resolution runs, any two returned ticks are more than the minimum distance apart. */
  lemma ThinnedTicksAreSpread(s: Scale, backingTicks: seq<real>, p: int, q: int)
    requires |s.index| > 0 && Readable(s.index, WindowOf(s))
    requires WindowOf(s).end - WindowOf(s).start > |Candidates(s, backingTicks)|
    requires TicksOf(s, backingTicks).Ok?
    requires 0 <= p < q < |TicksOf(s, backingTicks).value|
    ensures TicksOf(s, backingTicks).value[q] - TicksOf(s, backingTicks).value[p] > Distance(backingTicks)
  {
    var ticks := SortAscending(Candidates(s, backingTicks));
    ThinnedTicksSpread(s.index, Abs(s.index[0].index), ticks, Distance(backingTicks), p, q);
  }

  /** Taking more levels never shrinks the stack. */
  lemma {:induction false} StackGrows(index: seq<DiscontinuousIndex>, w: Window, lo: nat, hi: nat)
    requires Readable(index, w) && lo <= hi <= LadderLength
    ensures |Stack(index, w, hi)| <= |Stack(index, w, lo)|
    decreases hi - lo
  {
    if lo < hi {
      StackGrows(index, w, lo + 1, hi);
    }
  }

  /** With no window entry at level `lo` or above, the stack from `lo` is empty. */
  lemma StackEmptyAbove(index: seq<DiscontinuousIndex>, w: Window, lo: nat)
    requires Readable(index, w) && lo <= LadderLength
    requires forall p :: w.start <= p <= w.end ==> index[p].level.None? || index[p].level.value < lo
    ensures Stack(index, w, lo) == []
  {
    if Stack(index, w, lo) != [] {
      assert Stack(index, w, lo)[0] in Stack(index, w, lo);
    }
  }

  /**
   * The cut level is the lowest level whose stack stays within the
   * threshold while the stack one level lower does not (or level 0).
   */
  lemma {:induction false} CutIsLowestFittingLevel(index: seq<DiscontinuousIndex>, w: Window, threshold: Bound, c: nat)
    requires Readable(index, w) && c <= LadderLength
    requires !Exceeds(|Stack(index, w, c)|, threshold)
    requires c > 0 ==> Exceeds(|Stack(index, w, c - 1)|, threshold)
    ensures Cut(index, w, threshold, MaxLevel) == c
  {
    var cut := Cut(index, w, threshold, MaxLevel);
    if cut > c {
      StackGrows(index, w, c, cut - 1);
    }
  }

  /** The steps of `TicksOf` on a readable window, one by one. */
  lemma TicksSteps(s: Scale, backingTicks: seq<real>)
    requires |s.index| > 0 && Readable(s.index, WindowOf(s))
    ensures var ticks := SortAscending(Candidates(s, backingTicks));
            TicksOf(s, backingTicks) ==
              if WindowOf(s).end - WindowOf(s).start > |Candidates(s, backingTicks)|
              then Thin(s.index, Abs(s.index[0].index), ticks, Distance(backingTicks))
              else Ok(ticks)
  {
  }
}
