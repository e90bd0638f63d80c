/**
 * Conflict resolution of the tick algorithm: of every two candidate ticks
 * closer than a minimum distance, the one at the lower (or equal, later)
 * level is deleted.
 */
module Thinning {
  import opened Wrappers
  import opened IndexBuilder
  import opened Sorting

  /** `Math.ceil` on exact reals. */
  function Ceil(x: real): (r: int)
    ensures x <= r as real < x + 1.0
  {
    -((-x).Floor)
  }

  /**
   * The minimum distance between kept ticks: one and a half times a quarter
   * of the backing ticks' average spacing, rounded up; with no backing
   * ticks the spacing term is 1, which rounds up to 2.
   */
  function Distance(backingTicks: seq<real>): (r: int)
    ensures |backingTicks| == 0 ==> r == 2
    ensures |backingTicks| > 0 ==>
              var spacing := (backingTicks[|backingTicks| - 1] - backingTicks[0]) / (|backingTicks| as real) / 4.0;
              spacing * 1.5 <= r as real < spacing * 1.5 + 1.0
  {
    var spacing := if |backingTicks| > 0
                   then (backingTicks[|backingTicks| - 1] - backingTicks[0]) / (|backingTicks| as real) / 4.0
                   else 1.0;
    Ceil(spacing * 1.5)
  }

  /** The tick value `x` re-based by `d` names an array position. */
  predicate InBounds(index: seq<DiscontinuousIndex>, d: int, x: int) {
    0 <= x + d < |index|
  }

  /**
   * JavaScript `a >= b` on possibly undefined levels: false as soon as
   * either side is undefined.
   */
  predicate LevelGe(a: Option<int>, b: Option<int>) {
    a.Some? && b.Some? && a.value >= b.value
  }

  /** The level stored for the tick value `x`. */
  function LevelOf(index: seq<DiscontinuousIndex>, d: int, x: int): Option<int>
    requires InBounds(index, d, x)
  {
    index[x + d].level
  }

  /** Positions `i < j` of the tick list whose values are at most `dist` apart. */
  predicate Close(t: seq<int>, dist: int, i: int, j: int) {
    0 <= i < j < |t| && t[j] - t[i] <= dist
  }

  /** Both ticks of the pair have an entry in the array. */
  predicate Readable(index: seq<DiscontinuousIndex>, d: int, t: seq<int>, i: int, j: int)
    requires 0 <= i < j < |t|
  {
    InBounds(index, d, t[i]) && InBounds(index, d, t[j])
  }

  /** A close pair whose levels cannot be read: the comparison throws. */
  predicate Faulty(index: seq<DiscontinuousIndex>, d: int, t: seq<int>, dist: int, i: int, j: int) {
    Close(t, dist, i, j) && !Readable(index, d, t, i, j)
  }

  /**
   * The value deleted for a close pair: the later tick when the earlier
   * one's level is at least as high, otherwise the earlier tick.
   */
  function Loser(index: seq<DiscontinuousIndex>, d: int, t: seq<int>, i: int, j: int): (r: int)
    requires 0 <= i < j < |t| && Readable(index, d, t, i, j)
    ensures r == t[i] || r == t[j]
    ensures r == t[j] <== LevelGe(LevelOf(index, d, t[i]), LevelOf(index, d, t[j]))
    ensures r == t[i] <== !LevelGe(LevelOf(index, d, t[i]), LevelOf(index, d, t[j]))
  {
    if LevelGe(LevelOf(index, d, t[i]), LevelOf(index, d, t[j])) then t[j] else t[i]
  }

  /** Pair `(i', j')` is visited before pair `(i, j)` by the nested loops. */
  predicate Before(i': int, j': int, i: int, j: int) {
    i' < i || (i' == i && j' < j)
  }

  /** The values deleted by the close, readable pairs visited before `(i, j)`. */
  function LosersBefore(index: seq<DiscontinuousIndex>, d: int, t: seq<int>, dist: int, i: int, j: int): set<int> {
    set i', j' | 0 <= i' < j' < |t| && Before(i', j', i, j) && Close(t, dist, i', j')
                 && Readable(index, d, t, i', j') :: Loser(index, d, t, i', j')
  }

  /** The values deleted by all close pairs. */
  function Deleted(index: seq<DiscontinuousIndex>, d: int, t: seq<int>, dist: int): set<int> {
    LosersBefore(index, d, t, dist, |t|, 0)
  }

  /**
   * The thinned tick list: the distinct values of `t` in order, without
   * the deleted ones; a close pair whose levels cannot be read throws.
   */
  function Thin(index: seq<DiscontinuousIndex>, d: int, t: seq<int>, dist: int): (r: Result<seq<int>, Failure>)
    ensures r.Err? <==> exists i, j :: Faulty(index, d, t, dist, i, j)
    ensures r.Ok? ==> forall x :: x in r.value <==> x in t && x !in Deleted(index, d, t, dist)
    ensures r.Ok? && Sorted(t) ==> Strict(r.value)
  {
    if exists i, j :: 0 <= i < j < |t| && Faulty(index, d, t, dist, i, j) then Err(TypeError)
    else Ok(Survivors(Dedup(t), Deleted(index, d, t, dist)))
  }

  /** Two visiting points with the same pairs before them have the same losers. */
  lemma LosersAgree(index: seq<DiscontinuousIndex>, d: int, t: seq<int>, dist: int, i1: int, j1: int, i2: int, j2: int)
    requires forall i', j' :: 0 <= i' < j' < |t| ==> (Before(i', j', i1, j1) <==> Before(i', j', i2, j2))
    ensures LosersBefore(index, d, t, dist, i1, j1) == LosersBefore(index, d, t, dist, i2, j2)
  {
  }

  /** Visiting one more pair adds at most its loser. */
  lemma LosersStep(index: seq<DiscontinuousIndex>, d: int, t: seq<int>, dist: int, i: int, j: int)
    requires 0 <= i < j < |t|
    ensures LosersBefore(index, d, t, dist, i, j + 1) ==
            LosersBefore(index, d, t, dist, i, j)
            + (if Close(t, dist, i, j) && Readable(index, d, t, i, j) then {Loser(index, d, t, i, j)} else {})
  {
    var a := LosersBefore(index, d, t, dist, i, j + 1);
    var b := LosersBefore(index, d, t, dist, i, j);
    forall x | x in a ensures x in b || (Close(t, dist, i, j) && Readable(index, d, t, i, j) && x == Loser(index, d, t, i, j)) {
      var i', j' :| 0 <= i' < j' < |t| && Before(i', j', i, j + 1) && Close(t, dist, i', j')
                    && Readable(index, d, t, i', j') && x == Loser(index, d, t, i', j');
      if Before(i', j', i, j) {
        assert x in b;
      }
    }
  }

  /**
   * The nested loops of the conflict resolution, deleting from a set of
   * the sorted candidates; they compute `Thin`.
   */
  method ThinTicks(index: seq<DiscontinuousIndex>, d: int, t: seq<int>, dist: int) returns (r: Result<seq<int>, Failure>)
    ensures r == Thin(index, d, t, dist)
  {
    var gone: set<int> := {};
    var i := 0;
    while i < |t| - 1
      invariant 0 <= i && (|t| > 0 ==> i <= |t| - 1)
      invariant gone == LosersBefore(index, d, t, dist, i, i + 1)
      invariant forall i', j' :: 0 <= i' < j' < |t| && Before(i', j', i, i + 1) ==> !Faulty(index, d, t, dist, i', j')
    {
      var j := i + 1;
      while j < |t|
        invariant i + 1 <= j <= |t|
        invariant gone == LosersBefore(index, d, t, dist, i, j)
        invariant forall i', j' :: 0 <= i' < j' < |t| && Before(i', j', i, j) ==> !Faulty(index, d, t, dist, i', j')
      {
        LosersStep(index, d, t, dist, i, j);
        if t[j] - t[i] <= dist {
          if !Readable(index, d, t, i, j) {
            assert Faulty(index, d, t, dist, i, j);
            return Err(TypeError);
          }
          gone := gone + {Loser(index, d, t, i, j)};
        }
        j := j + 1;
      }
      LosersAgree(index, d, t, dist, i, |t|, i + 1, i + 2);
      i := i + 1;
    }
    LosersAgree(index, d, t, dist, i, i + 1, |t|, 0);
    r := Ok(Survivors(Dedup(t), gone));
  }

  /** In a sorted list, a smaller value sits at an earlier position. */
  lemma SortedOrder(t: seq<int>, a: int, b: int)
    requires Sorted(t) && 0 <= a < |t| && 0 <= b < |t| && t[a] < t[b]
    ensures a < b
  {
  }

  /** Any two kept ticks are more than the minimum distance apart. */
  lemma {:induction false} ThinnedTicksSpread(index: seq<DiscontinuousIndex>, d: int, t: seq<int>, dist: int, p: int, q: int)
    requires Sorted(t)
    requires Thin(index, d, t, dist).Ok?
    requires 0 <= p < q < |Thin(index, d, t, dist).value|
    ensures Thin(index, d, t, dist).value[q] - Thin(index, d, t, dist).value[p] > dist
  {
    var r := Thin(index, d, t, dist).value;
    var gone := Deleted(index, d, t, dist);
    assert r[p] < r[q];
    assert r[p] in r && r[q] in r;
    var a :| 0 <= a < |t| && t[a] == r[p];
    var b :| 0 <= b < |t| && t[b] == r[q];
    SortedOrder(t, a, b);
    if r[q] - r[p] <= dist {
      assert Close(t, dist, a, b);
      assert !Faulty(index, d, t, dist, a, b);
      assert Loser(index, d, t, a, b) in gone by {
        assert Before(a, b, |t|, 0);
      }
      assert false;
    }
  }

  /**
   * The earliest tick of the highest level among the candidates is never
   * deleted.
   */
  lemma {:induction false} LeadingTopTickSurvives(index: seq<DiscontinuousIndex>, d: int, t: seq<int>, dist: int, m: int)
    requires Strict(t)
    requires forall k :: 0 <= k < |t| ==> InBounds(index, d, t[k])
    requires 0 <= m < |t| && LevelOf(index, d, t[m]).Some?
    requires forall k :: 0 <= k < |t| ==> LevelGe(LevelOf(index, d, t[m]), LevelOf(index, d, t[k]))
    requires forall k :: 0 <= k < m ==> !LevelGe(LevelOf(index, d, t[k]), LevelOf(index, d, t[m]))
    ensures Thin(index, d, t, dist).Ok?
    ensures t[m] in Thin(index, d, t, dist).value
  {
  }

  /** Without close pairs nothing is deleted. */
  lemma NothingCloseKeepsAll(index: seq<DiscontinuousIndex>, d: int, t: seq<int>, dist: int)
    requires forall i, j :: 0 <= i < j < |t| ==> t[j] - t[i] > dist
    ensures Thin(index, d, t, dist) == Ok(Survivors(Dedup(t), {}))
  {
    assert forall i, j :: !Close(t, dist, i, j);
    assert Deleted(index, d, t, dist) == {};
  }
}
