/**
 * Ordering helpers for tick lists: the ascending sort the tick algorithm
 * applies, the first-occurrence de-duplication a JavaScript `Set` performs
 * and the filter that drops deleted values.
 */
module Sorting {

  /** Non-decreasing. */
  predicate Sorted(s: seq<int>) {
    forall i, j :: 0 <= i < j < |s| ==> s[i] <= s[j]
  }

  /** Strictly increasing. */
  predicate Strict(s: seq<int>) {
    forall i, j :: 0 <= i < j < |s| ==> s[i] < s[j]
  }

  /** No value occurs twice. */
  predicate NoDup(s: seq<int>) {
    forall i, j :: 0 <= i < j < |s| ==> s[i] != s[j]
  }

  /** `x` placed into a sorted list before the first element not below it. */
  function Insert(x: int, s: seq<int>): (r: seq<int>)
    requires Sorted(s)
    ensures Sorted(r)
    ensures multiset(r) == multiset(s) + multiset{x}
    ensures |r| == |s| + 1
  {
    if |s| == 0 then [x]
    else if x <= s[0] then [x] + s
    else
      assert s == [s[0]] + s[1..];
      var rest := Insert(x, s[1..]);
      InsertBelow(x, s[0], s[1..], rest);
      ConsSorted(s[0], rest);
      assert multiset([s[0]] + rest) == multiset{s[0]} + multiset(rest);
      assert multiset(s) == multiset{s[0]} + multiset(s[1..]);
      [s[0]] + rest
  }

  /** A lower bound of a sorted list can head it. */
  lemma ConsSorted(h: int, rest: seq<int>)
    requires Sorted(rest) && forall k :: 0 <= k < |rest| ==> h <= rest[k]
    ensures Sorted([h] + rest)
  {
    var r := [h] + rest;
    forall i, j | 0 <= i < j < |r| ensures r[i] <= r[j] {
      if i > 0 {
        assert r[i] == rest[i - 1] && r[j] == rest[j - 1];
      }
    }
  }

  /** Every element of an arrangement of `t` plus `x` is at least a common lower bound. */
  lemma InsertBelow(x: int, lo: int, t: seq<int>, rest: seq<int>)
    requires lo <= x && forall k :: 0 <= k < |t| ==> lo <= t[k]
    requires multiset(rest) == multiset(t) + multiset{x}
    ensures forall k :: 0 <= k < |rest| ==> lo <= rest[k]
  {
    forall k | 0 <= k < |rest| ensures lo <= rest[k] {
      assert rest[k] in multiset(rest);
      if rest[k] != x {
        assert rest[k] in multiset(t);
        assert rest[k] in t;
      }
    }
  }

  /** `ticks.sort(ascending)` on numbers. */
  function SortAscending(s: seq<int>): (r: seq<int>)
    ensures Sorted(r)
    ensures multiset(r) == multiset(s)
    ensures |r| == |s|
  {
    if |s| == 0 then []
    else
      assert s == [s[0]] + s[1..];
      Insert(s[0], SortAscending(s[1..]))
  }

  /** The least element of a non-empty sorted list heads it. */
  lemma SortedHeadIsLeast(a: seq<int>, x: int)
    requires Sorted(a) && x in multiset(a)
    ensures a[0] <= x
  {
    assert x in a;
    var k :| 0 <= k < |a| && a[k] == x;
  }

  /** A multiset has exactly one sorted arrangement. */
  lemma {:induction false} SortedArrangementUnique(a: seq<int>, b: seq<int>)
    requires Sorted(a) && Sorted(b)
    requires multiset(a) == multiset(b)
    ensures a == b
    decreases |a|
  {
    assert |a| == |multiset(a)| == |multiset(b)| == |b|;
    if |a| > 0 {
      assert a[0] in multiset(b);
      assert b[0] in multiset(a);
      SortedHeadIsLeast(b, a[0]);
      SortedHeadIsLeast(a, b[0]);
      assert a[0] == b[0];
      assert a == [a[0]] + a[1..];
      assert b == [b[0]] + b[1..];
      assert multiset(a[1..]) == multiset(a) - multiset{a[0]};
      assert multiset(b[1..]) == multiset(b) - multiset{b[0]};
      SortedArrangementUnique(a[1..], b[1..]);
    }
  }

  /** Sorting gives the one sorted arrangement of its input's values. */
  lemma SortIsTheSortedArrangement(s: seq<int>, b: seq<int>)
    requires Sorted(b) && multiset(b) == multiset(s)
    ensures SortAscending(s) == b
  {
    SortedArrangementUnique(SortAscending(s), b);
  }

  /** Sorting a list without repeats gives a strictly increasing list. */
  lemma SortedNoDupIsStrict(s: seq<int>)
    requires Sorted(s) && NoDup(s)
    ensures Strict(s)
  {
  }

  /**
   * `Array.from(new Set(s))`: each value once, at its first occurrence.
   */
  function Dedup(s: seq<int>): (r: seq<int>)
    ensures forall x :: x in r <==> x in s
    ensures NoDup(r)
    ensures Sorted(s) ==> Strict(r)
    ensures |r| <= |s|
  {
    if |s| == 0 then []
    else
      var d := Dedup(s[..|s| - 1]);
      assert forall x :: x in s <==> x in s[..|s| - 1] || x == s[|s| - 1] by {
        assert s == s[..|s| - 1] + [s[|s| - 1]];
      }
      if s[|s| - 1] in d then d
      else
        assert Sorted(s) ==> forall k :: 0 <= k < |d| ==> d[k] < s[|s| - 1] by {
          if Sorted(s) {
            forall k | 0 <= k < |d| ensures d[k] < s[|s| - 1] {
              assert d[k] in s[..|s| - 1];
            }
          }
        }
        d + [s[|s| - 1]]
  }

  /** De-duplication keeps a list that has no repeats as it is. */
  lemma {:induction false} DedupOfNoDup(s: seq<int>)
    requires NoDup(s)
    ensures Dedup(s) == s
  {
    if |s| > 0 {
      var init := s[..|s| - 1];
      assert NoDup(init);
      DedupOfNoDup(init);
      assert s[|s| - 1] !in init;
      assert s == init + [s[|s| - 1]];
    }
  }

  /** The values of `s` not in `gone`, in their order in `s`. */
  function Survivors(s: seq<int>, gone: set<int>): (r: seq<int>)
    ensures forall x :: x in r <==> x in s && x !in gone
    ensures Strict(s) ==> Strict(r)
    ensures |r| <= |s|
  {
    if |s| == 0 then []
    else
      var rest := Survivors(s[1..], gone);
      assert forall x :: x in s <==> x == s[0] || x in s[1..] by {
        assert s == [s[0]] + s[1..];
      }
      if s[0] in gone then rest
      else
        assert Strict(s) ==> forall k :: 0 <= k < |rest| ==> s[0] < rest[k] by {
          if Strict(s) {
            forall k | 0 <= k < |rest| ensures s[0] < rest[k] {
              assert rest[k] in s[1..];
            }
          }
        }
        [s[0]] + rest
  }
}
