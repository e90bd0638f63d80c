/**
 * The finance discontinuous scale: an affine map between index space and
 * pixel space held by a backing linear scale, plus lookups from index
 * values back into the index array.
 */
module FinanceScale {
  import opened Wrappers
  import opened IndexBuilder

  /**
   * The state of the backing d3 linear scale: a two-point domain and range
   * and the clamping flag, over exact reals.
   */
  datatype Linear = Linear(domain: (real, real), range: (real, real), clamp: bool)

  /** A fresh `scaleLinear()`: domain [0, 1], range [0, 1], no clamping. */
  const DefaultLinear: Linear := Linear((0.0, 1.0), (0.0, 1.0), false)

  /** The position of `x` between `a` and `b` as a fraction; 0.5 for a zero-width interval. */
  function Normalize(a: real, b: real, x: real): real {
    if b - a != 0.0 then (x - a) / (b - a) else 0.5
  }

  /** The number at fraction `t` from `a` to `b`. */
  function Interpolate(a: real, b: real, t: real): real {
    a * (1.0 - t) + b * t
  }

  /** `x` limited to the closed interval spanned by the two ends, in either order. */
  function ClampTo(ends: (real, real), x: real): (r: real)
    ensures ends.0 <= ends.1 ==> ends.0 <= r <= ends.1
    ensures ends.1 <= ends.0 ==> ends.1 <= r <= ends.0
    ensures (ends.0 <= x <= ends.1 || ends.1 <= x <= ends.0) ==> r == x
  {
    var lo := if ends.0 <= ends.1 then ends.0 else ends.1;
    var hi := if ends.0 <= ends.1 then ends.1 else ends.0;
    if x < lo then lo else if x > hi then hi else x
  }

  /** The backing scale applied to an index value. */
  function ApplyLinear(l: Linear, x: real): real {
    var x' := if l.clamp then ClampTo(l.domain, x) else x;
    Interpolate(l.range.0, l.range.1, Normalize(l.domain.0, l.domain.1, x'))
  }

  /** The backing scale's inverse applied to a pixel value. */
  function InvertLinear(l: Linear, y: real): real {
    var v := Interpolate(l.domain.0, l.domain.1, Normalize(l.range.0, l.range.1, y));
    if l.clamp then ClampTo(l.domain, v) else v
  }

  /** `Math.round(v * 10000) / 10000`: the nearest multiple of 1e-4, halves rounded up. */
  function Round4(v: real): (r: real)
    ensures (r * 10000.0).Floor as real == r * 10000.0
    ensures v - 1.0 / 20000.0 < r <= v + 1.0 / 20000.0
  {
    ((v * 10000.0 + 0.5).Floor as real) / 10000.0
  }

  /** A multiple of 1e-4 is its own rounding. */
  lemma Round4Exact(n: int)
    ensures Round4(n as real / 10000.0) == n as real / 10000.0
  {
    var v := n as real / 10000.0;
    assert v * 10000.0 == n as real;
    assert (v * 10000.0 + 0.5).Floor == n by {
      assert n as real <= n as real + 0.5 < (n + 1) as real;
    }
  }

  /** A scale: the index array it looks dates up in and its backing linear scale. */
  datatype Scale = Scale(index: seq<DiscontinuousIndex>, backing: Linear)

  /**
   * `financeDiscontinuousScale(index, backing)`: refused exactly when no
   * index array is given; an empty array is accepted.
   */
  function Create(index: Option<seq<DiscontinuousIndex>>, backing: Linear): (r: Result<Scale, Failure>)
    ensures r.Err? <==> index.None?
    ensures r.Err? ==> r.error == MissingIndex
    ensures r.Ok? ==> r.value.index == index.value && r.value.backing == backing
  {
    match index
    case None => Err(MissingIndex)
    case Some(a) => Ok(Scale(a, backing))
  }

  /**
   * Index value to pixel: the domain's ends go to the range's ends, and a
   * clamping scale never leaves the range.
   */
  function Apply(s: Scale, x: real): (r: real)
    ensures s.backing.domain.0 != s.backing.domain.1 && !s.backing.clamp && x == s.backing.domain.0 ==> r == s.backing.range.0
    ensures s.backing.domain.0 != s.backing.domain.1 && !s.backing.clamp && x == s.backing.domain.1 ==> r == s.backing.range.1
    ensures s.backing.clamp ==> ClampTo(s.backing.range, r) == r
  {
    var l := s.backing;
    assert l.clamp ==> ClampTo(l.range, ApplyLinear(l, x)) == ApplyLinear(l, x) by {
      if l.clamp {
        var t := Normalize(l.domain.0, l.domain.1, ClampTo(l.domain, x));
        NormalizeInUnit(l.domain.0, l.domain.1, ClampTo(l.domain, x));
        InterpolateBetween(l.range.0, l.range.1, t);
      }
    }
    ApplyLinear(l, x)
  }

  /** A point between the ends normalizes into [0, 1]. */
  lemma NormalizeInUnit(a: real, b: real, x: real)
    requires a <= x <= b || b <= x <= a
    ensures 0.0 <= Normalize(a, b, x) <= 1.0
  {
    if b - a != 0.0 {
      var w := b - a;
      var t := (x - a) / w;
      assert Normalize(a, b, x) == t;
      var below, above := t * w, (t - 1.0) * w;
      assert below == x - a;
      assert above == x - b;
      ProductSign(t, w);
      ProductSign(t - 1.0, w);
    }
  }

  /** Interpolating at a fraction in [0, 1] stays between the ends. */
  lemma InterpolateBetween(a: real, b: real, t: real)
    requires 0.0 <= t <= 1.0
    ensures a <= b ==> a <= Interpolate(a, b, t) <= b
    ensures b <= a ==> b <= Interpolate(a, b, t) <= a
  {
    assert Interpolate(a, b, t) == a + t * (b - a);
    assert Interpolate(a, b, t) == b - (1.0 - t) * (b - a);
    ProductSign(t, b - a);
    ProductSign(1.0 - t, b - a);
  }

  /** The sign of a product from the signs of its factors. */
  lemma ProductSign(p: real, q: real)
    ensures p >= 0.0 && q >= 0.0 ==> p * q >= 0.0
    ensures p >= 0.0 && q <= 0.0 ==> p * q <= 0.0
    ensures p > 0.0 && q > 0.0 ==> p * q > 0.0
    ensures p < 0.0 && q > 0.0 ==> p * q < 0.0
    ensures p > 0.0 && q < 0.0 ==> p * q < 0.0
    ensures p < 0.0 && q < 0.0 ==> p * q > 0.0
  {
  }

  /** Pixel to index value, rounded to the nearest 1e-4 against floating-point jitter. */
  function Invert(s: Scale, y: real): (r: real)
    ensures (r * 10000.0).Floor as real == r * 10000.0
    ensures InvertLinear(s.backing, y) - 1.0 / 20000.0 < r <= InvertLinear(s.backing, y) + 1.0 / 20000.0
  {
    Round4(InvertLinear(s.backing, y))
  }

  /**
   * On a domain and range of non-zero width, inverting a mapped value
   * inside the domain (or anywhere, when not clamping) gives the value back
   * up to the 1e-4 rounding.
   */
  lemma {:induction false} InvertAfterApply(s: Scale, x: real)
    requires s.backing.domain.0 != s.backing.domain.1
    requires s.backing.range.0 != s.backing.range.1
    requires s.backing.clamp ==> ClampTo(s.backing.domain, x) == x
    ensures Invert(s, Apply(s, x)) == Round4(x)
  {
    var d0, d1 := s.backing.domain.0, s.backing.domain.1;
    var r0, r1 := s.backing.range.0, s.backing.range.1;
    var t := Normalize(d0, d1, x);
    NormalizeUndoesInterpolate(r0, r1, t);
    InterpolateUndoesNormalize(d0, d1, x);
  }

  /** Interpolating at the normalized position of `x` gives `x` back. */
  lemma InterpolateUndoesNormalize(a: real, b: real, x: real)
    requires a != b
    ensures Interpolate(a, b, Normalize(a, b, x)) == x
  {
    var t := (x - a) / (b - a);
    assert t * (b - a) == x - a;
    assert a * (1.0 - t) + b * t == a + t * (b - a);
  }

  /** Normalizing the interpolated point at `t` gives `t` back. */
  lemma NormalizeUndoesInterpolate(a: real, b: real, t: real)
    requires a != b
    ensures Normalize(a, b, Interpolate(a, b, t)) == t
  {
    var y := a * (1.0 - t) + b * t;
    assert y - a == t * (b - a);
  }

  /** `copy()`: the same index array and an independent copy of the backing state. */
  function Copy(s: Scale): (r: Scale)
    ensures r.index == s.index && r.backing == s.backing
  {
    Create(Some(s.index), s.backing).value
  }

  /** `domain()`. */
  function Domain(s: Scale): (real, real) {
    s.backing.domain
  }

  /** `domain(d)`: only the domain changes. */
  function WithDomain(s: Scale, d: (real, real)): (r: Scale)
    ensures Domain(r) == d
    ensures r.index == s.index && r.backing.range == s.backing.range && r.backing.clamp == s.backing.clamp
  {
    s.(backing := s.backing.(domain := d))
  }

  /** `range()`. */
  function Range(s: Scale): (real, real) {
    s.backing.range
  }

  /** `range(r)`: only the range changes. */
  function WithRange(s: Scale, rg: (real, real)): (r: Scale)
    ensures Range(r) == rg
    ensures r.index == s.index && r.backing.domain == s.backing.domain && r.backing.clamp == s.backing.clamp
  {
    s.(backing := s.backing.(range := rg))
  }

  /** `clamp()`. */
  function Clamp(s: Scale): bool {
    s.backing.clamp
  }

  /** `clamp(c)`: only the clamping flag changes. */
  function WithClamp(s: Scale, c: bool): (r: Scale)
    ensures Clamp(r) == c
    ensures r.index == s.index && r.backing.domain == s.backing.domain && r.backing.range == s.backing.range
  {
    s.(backing := s.backing.(clamp := c))
  }

  /** `index(a)`: only the index array changes. */
  function WithIndex(s: Scale, a: seq<DiscontinuousIndex>): (r: Scale)
    ensures r.index == a && r.backing == s.backing
  {
    s.(index := a)
  }

  /**
   * A copy is the same value, and setting its domain yields the original
   * with only the backing domain replaced: nothing done to the copy can
   * reach the original.
   */
  lemma CopyIsIndependent(s: Scale, d: (real, real))
    ensures Copy(s) == s
    ensures WithDomain(Copy(s), d) == s.(backing := s.backing.(domain := d))
  {
  }

  /** The absolute value the lookups add to re-base an index value onto an array position. */
  function Abs(x: int): nat {
    if x < 0 then -x else x
  }

  /** The array position `floor(x + |index[0].index|)` that the lookups read. */
  function Position(s: Scale, x: real): int
    requires |s.index| > 0
  {
    (x + Abs(s.index[0].index) as real).Floor
  }

  /**
   * `value(x)`: the stored date at the re-based position, or None past
   * either end; reading the first entry of an empty array throws.
   */
  function Value(s: Scale, x: real): (r: Result<Option<int>, Failure>)
    ensures r.Err? <==> |s.index| == 0
    ensures r.Ok? && r.value.Some? ==> exists k :: 0 <= k < |s.index| && r.value.value == s.index[k].date
  {
    if |s.index| == 0 then Err(TypeError)
    else
      var p := Position(s, x);
      if 0 <= p < |s.index| then Ok(Some(s.index[p].date)) else Ok(None)
  }

  /**
   * `tickFormat()(x)`: the entry's stored formatter applied to its date;
   * `render` stands for d3-time-format. An empty array or a position past
   * either end throws.
   */
  function TickFormat(s: Scale, render: (string, int) -> string, x: real): (r: Result<string, Failure>)
    ensures |s.index| == 0 ==> r.Err?
    ensures r.Ok? <==> Value(s, x).Ok? && Value(s, x).value.Some?
    ensures r.Ok? ==> exists k :: 0 <= k < |s.index| && r.value == render(s.index[k].format, s.index[k].date)
  {
    if |s.index| == 0 then Err(TypeError)
    else
      var p := Position(s, x);
      if 0 <= p < |s.index| then Ok(render(s.index[p].format, s.index[p].date)) else Err(TypeError)
  }

  /** Stored index values increase by one from the first entry. */
  predicate Dense(index: seq<DiscontinuousIndex>) {
    forall k :: 0 <= k < |index| ==> index[k].index == index[0].index + k
  }

  /**
   * Dense and starting at a non-positive value: adding `|index[0].index|`
   * then turns every stored index value into its array position.
   */
  predicate Rebased(index: seq<DiscontinuousIndex>) {
    Dense(index) && (|index| > 0 ==> index[0].index <= 0)
  }

  /**
   * On a re-based index the lookups find the entry whose stored index value
   * is `floor(x)`.
   */
  lemma LookupFindsIndexValue(s: Scale, render: (string, int) -> string, x: real, k: int)
    requires Rebased(s.index)
    requires 0 <= k < |s.index|
    requires s.index[k].index as real <= x < s.index[k].index as real + 1.0
    ensures Value(s, x) == Ok(Some(s.index[k].date))
    ensures TickFormat(s, render, x) == Ok(render(s.index[k].format, s.index[k].date))
  {
    var h := s.index[0].index;
    assert s.index[k].index == h + k;
    assert (x + Abs(h) as real).Floor == k by {
      assert x + Abs(h) as real == x - h as real;
      assert k as real <= x - h as real < k as real + 1.0;
    }
  }

  /**
   * On a re-based index, an `x` below the first stored value or at or
   * past one beyond the last has no date and no label.
   */
  lemma LookupOutsideIndex(s: Scale, render: (string, int) -> string, x: real)
    requires Rebased(s.index) && |s.index| > 0
    requires x < s.index[0].index as real || x >= s.index[|s.index| - 1].index as real + 1.0
    ensures Value(s, x) == Ok(None)
    ensures TickFormat(s, render, x) == Err(TypeError)
  {
    var h := s.index[0].index;
    assert s.index[|s.index| - 1].index == h + |s.index| - 1;
    assert x + Abs(h) as real == x - h as real;
  }
}
