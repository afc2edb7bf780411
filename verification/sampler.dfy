/**
 * The arithmetic of `get_prop` and `get_n_edges`: a random fraction chosen by
 * the distribution, the normal draw clamped into `[0, 1]`, and the lengths
 * derived from it through Rust's saturating `f64 as usize` cast. Fractions are
 * exact reals; the random draws themselves come from outside.
 */
module Sampler {

  const UsizeMax: nat := 0xFFFF_FFFF_FFFF_FFFF

  /** A 64-bit `usize`. */
  type usize = x: nat | x <= UsizeMax

  datatype Option<T> = None | Some(value: T)

  datatype Dist = Uniform | Normal | Exp

  /**
   * What each sampler can return: `Uniform(0, 1)` lies in `[0, 1)`, an
   * exponential draw is non-negative, a normal draw may be any real.
   */
  predicate Drawable(d: Dist, x: real) {
    match d
    case Uniform => 0.0 <= x < 1.0
    case Normal => true
    case Exp => 0.0 <= x
  }

  /** The normal draw forced into `[0, 1]`. */
  function Clamp(x: real): (r: real)
    ensures 0.0 <= r <= 1.0
    ensures 0.0 <= x <= 1.0 ==> r == x
  {
    if x > 1.0 then 1.0 else if x < 0.0 then 0.0 else x
  }

  lemma ClampIdempotent(x: real)
    ensures Clamp(Clamp(x)) == Clamp(x)
  {
  }

  lemma ClampMonotone(x: real, y: real)
    requires x <= y
    ensures Clamp(x) <= Clamp(y)
  {
  }

  /** The fraction `get_prop` scales the property range by. */
  function PropFraction(d: Dist, x: real): real {
    match d
    case Uniform => x
    case Normal => Clamp(x)
    case Exp => x
  }

  /** The fraction `get_n_edges` scales 10000 by; the exponential draw is squared. */
  function EdgeFraction(d: Dist, x: real): real {
    match d
    case Uniform => x
    case Normal => Clamp(x)
    case Exp => x * x
  }

  /** For the uniform and normal samplers both fractions lie in `[0, 1]`. */
  lemma FractionInUnit(d: Dist, x: real)
    requires Drawable(d, x) && d != Exp
    ensures 0.0 <= PropFraction(d, x) <= 1.0
    ensures 0.0 <= EdgeFraction(d, x) <= 1.0
    ensures d == Uniform ==> PropFraction(d, x) < 1.0 && EdgeFraction(d, x) < 1.0
  {
  }

  /** Both exponential fractions are non-negative but unbounded. */
  lemma ExpFractionUnbounded(x: real)
    requires Drawable(Exp, x)
    ensures 0.0 <= PropFraction(Exp, x) && 0.0 <= EdgeFraction(Exp, x)
    ensures x > 1.0 ==> PropFraction(Exp, x) > 1.0 && EdgeFraction(Exp, x) > x
  {
    if x > 1.0 {
      assert x * x > x * 1.0;
    }
  }

  /**
   * Rust's `f64 as usize`: negative values go to 0, values past the top go to
   * `UsizeMax`, everything else is truncated toward zero.
   */
  function CastToUsize(x: real): usize {
    if x <= 0.0 then 0
    else if x >= UsizeMax as real then UsizeMax
    else x.Floor
  }

  /** The cast saturates at both ends and truncates in between. */
  lemma CastBounds(x: real)
    ensures x <= 0.0 ==> CastToUsize(x) == 0
    ensures x >= UsizeMax as real ==> CastToUsize(x) == UsizeMax
    ensures 0.0 <= x < UsizeMax as real ==> CastToUsize(x) as real <= x < CastToUsize(x) as real + 1.0
  {
  }

  lemma CastMonotone(x: real, y: real)
    requires x <= y
    ensures CastToUsize(x) <= CastToUsize(y)
  {
    CastBounds(x);
    CastBounds(y);
    if 0.0 < x && y < UsizeMax as real {
      assert CastToUsize(x) as real <= x <= y < CastToUsize(y) as real + 1.0;
    }
  }

  /** Casting a value in `[0, r]` gives at most `r`, and less than `r` when the value is. */
  lemma CastBelow(x: real, r: usize)
    requires 0.0 <= x <= r as real
    ensures CastToUsize(x) <= r
    ensures x < r as real ==> CastToUsize(x) < r
  {
    CastBounds(x);
    if x < UsizeMax as real {
      assert CastToUsize(x) as real <= x;
    }
  }

  /** `max_prop_size - min_prop_size`; `None` when the `usize` subtraction underflows. */
  function PropRange(minSize: usize, maxSize: usize): (r: Option<usize>)
    ensures r.Some? <==> minSize <= maxSize
    ensures r.Some? ==> minSize + r.value == maxSize
  {
    if minSize <= maxSize then Some(maxSize - minSize) else None
  }

  /** `f * range`: within `[0, range]` for a fraction in `[0, 1]`, below `range` for one below 1. */
  function Scaled(f: real, range: nat): real {
    f * range as real
  }

  lemma ScaledBounds(f: real, range: nat)
    ensures 0.0 <= f <= 1.0 ==> 0.0 <= Scaled(f, range) <= range as real
    ensures 0.0 <= f < 1.0 && range > 0 ==> Scaled(f, range) < range as real
    ensures 0.0 <= f ==> 0.0 <= Scaled(f, range)
  {
    MulBounds(f, range as real);
  }

  lemma MulBounds(f: real, r: real)
    requires 0.0 <= r
    ensures 0.0 <= f ==> 0.0 <= f * r
    ensures f <= 1.0 ==> f * r <= r
    ensures f < 1.0 && 0.0 < r ==> f * r < r
  {
    assert r - f * r == (1.0 - f) * r;
    if 0.0 <= f {
      MulNonNeg(f, r);
    }
    if f <= 1.0 {
      MulNonNeg(1.0 - f, r);
    }
    if f < 1.0 && 0.0 < r {
      MulPos(1.0 - f, r);
    }
  }

  lemma MulNonNeg(a: real, b: real)
    requires 0.0 <= a && 0.0 <= b
    ensures 0.0 <= a * b
  {
  }

  lemma MulPos(a: real, b: real)
    requires 0.0 < a && 0.0 < b
    ensures 0.0 < a * b
  {
  }

  /**
   * Length of the random buffer: `min + (f * range) as usize`; `None` when the
   * `usize` addition overflows.
   */
  function PropLength(minSize: usize, range: usize, f: real): Option<usize> {
    var len := minSize + CastToUsize(Scaled(f, range));
    if len <= UsizeMax then Some(len) else None
  }

  /** Number of edge rows: `(f * 10000) as usize`. */
  function EdgeCount(d: Dist, x: real): usize {
    CastToUsize(Scaled(EdgeFraction(d, x), 10000))
  }

  /** A fraction in `[0, 1]` gives a length in `[min, max]`, without overflow. */
  lemma PropLengthBounded(minSize: usize, maxSize: usize, f: real)
    requires minSize <= maxSize
    requires 0.0 <= f <= 1.0
    ensures PropLength(minSize, maxSize - minSize, f).Some?
    ensures minSize <= PropLength(minSize, maxSize - minSize, f).value <= maxSize
  {
    ScaledBounds(f, maxSize - minSize);
    CastBelow(Scaled(f, maxSize - minSize), maxSize - minSize);
  }

  /** A fraction below 1, as the uniform sampler draws, never reaches `max` unless the range is empty. */
  lemma PropLengthBelowMax(minSize: usize, maxSize: usize, f: real)
    requires minSize < maxSize
    requires 0.0 <= f < 1.0
    ensures PropLength(minSize, maxSize - minSize, f).Some?
    ensures PropLength(minSize, maxSize - minSize, f).value < maxSize
  {
    ScaledBounds(f, maxSize - minSize);
    CastBelow(Scaled(f, maxSize - minSize), maxSize - minSize);
  }

  lemma ScaledMonotone(f: real, g: real, range: nat)
    requires f <= g
    ensures Scaled(f, range) <= Scaled(g, range)
  {
    assert g * range as real - f * range as real == (g - f) * range as real;
  }

  /** A larger fraction never gives a shorter buffer. */
  lemma PropLengthMonotone(minSize: usize, range: usize, f: real, g: real)
    requires 0.0 <= f <= g
    requires PropLength(minSize, range, g).Some?
    ensures PropLength(minSize, range, f).Some?
    ensures PropLength(minSize, range, f).value <= PropLength(minSize, range, g).value
  {
    ScaledMonotone(f, g, range);
    ScaledBounds(f, range);
    ScaledBounds(g, range);
    CastMonotone(Scaled(f, range), Scaled(g, range));
  }

  /** The exponential sampler can exceed `max`: a draw of 2 already does. */
  lemma ExpPropLengthExceedsMax(minSize: usize, maxSize: usize)
    requires minSize < maxSize && 2 * maxSize <= UsizeMax
    ensures Drawable(Exp, 2.0)
    ensures var r := PropLength(minSize, maxSize - minSize, PropFraction(Exp, 2.0));
      r.None? || r.value > maxSize
  {
    var range := maxSize - minSize;
    assert Scaled(2.0, range) == (2 * range) as real;
    assert CastToUsize((2 * range) as real) == 2 * range;
  }

  /**
   * Edge counts: below 10000 for the uniform sampler, at most 10000 for the
   * clamped normal one.
   */
  lemma EdgeCountBounded(d: Dist, x: real)
    requires Drawable(d, x) && d != Exp
    ensures EdgeCount(d, x) <= 10000
    ensures d == Uniform ==> EdgeCount(d, x) < 10000
  {
    FractionInUnit(d, x);
    ScaledBounds(EdgeFraction(d, x), 10000);
    CastBelow(Scaled(EdgeFraction(d, x), 10000), 10000);
  }

  /** The squared exponential draw has no such bound: a draw of 2 gives 40000 edges. */
  lemma ExpEdgeCountExample()
    ensures Drawable(Exp, 2.0)
    ensures EdgeCount(Exp, 2.0) == 40000
  {
    assert Scaled(EdgeFraction(Exp, 2.0), 10000) == 40000 as real;
  }
}
