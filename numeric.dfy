/** Integer semantics of the Python/numpy operations the detector relies on:
    `int()` of a quotient (truncation toward zero), overlap and scale factors
    as exact rationals, and the clamping rules of a numpy slice `a[lo:hi]`. */
module Numeric {

  datatype Option<T> = None | Some(value: T)

  /** A rational number `num / den`; stands for the floating-point overlap
      fractions and scale factors of the source. */
  datatype RatioRep = Ratio(num: int, den: int)
  type Fraction = q: RatioRep | q.den > 0 witness Ratio(0, 1)

  /** A strictly positive rational (a search scale). */
  type PosFraction = q: RatioRep | q.num > 0 && q.den > 0 witness Ratio(1, 1)

  function Abs(n: int): nat
  {
    if n < 0 then -n else n
  }

  /** `int(n / d)` in Python: the quotient truncated toward zero. */
  function Trunc(n: int, d: int): (q: int)
    requires d != 0
    ensures Abs(q * d) <= Abs(n) < Abs(q * d) + Abs(d)
    ensures q == 0 || (q > 0 <==> (n > 0 <==> d > 0))
  {
    var m := Abs(n) / Abs(d);
    DivBounds(Abs(n), Abs(d));
    var q := if (n >= 0) == (d > 0) then m else -m;
    AbsMul(q, d);
    assert Abs(q) == m;
    q
  }

  lemma DivBounds(a: nat, b: int)
    requires b > 0
    ensures (a / b) * b <= a < (a / b) * b + b
  {
    assert a == (a / b) * b + a % b;
  }

  lemma AbsMul(a: int, b: int)
    ensures Abs(a * b) == Abs(a) * Abs(b)
  {
    if a < 0 && b < 0 {
      assert a * b == (-a) * (-b);
    } else if a < 0 {
      assert -(a * b) == (-a) * b;
    } else if b < 0 {
      assert -(a * b) == a * (-b);
    }
  }

  /** For a non-negative quotient with a positive divisor, `int(n / d)` is the floor `n / d`. */
  lemma TruncNonNeg(n: int, d: int)
    requires n >= 0 && d > 0
    ensures Trunc(n, d) == n / d
  {
    var q := Trunc(n, d);
    assert q * d <= n < q * d + d;
    DivUnique(n, d, q);
  }

  lemma DivUnique(n: int, d: int, q: int)
    requires d > 0 && q * d <= n < q * d + d
    ensures q == n / d
  {
    var r := n / d;
    assert r * d <= n < r * d + d;
    if q < r {
      assert (q + 1) * d <= r * d by { MulMonoInt(q + 1, r, d); }
    } else if q > r {
      assert (r + 1) * d <= q * d by { MulMonoInt(r + 1, q, d); }
    }
  }

  lemma MulMonoInt(a: int, b: int, k: nat)
    requires a <= b
    ensures a * k <= b * k
  {
  }

  /** `int(x * q)` for a Python number `x` times the fraction `q`. */
  function TruncMul(x: int, q: Fraction): int
  {
    Trunc(x * q.num, q.den)
  }

  /** `range(n)` iterates `max(n, 0)` times. */
  function RangeLen(n: int): nat
  {
    if n < 0 then 0 else n
  }

  /** A half-open range `[lo, hi)` of indices. */
  datatype Span = Span(lo: nat, hi: nat)

  /** One slice bound of `a[lo:hi]` on an axis of length `n`: a negative bound
      counts from the end, and the result is clamped into `[0, n]`. */
  function ClampBound(i: int, n: nat): (b: nat)
    ensures b <= n
    ensures 0 <= i <= n ==> b == i
  {
    if i < 0 then (if i + n < 0 then 0 else i + n) else if i > n then n else i
  }

  /** The indices that the numpy slice `a[start:stop]` selects on an axis of
      length `n`: always a range inside `[0, n)`, and exactly
      `[start, stop)` when `0 <= start <= stop <= n`. */
  function SliceBounds(start: int, stop: int, n: nat): (s: Span)
    ensures s.lo <= s.hi <= n
    ensures 0 <= start <= stop <= n ==> s == Span(start, stop)
  {
    var lo := ClampBound(start, n);
    var hi := ClampBound(stop, n);
    Span(lo, if hi < lo then lo else hi)
  }

  /** A slice with non-negative bounds never selects more than `stop - start`
      indices, whatever the axis length. */
  lemma SliceBoundsLen(start: int, stop: int, n: nat)
    requires 0 <= start <= stop
    ensures SliceBounds(start, stop, n).hi - SliceBounds(start, stop, n).lo <= stop - start
  {
  }

  lemma Distrib(a: int, b: int, c: int)
    ensures a * (b + c) == a * b + a * c
    ensures (b + c) * a == b * a + c * a
  {
  }

  lemma MulNonNeg(a: nat, b: int)
    requires b >= 0
    ensures a * b >= 0
  {
  }

  /** `p * d <= q * d` with `d > 0` gives `p <= q`; a strict `<` gives `p < q`. */
  lemma MulLess(p: int, q: int, d: int)
    requires d > 0
    ensures p * d <= q * d ==> p <= q
    ensures p * d < q * d ==> p < q
  {
    if p > q {
      assert (p - q) * d > 0 by { MulPos(p - q, d); }
    }
    if p == q {
      assert p * d == q * d;
    }
  }

  lemma MulPos(a: int, b: int)
    requires a > 0 && b > 0
    ensures a * b > 0
  {
  }
}
