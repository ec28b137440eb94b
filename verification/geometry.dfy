/**
  Points and vectors of the world, over exact reals.

  The geometry library's square roots (`length`, `distanceTo`) are not
  computed here: a length is an input `len` that satisfies `IsLength`, the
  one fact the library promises about it.  Comparisons between distances are
  carried out on their squares, which is exact.
 */
module Geometry {

  datatype Vec3 = Vec3(x: real, y: real, z: real)

  const Origin: Vec3 := Vec3(0.0, 0.0, 0.0)

  function Add(a: Vec3, b: Vec3): Vec3 {
    Vec3(a.x + b.x, a.y + b.y, a.z + b.z)
  }

  function Sub(a: Vec3, b: Vec3): Vec3 {
    Vec3(a.x - b.x, a.y - b.y, a.z - b.z)
  }

  function Scale(v: Vec3, k: real): Vec3 {
    Vec3(v.x * k, v.y * k, v.z * k)
  }

  /** The same point moved to height `y` (the library's `setY`). */
  function WithY(v: Vec3, y: real): Vec3 {
    v.(y := y)
  }

  function NormSq(v: Vec3): real {
    v.x * v.x + v.y * v.y + v.z * v.z
  }

  lemma SubOrigin(v: Vec3)
    ensures Sub(v, Origin) == v
  {
  }

  /** Squared distance between two points. */
  function DistSq(a: Vec3, b: Vec3): real {
    NormSq(Sub(a, b))
  }

  /** Squared distance in the ground plane: only x and z count. */
  function FlatDistSq(a: Vec3, b: Vec3): real {
    (a.x - b.x) * (a.x - b.x) + (a.z - b.z) * (a.z - b.z)
  }

  /** Dot product in the ground plane. */
  function FlatDot(a: Vec3, b: Vec3): real {
    a.x * b.x + a.z * b.z
  }

  /** `len` is the Euclidean length of `v`, as the library's `length()` reports it. */
  predicate IsLength(v: Vec3, len: real) {
    0.0 <= len && len * len == NormSq(v)
  }

  /** Smallest integer not below `x`. */
  function Ceil(x: real): (n: int)
    ensures n as real - 1.0 < x <= n as real
  {
    -((-x).Floor)
  }

  lemma MulPos(x: real, y: real)
    requires 0.0 < x && 0.0 < y
    ensures 0.0 < x * y
  {
  }

  lemma MulNonposNonneg(x: real, y: real)
    requires x <= 0.0 && 0.0 <= y
    ensures x * y <= 0.0
  {
  }

  /** For non-negative reals, comparing squares is comparing the numbers. */
  lemma SquareLess(a: real, b: real)
    requires 0.0 <= a && 0.0 <= b
    ensures a < b <==> a * a < b * b
  {
    assert (b - a) * (b + a) == b * b - a * a;
    if a < b {
      MulPos(b - a, b + a);
    } else {
      MulNonposNonneg(b - a, b + a);
    }
  }

  lemma SquareNonneg(x: real)
    ensures 0.0 <= x * x
  {
    var m := if x < 0.0 then -x else x;
    assert m * m == x * x;
    SquareLess(0.0, m);
  }

  lemma SquareZero(x: real)
    requires x * x == 0.0
    ensures x == 0.0
  {
    var m := if x < 0.0 then -x else x;
    assert m * m == x * x;
    SquareLess(0.0, m);
  }

  /** A vector has one length. */
  lemma LengthUnique(v: Vec3, a: real, b: real)
    requires IsLength(v, a) && IsLength(v, b)
    ensures a == b
  {
    SquareLess(a, b);
    SquareLess(b, a);
  }

  lemma ScaleNormSq(v: Vec3, k: real)
    ensures NormSq(Scale(v, k)) == k * k * NormSq(v)
  {
    assert (v.x * k) * (v.x * k) == k * k * (v.x * v.x);
    assert (v.y * k) * (v.y * k) == k * k * (v.y * v.y);
    assert (v.z * k) * (v.z * k) == k * k * (v.z * v.z);
  }

  lemma ScaleScale(v: Vec3, a: real, b: real)
    ensures Scale(Scale(v, a), b) == Scale(v, a * b)
  {
    assert (v.x * a) * b == v.x * (a * b);
    assert (v.y * a) * b == v.y * (a * b);
    assert (v.z * a) * b == v.z * (a * b);
  }

  /** What is left of `t - p` after moving the fraction `k` of it. */
  lemma Remainder(p: Vec3, t: Vec3, k: real)
    ensures Sub(t, Add(p, Scale(Sub(t, p), k))) == Scale(Sub(t, p), 1.0 - k)
    ensures Sub(Add(p, Scale(Sub(t, p), k)), p) == Scale(Sub(t, p), k)
  {
    var v := Sub(t, p);
    assert t.x - (p.x + v.x * k) == v.x * (1.0 - k);
    assert t.y - (p.y + v.y * k) == v.y * (1.0 - k);
    assert t.z - (p.z + v.z * k) == v.z * (1.0 - k);
  }

  lemma ZeroLength(v: Vec3)
    requires NormSq(v) == 0.0
    ensures v == Origin
  {
    SquareNonneg(v.x);
    SquareNonneg(v.y);
    SquareNonneg(v.z);
    SquareZero(v.x);
    SquareZero(v.y);
    SquareZero(v.z);
  }

  /** The divisor the library's `normalize()` uses: the length, or 1 for the zero vector. */
  function NormalizeFactor(len: real): real {
    1.0 / (if len == 0.0 then 1.0 else len)
  }

  lemma NormalizeUnit(v: Vec3, len: real)
    requires IsLength(v, len) && len > 0.0
    ensures NormSq(Scale(v, NormalizeFactor(len))) == 1.0
  {
    var k := NormalizeFactor(len);
    ScaleNormSq(v, k);
    assert k * len == 1.0;
    assert k * k * (len * len) == (k * len) * (k * len);
  }

  /**
    The library's `normalize()`: divides by the length, or by 1 when the
    length is 0, so the zero vector stays zero.
   */
  function Normalize(v: Vec3, len: real): (u: Vec3)
    requires IsLength(v, len)
    ensures v.y == 0.0 ==> u.y == 0.0
  {
    Scale(v, NormalizeFactor(len))
  }

  /** A normalised non-zero vector has length 1; the zero vector stays zero. */
  lemma NormalizeLength(v: Vec3, len: real)
    requires IsLength(v, len)
    ensures len > 0.0 ==> NormSq(Normalize(v, len)) == 1.0
    ensures len == 0.0 ==> Normalize(v, len) == Origin
  {
    if len == 0.0 {
      ZeroLength(v);
    } else {
      NormalizeUnit(v, len);
    }
  }

  /** Scaling by a non-negative factor scales the length by it. */
  lemma ScaledLength(v: Vec3, d: real, k: real)
    requires IsLength(v, d) && 0.0 <= k
    ensures IsLength(Scale(v, k), k * d)
  {
    ScaleNormSq(v, k);
    assert k * k * (d * d) == (k * d) * (k * d);
    if k > 0.0 && d > 0.0 {
      MulPos(k, d);
    }
  }

  lemma NormalizedStep(v: Vec3, d: real, step: real)
    requires IsLength(v, d) && 0.0 < d
    ensures Scale(Normalize(v, d), step) == Scale(v, step / d)
  {
    assert NormalizeFactor(d) * step == step / d;
    ScaleScale(v, NormalizeFactor(d), step);
  }

  /**
    Moving from `p` by `step` along the normalised direction to `t` leaves
    exactly `d - step` to go, and covers exactly `step`.
   */
  lemma StepAlong(p: Vec3, t: Vec3, d: real, step: real)
    requires IsLength(Sub(t, p), d) && 0.0 < d && 0.0 <= step <= d
    ensures IsLength(Sub(t, Add(p, Scale(Normalize(Sub(t, p), d), step))), d - step)
    ensures IsLength(Sub(Add(p, Scale(Normalize(Sub(t, p), d), step)), p), step)
  {
    var v := Sub(t, p);
    var k := step / d;
    NormalizedStep(v, d, step);
    Remainder(p, t, k);
    assert 0.0 <= k <= 1.0;
    ScaledLength(v, d, 1.0 - k);
    ScaledLength(v, d, k);
    assert (1.0 - k) * d == d - step;
    assert k * d == step;
  }
}
