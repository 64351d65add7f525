/**
 Derivatives over the reals.

 All functions here are functions of a step h away from some point of interest. A function
 is `Steady` around c when it differs from c by at most k * |h| near zero.
 `HasDerivative(f, d)` says that the difference quotient of f at zero is steady around d:
 f(h) == f(0) + h * q(h). That is Caratheodory's form of the derivative, with a rate;
 `FirstOrder` derives the usual form, |f(h) - f(0) - d * h| <= k * h * h near zero.
 */
module Calculus {
  import opened Reals

  function Abs(x: real): real {
    if x < 0.0 then -x else x
  }

  ghost predicate Within(x: real, b: real) {
    -b <= x <= b
  }

  ghost predicate Near(h: real, radius: real) {
    -radius < h < radius
  }

  ghost predicate Steady(q: real -> real, c: real, k: real, radius: real) {
    && k >= 0.0 && 0.0 < radius <= 1.0
    && forall h {:trigger Near(h, radius)} | Near(h, radius) :: Within(q(h) - c, k * Abs(h))
  }

  ghost predicate Secant(f: real -> real, q: real -> real, radius: real) {
    forall h {:trigger Near(h, radius)} | Near(h, radius) :: f(h) == f(0.0) + h * q(h)
  }

  ghost predicate SteadyAround(q: real -> real, c: real) {
    exists k, radius :: Steady(q, c, k, radius)
  }

  ghost predicate SecantNear(f: real -> real, q: real -> real) {
    exists radius :: 0.0 < radius && Secant(f, q, radius)
  }

  ghost predicate HasDerivative(f: real -> real, d: real) {
    exists q: real -> real :: SteadyAround(q, d) && SecantNear(f, q)
  }

  // ---------------------------------------------------------------- bounds

  lemma {:induction false} NonNegative(a: real, b: real)
    requires a >= 0.0 && b >= 0.0
    ensures a * b >= 0.0
  {
  }

  lemma {:induction false} AbsProduct(a: real, b: real)
    ensures Abs(a * b) == Abs(a) * Abs(b)
  {
  }

  lemma {:induction false} ProductBound(x: real, a: real, y: real, b: real)
    requires Within(x, a) && Within(y, b)
    ensures Within(x * y, a * b)
  {
    NonNegative(a - x, b + y);
    NonNegative(a + x, b - y);
    NonNegative(a - x, b - y);
    NonNegative(a + x, b + y);
    assert (a - x) * (b + y) + (a + x) * (b - y) == 2.0 * (a * b - x * y);
    assert (a - x) * (b - y) + (a + x) * (b + y) == 2.0 * (a * b + x * y);
  }

  /** a1 * k1 + a2 * k2, which is not negative. */
  ghost function Rate(a1: real, k1: real, a2: real, k2: real): (k: real)
    requires a1 >= 0.0 && a2 >= 0.0 && k1 >= 0.0 && k2 >= 0.0
    ensures k >= 0.0
  {
    NonNegative(a1, k1);
    NonNegative(a2, k2);
    a1 * k1 + a2 * k2
  }

  lemma {:induction false} RateTimes(a1: real, k1: real, a2: real, k2: real, m: real)
    requires a1 >= 0.0 && a2 >= 0.0 && k1 >= 0.0 && k2 >= 0.0
    ensures Rate(a1, k1, a2, k2) * m == a1 * (k1 * m) + a2 * (k2 * m)
  {
  }

  lemma {:induction false} TwoProducts(x1: real, a1: real, y1: real, b1: real, x2: real, a2: real, y2: real, b2: real)
    requires Within(x1, a1) && Within(y1, b1) && Within(x2, a2) && Within(y2, b2)
    ensures Within(x1 * y1 + x2 * y2, a1 * b1 + a2 * b2)
  {
    ProductBound(x1, a1, y1, b1);
    ProductBound(x2, a2, y2, b2);
  }

  ghost function Smaller(r: real, s: real): real {
    if r < s then r else s
  }

  // ---------------------------------------------------------------- steady functions

  ghost predicate IsSum(s: real -> real, f: real -> real, g: real -> real, c1: real, c2: real, c3: real) {
    forall t {:trigger s(t)} :: s(t) == Times(c1, f(t)) + Times(c2, g(t)) + c3
  }

  ghost predicate IsProduct(p: real -> real, f: real -> real, g: real -> real) {
    forall t {:trigger p(t)} :: p(t) == Times(f(t), g(t))
  }

  /** c1 * u + c2 * v */
  lemma {:induction false} SteadySum(u: real -> real, v: real -> real, s: real -> real, a: real, b: real,
                                     c1: real, c2: real, k1: real, r1: real, k2: real, r2: real)
    requires Steady(u, a, k1, r1) && Steady(v, b, k2, r2) && IsSum(s, u, v, c1, c2, 0.0)
    ensures Steady(s, Times(c1, a) + Times(c2, b), Rate(Abs(c1), k1, Abs(c2), k2), Smaller(r1, r2))
  {
    forall h | Near(h, Smaller(r1, r2))
      ensures Within(s(h) - (Times(c1, a) + Times(c2, b)), Rate(Abs(c1), k1, Abs(c2), k2) * Abs(h))
    {
      SumAt(u, v, a, b, c1, c2, k1, r1, k2, r2, h);
    }
  }

  lemma {:induction false} SumAt(u: real -> real, v: real -> real, a: real, b: real, c1: real, c2: real,
                                 k1: real, r1: real, k2: real, r2: real, h: real)
    requires Steady(u, a, k1, r1) && Steady(v, b, k2, r2) && Near(h, r1) && Near(h, r2)
    ensures Within(Times(c1, u(h)) + Times(c2, v(h)) - Times(c1, a) - Times(c2, b),
                   Rate(Abs(c1), k1, Abs(c2), k2) * Abs(h))
  {
    SumStep(c1, u(h) - a, c2, v(h) - b, Abs(c1), Abs(c2), k1, k2, Abs(h));
    MixDifference(c1, u(h), a, c2, v(h), b);
  }

  lemma {:induction false} SumStep(c1: real, x: real, c2: real, y: real, a1: real, a2: real, k1: real, k2: real,
      m: real)
    requires Within(x, k1 * m) && Within(y, k2 * m) && k1 >= 0.0 && k2 >= 0.0
    requires Within(c1, a1) && Within(c2, a2) && a1 >= 0.0 && a2 >= 0.0
    ensures Within(Times(c1, x) + Times(c2, y), Rate(a1, k1, a2, k2) * m)
  {
    TwoProducts(c1, a1, x, k1 * m, c2, a2, y, k2 * m);
    RateBound(c1 * x + c2 * y, a1, k1, a2, k2, m);
  }

  lemma {:induction false} MixDifference(c1: real, u: real, a: real, c2: real, v: real, b: real)
    ensures Times(c1, u) + Times(c2, v) - Times(c1, a) - Times(c2, b) == Times(c1, u - a) + Times(c2, v - b)
  {
  }

  /** u * v, where w bounds v near zero */
  lemma {:induction false} SteadyProduct(u: real -> real, v: real -> real, p: real -> real, a: real, b: real, c: real,
                      k1: real, r1: real, k2: real, r2: real, w: real, w': real)
    requires Steady(u, a, k1, r1) && Steady(v, b, k2, r2)
    requires IsProduct(p, u, v)
    requires c == Times(a, b) && Abs(b) + k2 <= w && Within(a, w') && w' >= 0.0
    ensures Steady(p, c, Rate(w, k1, w', k2), Smaller(r1, r2))
  {
    SteadyBound(v, b, k2, r2, w);
    forall h | Near(h, Smaller(r1, r2)) ensures Within(p(h) - c, Rate(w, k1, w', k2) * Abs(h)) {
      assert Near(h, r2);
      ProductAt(u, v, a, b, k1, r1, k2, r2, w, w', h);
    }
  }

  lemma {:induction false} ProductAt(u: real -> real, v: real -> real, a: real, b: real, k1: real, r1: real, k2: real,
      r2: real, w: real, w': real, h: real)
    requires Steady(u, a, k1, r1) && Steady(v, b, k2, r2) && Near(h, r1) && Near(h, r2)
    requires Within(v(h), w) && Within(a, w') && w >= 0.0 && w' >= 0.0
    ensures Within(u(h) * v(h) - a * b, Rate(w, k1, w', k2) * Abs(h))
  {
    SwapRate(u(h), a, v(h), b, k1, k2, Abs(h), w, w');
  }

  lemma {:induction false} SteadyBound(v: real -> real, b: real, k: real, r: real, w: real)
    requires Steady(v, b, k, r) && Abs(b) + k <= w
    ensures forall h {:trigger Near(h, r)} | Near(h, r) :: Within(v(h), w)
  {
    forall h | Near(h, r) ensures Within(v(h), w) {
      SlopeBound(v(h), b, k, Abs(h));
    }
  }

  lemma {:induction false} SwapRate(u: real, a: real, v: real, b: real, k1: real, k2: real, m: real, w: real, w': real)
    requires Within(u - a, k1 * m) && Within(v - b, k2 * m) && k1 >= 0.0 && k2 >= 0.0
    requires Within(v, w) && Within(a, w') && w >= 0.0 && w' >= 0.0
    ensures Within(u * v - a * b, Rate(w, k1, w', k2) * m)
  {
    SwapBound(u, a, v, b, k1 * m, k2 * m, w, w');
    RateBound(u * v - a * b, w, k1, w', k2, m);
  }

  lemma {:induction false} RateBound(e: real, a1: real, k1: real, a2: real, k2: real, m: real)
    requires a1 >= 0.0 && a2 >= 0.0 && k1 >= 0.0 && k2 >= 0.0
    requires Within(e, a1 * (k1 * m) + a2 * (k2 * m))
    ensures Within(e, Rate(a1, k1, a2, k2) * m)
  {
    RateTimes(a1, k1, a2, k2, m);
  }

  lemma {:induction false} Shrink(e: real, k: real, m: real)
    requires Within(e, k * m) && k >= 0.0 && 0.0 <= m <= 1.0
    ensures Within(e, k)
  {
    NonNegative(k, 1.0 - m);
    assert k * (1.0 - m) == k - k * m;
  }

  lemma {:induction false} SwapBound(u: real, a: real, v: real, b: real, b1: real, b2: real, w: real, w': real)
    requires Within(u - a, b1) && Within(v - b, b2) && Within(v, w) && Within(a, w')
    ensures Within(u * v - a * b, w * b1 + w' * b2)
  {
    TwoProducts(v, w, u - a, b1, a, w', v - b, b2);
    assert u * v - a * b == v * (u - a) + a * (v - b);
  }

  ghost predicate BoundedPair(w: real, z: real, p: real, c: real, a: real) {
    Within(w, a) && p == c + w * z
  }

  /** w * z + c, for a bounded w and a z that is steady around zero. */
  lemma {:induction false} SteadyBounded(w: real -> real, z: real -> real, p: real -> real, c: real, a: real, k: real,
      r: real)
    requires a >= 0.0 && Steady(z, 0.0, k, r)
    requires forall h {:trigger Near(h, r)} | Near(h, r) :: BoundedPair(w(h), z(h), p(h), c, a)
    ensures Steady(p, c, Scaled(a, k), r)
  {
    forall h | Near(h, r) ensures Within(p(h) - c, Scaled(a, k) * Abs(h)) {
      BoundedAt(w(h), z, p(h), c, a, k, r, h);
    }
  }

  lemma {:induction false} BoundedAt(w: real, z: real -> real, p: real, c: real, a: real, k: real, r: real, h: real)
    requires a >= 0.0 && Steady(z, 0.0, k, r) && Near(h, r) && BoundedPair(w, z(h), p, c, a)
    ensures Within(p - c, Scaled(a, k) * Abs(h))
  {
    BoundedStep(w, z(h), p, c, a, k, Abs(h));
  }

  lemma {:induction false} BoundedStep(w: real, z: real, p: real, c: real, a: real, k: real, m: real)
    requires Within(w, a) && Within(z - 0.0, k * m) && p == c + w * z && a >= 0.0 && k >= 0.0
    ensures Within(p - c, Scaled(a, k) * m)
  {
  }

  ghost function Scaled(a: real, k: real): (rate: real)
    requires a >= 0.0 && k >= 0.0
    ensures rate >= 0.0
  {
    NonNegative(a, k);
    a * k
  }

  // ---------------------------------------------------------------- steady functions, rates hidden

  lemma {:induction false} SumAround(u: real -> real, v: real -> real, s: real -> real, a: real, b: real, c1: real,
      c2: real)
    requires SteadyAround(u, a) && SteadyAround(v, b) && IsSum(s, u, v, c1, c2, 0.0)
    ensures SteadyAround(s, Times(c1, a) + Times(c2, b))
  {
    var k1, r1 :| Steady(u, a, k1, r1);
    var k2, r2 :| Steady(v, b, k2, r2);
    SteadySum(u, v, s, a, b, c1, c2, k1, r1, k2, r2);
  }

  lemma {:induction false} ProductAround(u: real -> real, v: real -> real, p: real -> real, a: real, b: real, c: real)
    requires SteadyAround(u, a) && SteadyAround(v, b)
    requires IsProduct(p, u, v) && c == Times(a, b)
    ensures SteadyAround(p, c)
  {
    var k1, r1 :| Steady(u, a, k1, r1);
    var k2, r2 :| Steady(v, b, k2, r2);
    SteadyProduct(u, v, p, a, b, c, k1, r1, k2, r2, Abs(b) + k2, Abs(a));
  }

  /** p is the reciprocal of v wherever v is not zero. */
  ghost predicate Reciprocal(p: real -> real, v: real -> real) {
    forall h {:trigger p(h)} | v(h) != 0.0 :: Times(p(h), v(h)) == 1.0
  }

  /** The facts about 1 / v next to 1 / b, for v within m of b. */
  ghost predicate InverseNear(p: real, v: real, c: real, b: real) {
    v != 0.0 && Within(c * p, Abs(c) * (2.0 * Abs(c))) && p == c + (c * p) * (b - v)
  }

  ghost predicate NonZeroWithin(v: real -> real, radius: real) {
    0.0 < radius && forall h {:trigger Near(h, radius)} | Near(h, radius) :: v(h) != 0.0
  }

  ghost predicate NonZeroNear(v: real -> real) {
    exists radius :: NonZeroWithin(v, radius)
  }

  /** 1 / v around a non-zero value, and v stays away from zero near that value. */
  lemma {:induction false} InverseAround(v: real -> real, p: real -> real, b: real, c: real)
    requires SteadyAround(v, b) && b != 0.0 && Reciprocal(p, v) && c * b == 1.0
    ensures SteadyAround(p, c) && NonZeroNear(v)
  {
    var k, r :| Steady(v, b, k, r);
    var s := SafeRadius(b, k, r);
    forall h | Near(h, s) ensures InverseNear(p(h), v(h), c, b) {
      assert Near(h, r);
      InverseFacts(v(h), b, p(h), c, k * Abs(h));
    }
    assert NonZeroWithin(v, s);
    InverseSteady(v, p, b, c, k, r, s);
  }

  lemma {:induction false} InverseSteady(v: real -> real, p: real -> real, b: real, c: real, k: real, r: real, s: real)
    requires Steady(v, b, k, r) && 0.0 < s <= r
    requires forall h {:trigger Near(h, s)} | Near(h, s) :: InverseNear(p(h), v(h), c, b)
    ensures SteadyAround(p, c)
  {
    var z: real -> real := h => b - v(h);
    var w: real -> real := h => c * p(h);
    forall h | Near(h, s) ensures Within(z(h) - 0.0, k * Abs(h)) {
      assert Near(h, r);
    }
    assert Steady(z, 0.0, k, s);
    NonNegative(Abs(c), 2.0 * Abs(c));
    SteadyBounded(w, z, p, c, Abs(c) * (2.0 * Abs(c)), k, s);
  }

  lemma {:induction false} InverseFacts(v: real, b: real, p: real, c: real, m: real)
    requires Within(v - b, m) && m <= Abs(b) / 2.0 && b != 0.0
    requires v != 0.0 ==> p * v == 1.0
    requires c * b == 1.0
    ensures InverseNear(p, v, c, b)
  {
    assert v != 0.0 && Abs(v) >= Abs(b) / 2.0;
    InverseBound(v, b, p, c);
    ProductBound(c, Abs(c), p, 2.0 * Abs(c));
    InverseDifference(v, b, p, c);
  }

  /** A radius inside which a function of rate k moves by at most half of |b|. */
  lemma {:induction false} SafeRadius(b: real, k: real, r: real) returns (s: real)
    requires b != 0.0 && k >= 0.0 && 0.0 < r <= 1.0
    ensures 0.0 < s <= r
    ensures forall h {:trigger Near(h, s)} | Near(h, s) :: k * Abs(h) <= Abs(b) / 2.0
  {
    var t := Abs(b) / (2.0 * (k + 1.0));
    s := Smaller(r, t);
    forall h | Near(h, s) ensures k * Abs(h) <= Abs(b) / 2.0 {
      NonNegative(k, t - Abs(h));
      assert k * (t - Abs(h)) == k * t - k * Abs(h);
      assert t * (2.0 * (k + 1.0)) == Abs(b);
      assert t * (2.0 * (k + 1.0)) == 2.0 * (k * t) + 2.0 * t;
    }
  }

  lemma {:induction false} InverseDifference(v: real, b: real, p: real, c: real)
    requires p * v == 1.0 && c * b == 1.0
    ensures p == c + (c * p) * (b - v)
  {
    assert (c * p) * (b - v) == (c * b) * p - c * (p * v);
  }

  lemma {:induction false} InverseBound(v: real, b: real, p: real, c: real)
    requires p * v == 1.0 && c * b == 1.0 && Abs(v) >= Abs(b) / 2.0
    ensures Within(p, 2.0 * Abs(c))
  {
    AbsProduct(p, v);
    AbsProduct(c, b);
    if Abs(p) > 2.0 * Abs(c) {
      NonNegative(Abs(p) - 2.0 * Abs(c), Abs(v));
      NonNegative(Abs(c), 2.0 * Abs(v) - Abs(b));
      assert false;
    }
  }

  // ---------------------------------------------------------------- derivatives

  /** Two derivatives of one function differ by less than any number. */
  lemma {:induction false} DerivativesNear(f: real -> real, q: real -> real, p: real -> real, d: real, e: real,
      k: real, l: real, h: real)
    requires f(h) == f(0.0) + h * q(h) && f(h) == f(0.0) + h * p(h) && h > 0.0
    requires Within(q(h) - d, k * Abs(h)) && Within(p(h) - e, l * Abs(h))
    ensures Within(d - e, k * h + l * h)
  {
    assert q(h) == p(h) by { SameFactor(h, q(h), p(h)); }
  }

  lemma {:induction false} SameFactor(h: real, a: real, b: real)
    requires h > 0.0 && h * a == h * b
    ensures a == b
  {
    assert h * (a - b) == 0.0;
  }

  /** A step short enough for two rates, and inside a radius. */
  lemma {:induction false} ShortStep(k: real, l: real, r: real, gap: real) returns (h: real)
    requires k >= 0.0 && l >= 0.0 && r > 0.0 && gap > 0.0
    ensures 0.0 < h < r && k * h + l * h < gap
  {
    var s := k + l + 1.0;
    h := Smaller(r / 2.0, gap / (2.0 * s));
    assert gap / (2.0 * s) * s == gap / 2.0;
    ScaleBound(h, gap / (2.0 * s), s);
    assert k * h + l * h + h == h * s;
  }

  lemma {:induction false} ScaleBound(h: real, g: real, s: real)
    requires h <= g && s >= 0.0
    ensures h * s <= g * s
  {
  }

  /** A function has at most one derivative. */
  lemma {:induction false} DerivativeIsUnique(f: real -> real, d: real, e: real)
    requires HasDerivative(f, d) && HasDerivative(f, e)
    ensures d == e
  {
    var q: real -> real :| SteadyAround(q, d) && SecantNear(f, q);
    var p: real -> real :| SteadyAround(p, e) && SecantNear(f, p);
    var k, r1 :| Steady(q, d, k, r1);
    var l, r2 :| Steady(p, e, l, r2);
    var r3 :| 0.0 < r3 && Secant(f, q, r3);
    var r4 :| 0.0 < r4 && Secant(f, p, r4);
    if d != e {
      var h := ShortStep(k, l, Smaller(Smaller(r1, r2), Smaller(r3, r4)), Abs(d - e));
      assert Near(h, r1) && Near(h, r2) && Near(h, r3) && Near(h, r4);
      DerivativesNear(f, q, p, d, e, k, l, h);
    }
  }

  /** The error of the linear approximation is of second order. */
  lemma {:induction false} FirstOrder(f: real -> real, d: real) returns (k: real, r: real)
    requires HasDerivative(f, d)
    ensures r > 0.0
    ensures forall h {:trigger Near(h, r)} | Near(h, r) :: Within(f(h) - f(0.0) - d * h, k * (Abs(h) * Abs(h)))
  {
    var q: real -> real :| SteadyAround(q, d) && SecantNear(f, q);
    var r1, r2;
    k, r1 :| Steady(q, d, k, r1);
    r2 :| 0.0 < r2 && Secant(f, q, r2);
    r := Smaller(r1, r2);
    forall h | Near(h, r) ensures Within(f(h) - f(0.0) - d * h, k * (Abs(h) * Abs(h))) {
      FirstOrderAt(f, q, d, k, r1, r2, h);
    }
  }

  lemma {:induction false} FirstOrderAt(f: real -> real, q: real -> real, d: real, k: real, r1: real, r2: real, h: real)
    requires Steady(q, d, k, r1) && Secant(f, q, r2) && Near(h, r1) && Near(h, r2)
    ensures Within(f(h) - f(0.0) - d * h, k * (Abs(h) * Abs(h)))
  {
    FirstOrderStep(f(h), f(0.0), q(h), d, k, h);
  }

  lemma {:induction false} FirstOrderStep(f1: real, f0: real, q: real, d: real, k: real, h: real)
    requires f1 == f0 + h * q && Within(q - d, k * Abs(h))
    ensures Within(f1 - f0 - d * h, k * (Abs(h) * Abs(h)))
  {
  }

  lemma {:induction false} ConstantRule(f: real -> real)
    requires forall t {:trigger f(t)} :: f(t) == f(0.0)
    ensures HasDerivative(f, 0.0)
  {
    var q: real -> real := _ => 0.0;
    assert Steady(q, 0.0, 0.0, 1.0) && Secant(f, q, 1.0);
    assert SteadyAround(q, 0.0) && SecantNear(f, q);
  }

  lemma {:induction false} IdentityRule(f: real -> real, x: real)
    requires forall t {:trigger f(t)} :: f(t) == x + t
    ensures HasDerivative(f, 1.0)
  {
    var q: real -> real := _ => 1.0;
    assert Steady(q, 1.0, 0.0, 1.0) && Secant(f, q, 1.0);
    assert SteadyAround(q, 1.0) && SecantNear(f, q);
  }

  /** The derivative of c1 * f + c2 * g + c3. */
  lemma {:induction false} SumRule(f: real -> real, g: real -> real, s: real -> real, df: real, dg: real, d: real,
      c1: real, c2: real, c3: real)
    requires HasDerivative(f, df) && HasDerivative(g, dg) && IsSum(s, f, g, c1, c2, c3)
    requires d == Times(c1, df) + Times(c2, dg)
    ensures HasDerivative(s, d)
  {
    var qf: real -> real :| SteadyAround(qf, df) && SecantNear(f, qf);
    var qg: real -> real :| SteadyAround(qg, dg) && SecantNear(g, qg);
    var q := SumSlope(qf, qg, df, dg, c1, c2);
    SumSecant(f, g, s, qf, qg, q, c1, c2, c3);
  }

  lemma {:induction false} SumSlope(u: real -> real, v: real -> real, a: real, b: real, c1: real, c2: real)
    returns (q: real -> real)
    requires SteadyAround(u, a) && SteadyAround(v, b)
    ensures SteadyAround(q, Times(c1, a) + Times(c2, b)) && IsSum(q, u, v, c1, c2, 0.0)
  {
    q := h => Times(c1, u(h)) + Times(c2, v(h)) + 0.0;
    SumAround(u, v, q, a, b, c1, c2);
  }

  lemma {:induction false} TimesSlope(u: real -> real, v: real -> real, a: real, b: real) returns (q: real -> real)
    requires SteadyAround(u, a) && SteadyAround(v, b)
    ensures SteadyAround(q, Times(a, b)) && IsProduct(q, u, v)
  {
    q := h => Times(u(h), v(h));
    ProductAround(u, v, q, a, b, Times(a, b));
  }

  lemma {:induction false} SumSecant(f: real -> real, g: real -> real, s: real -> real,
                  qf: real -> real, qg: real -> real, q: real -> real, c1: real, c2: real, c3: real)
    requires SecantNear(f, qf) && SecantNear(g, qg) && IsSum(s, f, g, c1, c2, c3)
    requires IsSum(q, qf, qg, c1, c2, 0.0)
    ensures SecantNear(s, q)
  {
    var r1 :| 0.0 < r1 && Secant(f, qf, r1);
    var r2 :| 0.0 < r2 && Secant(g, qg, r2);
    forall h | Near(h, Smaller(r1, r2)) ensures s(h) == s(0.0) + h * q(h) {
      assert Near(h, r1) && Near(h, r2);
      SumSecantStep(f(h), f(0.0), g(h), g(0.0), s(h), s(0.0), qf(h), qg(h), q(h), c1, c2, c3, h);
    }
    assert Secant(s, q, Smaller(r1, r2));
  }

  lemma {:induction false} SumSecantStep(f1: real, f0: real, g1: real, g0: real, s1: real, s0: real, qf: real,
      qg: real, q: real, c1: real, c2: real, c3: real, h: real)
    requires f1 == f0 + h * qf && g1 == g0 + h * qg && q == c1 * qf + c2 * qg + 0.0
    requires s1 == c1 * f1 + c2 * g1 + c3 && s0 == c1 * f0 + c2 * g0 + c3
    ensures s1 == s0 + h * q
  {
  }

  /** A function with a derivative is itself steady around its value. */
  lemma {:induction false} ValueAround(f: real -> real, q: real -> real, d: real)
    requires SteadyAround(q, d) && SecantNear(f, q)
    ensures SteadyAround(f, f(0.0))
  {
    var k, r1 :| Steady(q, d, k, r1);
    var r2 :| 0.0 < r2 && Secant(f, q, r2);
    var r := Smaller(r1, r2);
    forall h | Near(h, r) ensures Within(f(h) - f(0.0), (Abs(d) + k) * Abs(h)) {
      assert Near(h, r1) && Near(h, r2);
      SlopeBound(q(h), d, k, Abs(h));
      ValueStep(f(h), f(0.0), q(h), Abs(d) + k, h);
    }
    assert Steady(f, f(0.0), Abs(d) + k, r);
  }

  lemma {:induction false} SlopeBound(q: real, d: real, k: real, m: real)
    requires Within(q - d, k * m) && k >= 0.0 && 0.0 <= m <= 1.0
    ensures Within(q, Abs(d) + k)
  {
    Shrink(q - d, k, m);
  }

  lemma {:induction false} ValueStep(f1: real, f0: real, q: real, a: real, h: real)
    requires f1 == f0 + h * q && Within(q, a)
    ensures Within(f1 - f0, a * Abs(h))
  {
    ProductBound(q, a, h, Abs(h));
  }

  /** The derivative of f * g. */
  lemma {:induction false} ProductRule(f: real -> real, g: real -> real, p: real -> real, df: real, dg: real, d: real)
    requires HasDerivative(f, df) && HasDerivative(g, dg) && IsProduct(p, f, g)
    requires d == Times(df, g(0.0)) + Times(f(0.0), dg)
    ensures HasDerivative(p, d)
  {
    var qf: real -> real :| SteadyAround(qf, df) && SecantNear(f, qf);
    var qg: real -> real :| SteadyAround(qg, dg) && SecantNear(g, qg);
    ValueAround(g, qg, dg);
    var u, q := ProductSlope(f(0.0), g(0.0), g, qf, qg, df, dg, d);
    ProductSecant(f, g, p, qf, qg, u, q);
  }

  lemma {:induction false} ProductSlope(f0: real, g0: real, g: real -> real, qf: real -> real, qg: real -> real,
      df: real, dg: real, d: real)
    returns (u: real -> real, q: real -> real)
    requires SteadyAround(qf, df) && SteadyAround(qg, dg) && SteadyAround(g, g0)
    requires d == Times(df, g0) + Times(f0, dg)
    ensures SteadyAround(q, d) && IsProduct(u, qf, g) && IsSum(q, u, qg, 1.0, f0, 0.0)
  {
    u := TimesSlope(qf, g, df, g0);
    q := SumSlope(u, qg, Times(df, g0), dg, 1.0, f0);
    assert Times(1.0, Times(df, g0)) == Times(df, g0);
  }

  lemma {:induction false} ProductSecant(f: real -> real, g: real -> real, p: real -> real,
                      qf: real -> real, qg: real -> real, u: real -> real, q: real -> real)
    requires SecantNear(f, qf) && SecantNear(g, qg) && IsProduct(p, f, g)
    requires IsProduct(u, qf, g) && IsSum(q, u, qg, 1.0, f(0.0), 0.0)
    ensures SecantNear(p, q)
  {
    var r1 :| 0.0 < r1 && Secant(f, qf, r1);
    var r2 :| 0.0 < r2 && Secant(g, qg, r2);
    forall h | Near(h, Smaller(r1, r2)) ensures p(h) == p(0.0) + h * q(h) {
      assert Near(h, r1) && Near(h, r2);
      ProductSecantStep(f(h), f(0.0), g(h), g(0.0), p(h), p(0.0), qf(h), qg(h), u(h), q(h), h);
    }
    assert Secant(p, q, Smaller(r1, r2));
  }

  lemma {:induction false} ProductSecantStep(f1: real, f0: real, g1: real, g0: real, p1: real, p0: real,
                          qf: real, qg: real, u: real, q: real, h: real)
    requires f1 == f0 + h * qf && g1 == g0 + h * qg && u == qf * g1 && q == 1.0 * u + f0 * qg + 0.0
    requires p1 == f1 * g1 && p0 == f0 * g0
    ensures p1 == p0 + h * q
  {
  }

  /** The derivative of 1 / g. */
  lemma {:induction false} ReciprocalRule(g: real -> real, p: real -> real, dg: real, d: real)
    requires HasDerivative(g, dg) && Reciprocal(p, g) && g(0.0) != 0.0
    requires d == Times(-p(0.0), Times(dg, p(0.0)))
    ensures HasDerivative(p, d)
  {
    var qg: real -> real :| SteadyAround(qg, dg) && SecantNear(g, qg);
    ValueAround(g, qg, dg);
    InverseAround(g, p, g(0.0), p(0.0));
    var u, q := ReciprocalSlope(p, qg, p(0.0), dg, d);
    ReciprocalSecant(g, p, qg, u, q);
  }

  lemma {:induction false} ReciprocalSlope(p: real -> real, qg: real -> real, c: real, dg: real, d: real)
    returns (u: real -> real, q: real -> real)
    requires SteadyAround(p, c) && SteadyAround(qg, dg) && d == Times(-c, Times(dg, c))
    ensures SteadyAround(q, d) && IsProduct(u, qg, p) && IsSum(q, u, u, -c, 0.0, 0.0)
  {
    u := TimesSlope(qg, p, dg, c);
    q := SumSlope(u, u, Times(dg, c), Times(dg, c), -c, 0.0);
    assert Times(0.0, Times(dg, c)) == 0.0;
  }

  lemma {:induction false} ReciprocalSecant(g: real -> real, p: real -> real, qg: real -> real, u: real -> real,
      q: real -> real)
    requires SecantNear(g, qg) && NonZeroNear(g) && Reciprocal(p, g) && g(0.0) != 0.0
    requires IsProduct(u, qg, p) && IsSum(q, u, u, -p(0.0), 0.0, 0.0)
    ensures SecantNear(p, q)
  {
    var r1 :| 0.0 < r1 && Secant(g, qg, r1);
    var r2 :| NonZeroWithin(g, r2);
    forall h | Near(h, Smaller(r1, r2)) ensures p(h) == p(0.0) + h * q(h) {
      assert Near(h, r1) && Near(h, r2);
      ReciprocalSecantStep(g(h), g(0.0), p(h), p(0.0), qg(h), u(h), q(h), h);
    }
    assert Secant(p, q, Smaller(r1, r2));
  }

  lemma {:induction false} ReciprocalSecantStep(v: real, b: real, p: real, c: real, qg: real, u: real, q: real, h: real)
    requires v == b + h * qg && p * v == 1.0 && c * b == 1.0 && u == qg * p && q == (-c) * u + 0.0 * u + 0.0
    ensures p == c + h * q
  {
  }
}
