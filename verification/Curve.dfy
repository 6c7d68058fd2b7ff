/** Short Weierstrass curves y^2 = x^3 + ax + b over GF(p): the chord-tangent law of `ec_add` and
    `ec_double`, the on-curve check, and double-and-add. */
module Curve {
  import opened Wrappers
  import opened Modular

  /** The point at infinity carries no coordinates; `X` gives it the zero the source stores. */
  datatype Point = Infinity | Affine(x: nat, y: nat)

  datatype Curve = Curve(p: nat, a: nat, b: nat)

  function X(pt: Point): nat { if pt.Infinity? then 0 else pt.x }

  function Cubic(c: Curve, x: int): int { x * x * x + c.a * x + c.b }

  ghost predicate OnCurve(c: Curve, pt: Point) {
    pt.Affine? ==> pt.x < c.p && pt.y < c.p && Cong(pt.y * pt.y, Cubic(c, pt.x), c.p)
  }

  /** The field is a prime field of odd characteristic. */
  ghost predicate Field(c: Curve) {
    Prime(c.p) && c.p > 2
  }

  // ----- the operations -----

  function EcAdd(c: Curve, p1: Point, p2: Point): (r: Point)
    requires c.p > 0
  {
    if p1.Infinity? then p2
    else if p2.Infinity? then p1
    else if p1.x == p2.x then
      if p1.y == p2.y && p1.y != 0 then EcDouble(c, p1) else Infinity
    else
      var dy := SubMod(p2.y, p1.y, c.p);
      var dx := SubMod(p2.x, p1.x, c.p);
      match ModInv(dx, c.p)
      case None => Infinity
      case Some(inv) =>
        var lam := (dy * inv) % c.p;
        ThirdPoint(c, lam, p1, (p1.x + p2.x) % c.p)
  }

  function EcDouble(c: Curve, pt: Point): (r: Point)
    requires c.p > 0
  {
    if pt.Infinity? || pt.y == 0 then Infinity
    else
      match ModInv((2 * pt.y) % c.p, c.p)
      case None => Infinity
      case Some(inv) =>
        var lam := (((3 * pt.x * pt.x + c.a) % c.p) * inv) % c.p;
        ThirdPoint(c, lam, pt, (2 * pt.x) % c.p)
  }

  /** x3 = lam^2 - sum and y3 = lam (x1 - x3) - y1, as both operations end. */
  function ThirdPoint(c: Curve, lam: nat, p1: Point, sum: nat): (r: Point)
    requires c.p > 0 && p1.Affine?
    ensures r.Affine? && r.x < c.p && r.y < c.p
  {
    var x3 := SubMod((lam * lam) % c.p, sum, c.p);
    var y3 := SubMod((lam * SubMod(p1.x, x3, c.p)) % c.p, p1.y, c.p);
    Affine(x3, y3)
  }

  function Neg(c: Curve, pt: Point): Point
    requires c.p > 0
  {
    if pt.Infinity? then Infinity else Affine(pt.x, SubMod(0, pt.y, c.p))
  }

  /** `point_on_curve`, the guard in front of every multiplication by a received point. */
  predicate PointOnCurve(c: Curve, x: nat, y: nat)
    requires c.p > 0
  {
    x < c.p && y < c.p && (y * y) % c.p == (((x * x) % c.p) * x + c.a * x + c.b) % c.p
  }

  lemma PointOnCurveMeaning(c: Curve, x: nat, y: nat)
    requires c.p > 0
    ensures PointOnCurve(c, x, y) <==> OnCurve(c, Affine(x, y))
  {
    ModCong(x * x, c.p);
    CongRefl(x, c.p);
    CongMul((x * x) % c.p, x * x, x, x, c.p);
    CongRefl(c.a * x + c.b, c.p);
    CongAdd(((x * x) % c.p) * x, x * x * x, c.a * x + c.b, c.a * x + c.b, c.p);
    CongMod(((x * x) % c.p) * x + c.a * x + c.b, Cubic(c, x), c.p);
    CongMod(y * y, Cubic(c, x), c.p);
  }

  // ----- the line through the curve -----

  /** The cofactor left when the curve equation is restricted to the line of slope l through
      (x1, y1) and the root x1 is divided out. */
  function Cofactor(a: int, x1: int, y1: int, l: int, t: int): int {
    t * t + t * x1 + x1 * x1 + a - l * l * (t - x1) - 2 * l * y1
  }

  lemma CubeDifference(t: int, x: int)
    ensures t * t * t - x * x * x == (t - x) * (t * t + t * x + x * x)
  {
  }

  lemma LineSquare(l: int, d: int, y: int)
    ensures (l * d + y) * (l * d + y) == d * (l * l * d) + d * (2 * l * y) + y * y
  {
  }

  lemma Distribute(d: int, u: int, v: int, w: int, z: int)
    ensures d * (u + v - w - z) == d * u + d * v - d * w - d * z
  {
  }

  lemma LinearDifference(a: int, t: int, x: int)
    ensures a * t - a * x == (t - x) * a
  {
  }

  lemma LineIdentity(c: Curve, x1: int, y1: int, l: int, t: int)
    ensures var w := l * (t - x1) + y1;
            Cubic(c, t) - w * w
            == (t - x1) * Cofactor(c.a, x1, y1, l, t) + (Cubic(c, x1) - y1 * y1)
  {
    var d, q, k, m := t - x1, t * t + t * x1 + x1 * x1, l * l * (t - x1), 2 * l * y1;
    CubeDifference(t, x1);
    LineSquare(l, d, y1);
    LinearDifference(c.a, t, x1);
    Distribute(d, q, c.a, k, m);
    assert Cofactor(c.a, x1, y1, l, t) == q + c.a - k - m;
  }

  lemma CofactorIdentity(a: int, x1: int, y1: int, l: int, t: int, x2: int)
    ensures Cofactor(a, x1, y1, l, t) - Cofactor(a, x1, y1, l, x2)
         == (t - x2) * (t + x2 + x1 - l * l)
  {
    var k := l * l;
    assert t * t - x2 * x2 == (t - x2) * (t + x2);
    assert (t - x2) * (t + x2 + x1 - k) == (t - x2) * (t + x2) + (t - x2) * x1 - (t - x2) * k;
    assert k * (t - x1) - k * (x2 - x1) == (t - x2) * k;
  }

  lemma ZeroFactor(u: int, v: int, m: int)
    requires Cong(v, 0, m)
    ensures Cong(u * v, 0, m)
  {
    CongRefl(u, m);
    CongMul(u, u, v, 0, m);
  }

  /** The cofactor also vanishes at the third root l^2 - x1 - x2. */
  lemma ThirdRoot(a: int, x1: int, y1: int, x2: int, l: int, x3: int, p: nat)
    requires Cong(Cofactor(a, x1, y1, l, x2), 0, p) && Cong(x3, l * l - x1 - x2, p)
    ensures Cong(Cofactor(a, x1, y1, l, x3), 0, p)
  {
    var s := l * l - x1 - x2;
    CofactorIdentity(a, x1, y1, l, x3, x2);
    CongRefl(s, p);
    CongAdd(x3, s, s, s, p);
    assert x3 - s == x3 + x2 + x1 - l * l;
    ZeroFactor(x3 - x2, x3 - s, p);
    CongAdd(Cofactor(a, x1, y1, l, x2), 0, (x3 - x2) * (x3 - s), 0, p);
  }

  /** Where the cofactor vanishes, the line meets the curve. */
  lemma LineMeetsCurve(c: Curve, x1: int, y1: int, l: int, t: int, w: int)
    requires Cong(y1 * y1, Cubic(c, x1), c.p)
    requires Cong(Cofactor(c.a, x1, y1, l, t), 0, c.p)
    requires w == l * (t - x1) + y1
    ensures Cong(w * w, Cubic(c, t), c.p)
  {
    var p, e, f := c.p, Cubic(c, x1) - y1 * y1, Cofactor(c.a, x1, y1, l, t);
    LineIdentity(c, x1, y1, l, t);
    CongSym(y1 * y1, Cubic(c, x1), p);
    CongRefl(y1 * y1, p);
    CongAdd(Cubic(c, x1), y1 * y1, y1 * y1, y1 * y1, p);
    ZeroFactor(t - x1, f, p);
    CongAdd((t - x1) * f, 0, e, 0, p);
    CongRefl(w * w, p);
    CongAdd(Cubic(c, t) - w * w, 0, w * w, w * w, p);
    CongSym(Cubic(c, t), w * w, p);
  }

  /** The third intersection lies on the curve, for chord and tangent alike. */
  lemma ThirdOnCurve(c: Curve, x1: int, y1: int, x2: int, l: int, x3: int, y3: int)
    requires Cong(y1 * y1, Cubic(c, x1), c.p)
    requires Cong(Cofactor(c.a, x1, y1, l, x2), 0, c.p)
    requires Cong(x3, l * l - x1 - x2, c.p) && Cong(y3, l * (x1 - x3) - y1, c.p)
    ensures Cong(y3 * y3, Cubic(c, x3), c.p)
  {
    var w := l * (x3 - x1) + y1;
    ThirdRoot(c.a, x1, y1, x2, l, x3, c.p);
    LineMeetsCurve(c, x1, y1, l, x3, w);
    assert l * (x1 - x3) - y1 == -w by { assert l * (x1 - x3) == -(l * (x3 - x1)); }
    CongMul(y3, -w, y3, -w, c.p);
    assert (-w) * (-w) == w * w;
    CongTrans(y3 * y3, w * w, Cubic(c, x3), c.p);
  }

  // ----- slopes -----

  /** An inverse turns a product into a slope. */
  lemma SlopeTimes(num: nat, den: nat, inv: nat, p: nat)
    requires p > 0 && Cong(inv * den, 1, p)
    ensures Cong(((num * inv) % p) * den, num, p)
  {
    ModCong(num * inv, p);
    CongRefl(den, p);
    CongMul((num * inv) % p, num * inv, den, den, p);
    CongRefl(num, p);
    CongMul(num, num, inv * den, 1, p);
    assert (num * inv) * den == num * (inv * den);
    CongTrans(((num * inv) % p) * den, num * (inv * den), num, p);
  }

  /** What `ThirdPoint` computes, as congruences on the true coordinates. */
  lemma ThirdPointCong(c: Curve, lam: nat, p1: Point, s: nat)
    requires c.p > 0 && p1.Affine?
    ensures var r := ThirdPoint(c, lam, p1, s % c.p);
            && Cong(r.x, lam * lam - s, c.p)
            && Cong(r.y, lam * (p1.x - r.x) - p1.y, c.p)
  {
    var p, r := c.p, ThirdPoint(c, lam, p1, s % c.p);
    ModCong(lam * lam, p);
    ModCong(s, p);
    CongAdd((lam * lam) % p, lam * lam, s % p, s, p);
    CongTrans(r.x, (lam * lam) % p - s % p, lam * lam - s, p);
    var d := SubMod(p1.x, r.x, p);
    CongRefl(lam, p);
    CongMul(lam, lam, d, p1.x - r.x, p);
    ModCong(lam * d, p);
    CongTrans((lam * d) % p, lam * d, lam * (p1.x - r.x), p);
    CongRefl(p1.y, p);
    CongAdd((lam * d) % p, lam * (p1.x - r.x), p1.y, p1.y, p);
    CongTrans(r.y, (lam * d) % p - p1.y, lam * (p1.x - r.x) - p1.y, p);
  }

  lemma DistinctInvertible(u: nat, v: nat, p: nat)
    requires Prime(p) && u < p && v < p && u != v
    ensures 0 < SubMod(u, v, p) && !Cong(u - v, 0, p)
    ensures ModInv(SubMod(u, v, p), p).Some?
  {
    if Cong(u - v, 0, p) {
      CongRefl(v, p);
      CongAdd(u - v, 0, v, v, p);
      ReducedUnique(u, v, p);
    }
    if SubMod(u, v, p) == 0 { CongSym(0, u - v, p); }
    PrimeInverse(SubMod(u, v, p), p);
  }

  lemma HalfInvertible(y: nat, p: nat)
    requires Prime(p) && p > 2 && 0 < y < p
    ensures 0 < (2 * y) % p && !Cong(2 * y, 0, p)
    ensures ModInv((2 * y) % p, p).Some?
  {
    if Cong(2 * y, 0, p) {
      if Cong(2, 0, p) { ReducedUnique(2, 0, p); }
      PrimeCancel(2, y, p);
      ReducedUnique(y, 0, p);
    }
    ModCong(2 * y, p);
    if (2 * y) % p == 0 { CongSym(0, 2 * y, p); }
    PrimeInverse((2 * y) % p, p);
  }

  /** The slope `ec_add` computes for distinct x-coordinates. */
  function Slope(c: Curve, p1: Point, p2: Point): nat
    requires Field(c) && p1.Affine? && p2.Affine? && p1.x < c.p && p2.x < c.p && p1.x != p2.x
  {
    DistinctInvertible(p2.x, p1.x, c.p);
    (SubMod(p2.y, p1.y, c.p) * ModInv(SubMod(p2.x, p1.x, c.p), c.p).value) % c.p
  }

  /** For distinct x the "no inverse" exit is unreachable, and the slope meets both points. */
  lemma ChordAdd(c: Curve, p1: Point, p2: Point)
    requires Field(c) && p1.Affine? && p2.Affine? && p1.x < c.p && p2.x < c.p && p1.x != p2.x
    ensures EcAdd(c, p1, p2) == ThirdPoint(c, Slope(c, p1, p2), p1, (p1.x + p2.x) % c.p)
    ensures Cong(Slope(c, p1, p2) * (p2.x - p1.x), p2.y - p1.y, c.p)
  {
    var p := c.p;
    var dy, dx := SubMod(p2.y, p1.y, p), SubMod(p2.x, p1.x, p);
    DistinctInvertible(p2.x, p1.x, p);
    ModInvCorrect(dx, p);
    SlopeTimes(dy, dx, ModInv(dx, p).value, p);
    var lam := Slope(c, p1, p2);
    CongRefl(lam, p);
    CongSym(dx, p2.x - p1.x, p);
    CongMul(lam, lam, p2.x - p1.x, dx, p);
    CongTrans(lam * (p2.x - p1.x), lam * dx, dy, p);
    CongTrans(lam * (p2.x - p1.x), dy, p2.y - p1.y, p);
  }

  function Tangent(c: Curve, pt: Point): nat
    requires Field(c) && pt.Affine? && 0 < pt.y < c.p
  {
    HalfInvertible(pt.y, c.p);
    (((3 * pt.x * pt.x + c.a) % c.p) * ModInv((2 * pt.y) % c.p, c.p).value) % c.p
  }

  lemma TangentDouble(c: Curve, pt: Point)
    requires Field(c) && pt.Affine? && 0 < pt.y < c.p
    ensures EcDouble(c, pt) == ThirdPoint(c, Tangent(c, pt), pt, (2 * pt.x) % c.p)
    ensures Cong(Tangent(c, pt) * (2 * pt.y), 3 * pt.x * pt.x + c.a, c.p)
  {
    var p := c.p;
    var num, den := (3 * pt.x * pt.x + c.a) % p, (2 * pt.y) % p;
    HalfInvertible(pt.y, p);
    ModInvCorrect(den, p);
    SlopeTimes(num, den, ModInv(den, p).value, p);
    var lam := Tangent(c, pt);
    ModCong(3 * pt.x * pt.x + c.a, p);
    ModCong(2 * pt.y, p);
    CongSym(den, 2 * pt.y, p);
    CongRefl(lam, p);
    CongMul(lam, lam, 2 * pt.y, den, p);
    CongTrans(lam * (2 * pt.y), lam * den, num, p);
    CongTrans(lam * (2 * pt.y), num, 3 * pt.x * pt.x + c.a, p);
  }

  // ----- group laws that need no hypothesis -----

  lemma ChordCofactor(c: Curve, x1: int, y1: int, x2: int, y2: int, l: int)
    requires Prime(c.p)
    requires Cong(y1 * y1, Cubic(c, x1), c.p) && Cong(y2 * y2, Cubic(c, x2), c.p)
    requires Cong(l * (x2 - x1), y2 - y1, c.p) && !Cong(x2 - x1, 0, c.p)
    ensures Cong(Cofactor(c.a, x1, y1, l, x2), 0, c.p)
  {
    var p, w := c.p, l * (x2 - x1) + y1;
    LineIdentity(c, x1, y1, l, x2);
    CongRefl(y1, p);
    CongAdd(l * (x2 - x1), y2 - y1, y1, y1, p);
    CongMul(w, y2, w, y2, p);
    CongTrans(w * w, y2 * y2, Cubic(c, x2), p);
    CongSym(w * w, Cubic(c, x2), p);
    CongRefl(w * w, p);
    CongAdd(Cubic(c, x2), w * w, w * w, w * w, p);
    CongSym(y1 * y1, Cubic(c, x1), p);
    CongRefl(y1 * y1, p);
    CongAdd(Cubic(c, x1), y1 * y1, y1 * y1, y1 * y1, p);
    CongAdd(Cubic(c, x2) - w * w, 0, Cubic(c, x1) - y1 * y1, 0, p);
    PrimeCancel(x2 - x1, Cofactor(c.a, x1, y1, l, x2), p) by {
      assert (x2 - x1) * Cofactor(c.a, x1, y1, l, x2) == (Cubic(c, x2) - w * w) - (Cubic(c, x1) - y1 * y1);
    }
  }

  lemma TangentCofactor(c: Curve, x: int, y: int, l: int)
    requires Cong(l * (2 * y), 3 * x * x + c.a, c.p)
    ensures Cong(Cofactor(c.a, x, y, l, x), 0, c.p)
  {
    CongRefl(3 * x * x + c.a, c.p);
    CongAdd(3 * x * x + c.a, 3 * x * x + c.a, l * (2 * y), 3 * x * x + c.a, c.p);
    assert l * l * (x - x) == 0 && 2 * l * y == l * (2 * y);
    assert Cofactor(c.a, x, y, l, x) == 3 * x * x + c.a - l * (2 * y);
  }

  lemma DoubleOnCurve(c: Curve, pt: Point)
    requires Field(c) && OnCurve(c, pt)
    ensures OnCurve(c, EcDouble(c, pt))
  {
    if pt.Affine? && pt.y != 0 {
      TangentDouble(c, pt);
      var l, r := Tangent(c, pt), EcDouble(c, pt);
      ThirdPointCong(c, l, pt, 2 * pt.x);
      TangentCofactor(c, pt.x, pt.y, l);
      assert l * l - 2 * pt.x == l * l - pt.x - pt.x;
      ThirdOnCurve(c, pt.x, pt.y, pt.x, l, r.x, r.y);
    }
  }

  /** Closure: sums of reduced curve points are reduced curve points. */
  lemma AddOnCurve(c: Curve, p1: Point, p2: Point)
    requires Field(c) && OnCurve(c, p1) && OnCurve(c, p2)
    ensures OnCurve(c, EcAdd(c, p1, p2))
  {
    if p1.Infinity? || p2.Infinity? {
    } else if p1.x == p2.x {
      DoubleOnCurve(c, p1);
    } else {
      ChordAdd(c, p1, p2);
      var l, r := Slope(c, p1, p2), EcAdd(c, p1, p2);
      DistinctInvertible(p2.x, p1.x, c.p);
      ChordCofactor(c, p1.x, p1.y, p2.x, p2.y, l);
      ThirdPointCong(c, l, p1, p1.x + p2.x);
      ThirdOnCurve(c, p1.x, p1.y, p2.x, l, r.x, r.y);
    }
  }

  /** The two slopes of a chord agree modulo p. */
  lemma SlopeSymmetric(c: Curve, p1: Point, p2: Point)
    requires Field(c) && p1.Affine? && p2.Affine? && p1.x < c.p && p2.x < c.p && p1.x != p2.x
    ensures Slope(c, p1, p2) == Slope(c, p2, p1)
  {
    hide EcAdd; hide ModInv; hide SubMod; hide Prime; hide Cong;
    var p, l, m := c.p, Slope(c, p1, p2), Slope(c, p2, p1);
    ChordAdd(c, p1, p2);
    ChordAdd(c, p2, p1);
    CongAdd(l * (p2.x - p1.x), p2.y - p1.y, m * (p1.x - p2.x), p1.y - p2.y, p);
    assert l * (p2.x - p1.x) + m * (p1.x - p2.x) == (p2.x - p1.x) * (l - m);
    DistinctInvertible(p2.x, p1.x, p);
    PrimeCancel(p2.x - p1.x, l - m, p);
    ModCong(SubMod(p2.y, p1.y, p) * ModInv(SubMod(p2.x, p1.x, p), p).value, p);
    DistinctInvertible(p1.x, p2.x, p);
    ModCong(SubMod(p1.y, p2.y, p) * ModInv(SubMod(p1.x, p2.x, p), p).value, p);
    CongRefl(m, p);
    CongAdd(l - m, 0, m, m, p);
    ReducedUnique(l, m, p);
  }

  /** Commutativity. */
  lemma AddCommutes(c: Curve, p1: Point, p2: Point)
    requires Field(c) && OnCurve(c, p1) && OnCurve(c, p2)
    ensures EcAdd(c, p1, p2) == EcAdd(c, p2, p1)
  {
    if p1.Affine? && p2.Affine? && p1.x != p2.x {
      var p, l := c.p, Slope(c, p1, p2);
      var r, r' := EcAdd(c, p1, p2), EcAdd(c, p2, p1);
      SlopeSymmetric(c, p1, p2);
      ChordAdd(c, p1, p2);
      ChordAdd(c, p2, p1);
      ThirdPointCong(c, l, p1, p1.x + p2.x);
      ThirdPointCong(c, l, p2, p2.x + p1.x);
      assert r.x == r'.x;
      // l (x1 - x3) - y1 = l (x2 - x3) - y2, because l (x2 - x1) = y2 - y1
      CongRefl(l * (p2.x - r.x) - p2.y, p);
      CongSym(l * (p2.x - p1.x), p2.y - p1.y, p);
      CongAdd(l * (p2.x - r.x) - p2.y, l * (p2.x - r.x) - p2.y, p2.y - p1.y, l * (p2.x - p1.x), p);
      assert l * (p2.x - r.x) - p2.y + (p2.y - p1.y) - l * (p2.x - p1.x) == l * (p1.x - r.x) - p1.y by {
        assert l * (p2.x - r.x) - l * (p2.x - p1.x) == l * (p1.x - r.x);
      }
      LineThrough(l, p1.x, p1.y, p2.x, p2.y, r.x, p);
      CongTrans(r.y, l * (p1.x - r.x) - p1.y, l * (p2.x - r.x) - p2.y, p);
      CongSym(r'.y, l * (p2.x - r.x) - p2.y, p);
      CongTrans(r.y, l * (p2.x - r.x) - p2.y, r'.y, p);
      ReducedUnique(r.y, r'.y, p);
    }
  }

  lemma LineThrough(l: int, x1: int, y1: int, x2: int, y2: int, t: int, p: nat)
    requires Cong(l * (x2 - x1), y2 - y1, p)
    ensures Cong(l * (x1 - t) - y1, l * (x2 - t) - y2, p)
  {
    var k: int :| Differ(l * (x2 - x1), y2 - y1, k, p);
    assert l * (x1 - t) - l * (x2 - t) == -(l * (x2 - x1));
    CongBy(l * (x1 - t) - y1, l * (x2 - t) - y2, -k, p) by { assert (-k) * p == -(k * p); }
  }

  lemma DoubleIsAdd(c: Curve, pt: Point)
    requires c.p > 0
    ensures EcDouble(c, pt) == EcAdd(c, pt, pt)
  {
  }

  lemma OppositeSquare(n: int, y: int, v: int, p: nat)
    requires Cong(n, -y, p) && Cong(y * y, v, p)
    ensures Cong(n * n, v, p)
  {
    CongMul(n, -y, n, -y, p);
    assert (-y) * (-y) == y * y;
    CongTrans(n * n, y * y, v, p);
  }

  lemma NegOnCurve(c: Curve, pt: Point)
    requires c.p > 0 && OnCurve(c, pt)
    ensures OnCurve(c, Neg(c, pt))
  {
    if pt.Affine? { OppositeSquare(SubMod(0, pt.y, c.p), pt.y, Cubic(c, pt.x), c.p); }
  }

  /** Inverses exist, and the sum is infinity for the inverse only. */
  lemma AddInverse(c: Curve, p1: Point, p2: Point)
    requires Field(c) && OnCurve(c, p1) && OnCurve(c, p2)
    ensures OnCurve(c, Neg(c, p1))
    ensures EcAdd(c, p1, p2) == Infinity <==> p2 == Neg(c, p1)
  {
    NegOnCurve(c, p1);
    if p1.Affine? && p2.Affine? {
      if p1.x == p2.x {
        OppositeRoots(c, p1.x, p1.y, p2.y, SubMod(0, p1.y, c.p));
        if p1.y != 0 { TangentDouble(c, p1); }
        SelfOpposite(p1.y, SubMod(0, p1.y, c.p), c.p);
      } else {
        ChordAdd(c, p1, p2);
      }
    }
  }

  /** Only zero is its own opposite. */
  lemma SelfOpposite(y: int, n: int, p: nat)
    requires Prime(p) && p > 2 && 0 <= y < p && 0 <= n < p && Cong(n, -y, p)
    ensures n == y <==> y == 0
  {
    CongRefl(y, p);
    CongAdd(n, -y, y, y, p);
    if y == 0 {
      ReducedUnique(n, 0, p);
    } else {
      HalfInvertible(y, p);
    }
  }

  /** Two curve points on one vertical line are equal or opposite. */
  lemma OppositeRoots(c: Curve, x: nat, y1: int, y2: int, n: int)
    requires Prime(c.p) && 0 <= y1 && 0 <= y2
    requires OnCurve(c, Affine(x, y1)) && OnCurve(c, Affine(x, y2))
    requires 0 <= n < c.p && Cong(n, -y1, c.p)
    ensures y1 == y2 || y2 == n
  {
    var p := c.p;
    CongSym(y2 * y2, Cubic(c, x), p);
    CongTrans(y1 * y1, Cubic(c, x), y2 * y2, p);
    DifferenceOfSquares(y1, y2, p);
    if y1 != y2 {
      DistinctInvertible(y1, y2, p);
      PrimeCancel(y1 - y2, y1 + y2, p);
      OppositeUnique(y1, y2, n, p);
    }
  }

  lemma DifferenceOfSquares(y1: int, y2: int, p: nat)
    requires Cong(y1 * y1, y2 * y2, p)
    ensures Cong((y1 - y2) * (y1 + y2), 0, p)
  {
    var k: int :| Differ(y1 * y1, y2 * y2, k, p);
    assert (y1 - y2) * (y1 + y2) == y1 * y1 - y2 * y2;
    CongBy((y1 - y2) * (y1 + y2), 0, k, p);
  }

  lemma OppositeUnique(y1: int, y2: int, n: int, p: nat)
    requires 0 <= y2 < p && 0 <= n < p && Cong(y1 + y2, 0, p) && Cong(n, -y1, p)
    ensures y2 == n
  {
    CongRefl(y1, p);
    CongAdd(y1 + y2, 0, y1, y1, p);
    CongSym(n, -y1, p);
    CongTrans(y2, -y1, n, p);
    ReducedUnique(y2, n, p);
  }

  // ----- double-and-add -----

  /** The loop of `ec_mul` from a given state to its end. */
  function DoubleAndAdd(c: Curve, result: Point, base: Point, scalar: nat): Point
    requires c.p > 0
    decreases scalar
  {
    if scalar == 0 then result
    else DoubleAndAdd(c, if scalar % 2 == 1 then EcAdd(c, result, base) else result,
                      EcDouble(c, base), scalar / 2)
  }

  function EcMul(c: Curve, k: nat, pt: Point): Point
    requires c.p > 0
  {
    DoubleAndAdd(c, Infinity, pt, k)
  }

  method EcMulLoop(c: Curve, k: nat, pt: Point) returns (result: Point)
    requires c.p > 0
    ensures result == EcMul(c, k, pt)
  {
    if k == 0 { return Infinity; }
    var base, scalar := pt, k;
    result := Infinity;
    while scalar != 0
      invariant DoubleAndAdd(c, result, base, scalar) == EcMul(c, k, pt)
      decreases scalar
    {
      if scalar % 2 == 1 { result := EcAdd(c, result, base); }
      base := EcDouble(c, base);
      scalar := scalar / 2;
    }
  }

  /** k-fold addition. */
  function Times(c: Curve, k: nat, pt: Point): Point
    requires c.p > 0
  {
    if k == 0 then Infinity else EcAdd(c, Times(c, k - 1, pt), pt)
  }

  /** The associativity hypothesis. */
  ghost predicate Associative(c: Curve)
    requires c.p > 0
  {
    forall p1, p2, p3 {:trigger AssociativeAt(c, p1, p2, p3)} :: AssociativeAt(c, p1, p2, p3)
  }

  ghost predicate AssociativeAt(c: Curve, p1: Point, p2: Point, p3: Point)
    requires c.p > 0
  {
    OnCurve(c, p1) && OnCurve(c, p2) && OnCurve(c, p3) ==>
      EcAdd(c, EcAdd(c, p1, p2), p3) == EcAdd(c, p1, EcAdd(c, p2, p3))
  }

  ghost predicate Group(c: Curve) {
    Field(c) && Associative(c)
  }

  lemma {:induction false} TimesOnCurve(c: Curve, k: nat, pt: Point)
    requires Field(c) && OnCurve(c, pt)
    ensures OnCurve(c, Times(c, k, pt))
  {
    if k > 0 {
      TimesOnCurve(c, k - 1, pt);
      AddOnCurve(c, Times(c, k - 1, pt), pt);
    }
  }

  lemma AddInfinity(c: Curve, pt: Point)
    requires c.p > 0
    ensures EcAdd(c, pt, Infinity) == pt
  {
  }

  lemma {:induction false} TimesPlus(c: Curve, k: nat, l: nat, pt: Point)
    requires Group(c) && OnCurve(c, pt)
    ensures Times(c, k + l, pt) == EcAdd(c, Times(c, k, pt), Times(c, l, pt))
  {
    hide EcAdd; hide OnCurve;
    AddInfinity(c, Times(c, k, pt));
    if l > 0 {
      TimesPlus(c, k, l - 1, pt);
      TimesOnCurve(c, k, pt);
      TimesOnCurve(c, l - 1, pt);
      assert AssociativeAt(c, Times(c, k, pt), Times(c, l - 1, pt), pt);
      assert k + l - 1 == k + (l - 1);
    }
  }

  lemma {:induction false} TimesDouble(c: Curve, k: nat, pt: Point)
    requires Group(c) && OnCurve(c, pt)
    ensures Times(c, k, EcDouble(c, pt)) == Times(c, 2 * k, pt)
  {
    DoubleIsAdd(c, pt);
    if k > 0 {
      TimesDouble(c, k - 1, pt);
      TimesPlus(c, 2 * (k - 1), 2, pt);
      assert Times(c, 1, pt) == EcAdd(c, Times(c, 0, pt), pt) == pt;
      assert Times(c, 2, pt) == EcAdd(c, pt, pt);
    }
  }

  lemma {:induction false} DoubleAndAddMeaning(c: Curve, result: Point, base: Point, scalar: nat)
    requires Group(c) && OnCurve(c, result) && OnCurve(c, base)
    ensures DoubleAndAdd(c, result, base, scalar) == EcAdd(c, result, Times(c, scalar, base))
    decreases scalar
  {
    if scalar == 0 {
      assert EcAdd(c, result, Infinity) == result;
    } else {
      var result' := if scalar % 2 == 1 then EcAdd(c, result, base) else result;
      AddOnCurve(c, result, base);
      DoubleOnCurve(c, base);
      DoubleAndAddMeaning(c, result', EcDouble(c, base), scalar / 2);
      TimesDouble(c, scalar / 2, base);
      TimesOnCurve(c, 2 * (scalar / 2), base);
      assert AssociativeAt(c, result, base, Times(c, 2 * (scalar / 2), base));
      if scalar % 2 == 1 {
        TimesPlus(c, 1, 2 * (scalar / 2), base);
        assert Times(c, 1, base) == EcAdd(c, Times(c, 0, base), base) == base;
      }
    }
  }

  /** `ec_mul` is k-fold addition. */
  lemma EcMulMeaning(c: Curve, k: nat, pt: Point)
    requires Group(c) && OnCurve(c, pt)
    ensures EcMul(c, k, pt) == Times(c, k, pt) && OnCurve(c, EcMul(c, k, pt))
  {
    DoubleAndAddMeaning(c, Infinity, pt, k);
    TimesOnCurve(c, k, pt);
  }
}
