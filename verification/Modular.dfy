/** Arithmetic modulo m as the handshake uses it: congruences, the extended Euclidean
    inverse `mod_inv`, and what primality of the modulus adds. */
module Modular {
  import opened Wrappers

  // ----- congruence -----

  /** a and b differ by a multiple of m. */
  ghost predicate Cong(a: int, b: int, m: int) {
    exists k: int :: Differ(a, b, k, m)
  }

  predicate Differ(a: int, b: int, k: int, m: int) {
    a - b == k * m
  }

  lemma CongBy(a: int, b: int, k: int, m: int)
    requires a - b == k * m
    ensures Cong(a, b, m)
  {
    assert Differ(a, b, k, m);
  }

  lemma CongRefl(a: int, m: int)
    ensures Cong(a, a, m)
  {
    CongBy(a, a, 0, m);
  }

  lemma CongSym(a: int, b: int, m: int)
    requires Cong(a, b, m)
    ensures Cong(b, a, m)
  {
    var k :| Differ(a, b, k, m);
    assert b - a == (-k) * m;
    CongBy(b, a, -k, m);
  }

  lemma CongTrans(a: int, b: int, c: int, m: int)
    requires Cong(a, b, m) && Cong(b, c, m)
    ensures Cong(a, c, m)
  {
    var k :| Differ(a, b, k, m);
    var l :| Differ(b, c, l, m);
    assert a - c == (k + l) * m;
    CongBy(a, c, k + l, m);
  }

  lemma CongAdd(a: int, a': int, b: int, b': int, m: int)
    requires Cong(a, a', m) && Cong(b, b', m)
    ensures Cong(a + b, a' + b', m) && Cong(a - b, a' - b', m)
  {
    var k :| Differ(a, a', k, m);
    var l :| Differ(b, b', l, m);
    assert (a + b) - (a' + b') == (k + l) * m;
    assert (a - b) - (a' - b') == (k - l) * m;
    CongBy(a + b, a' + b', k + l, m);
    CongBy(a - b, a' - b', k - l, m);
  }

  lemma CongMul(a: int, a': int, b: int, b': int, m: int)
    requires Cong(a, a', m) && Cong(b, b', m)
    ensures Cong(a * b, a' * b', m)
  {
    var k :| Differ(a, a', k, m);
    var l :| Differ(b, b', l, m);
    MulDifference(a, a', b, b', k, l, m);
    CongBy(a * b, a' * b', k * b + a' * l, m);
  }

  lemma MulDifference(a: int, a': int, b: int, b': int, k: int, l: int, m: int)
    requires a - a' == k * m && b - b' == l * m
    ensures a * b - a' * b' == (k * b + a' * l) * m
  {
    assert a * b - a' * b' == (a - a') * b + a' * (b - b');
    assert (k * m) * b == (k * b) * m;
    assert a' * (l * m) == (a' * l) * m;
    assert (k * b) * m + (a' * l) * m == (k * b + a' * l) * m;
  }

  // ----- remainders -----

  lemma ModCong(a: int, m: int)
    requires m > 0
    ensures 0 <= a % m < m && Cong(a % m, a, m)
  {
    assert a == m * (a / m) + a % m;
    assert a % m - a == (-(a / m)) * m;
    CongBy(a % m, a, -(a / m), m);
  }

  /** Congruent numbers already reduced are equal. */
  lemma ReducedUnique(a: int, b: int, m: int)
    requires 0 <= a < m && 0 <= b < m && Cong(a, b, m)
    ensures a == b
  {
    var k :| Differ(a, b, k, m);
    assert k >= 1 ==> k * m >= m;
    assert k <= -1 ==> k * m <= -m;
  }

  lemma CongMod(a: int, b: int, m: int)
    requires m > 0
    ensures Cong(a, b, m) <==> a % m == b % m
  {
    ModCong(a, m);
    ModCong(b, m);
    CongSym(a % m, a, m);
    CongSym(b % m, b, m);
    if Cong(a, b, m) {
      CongTrans(a % m, a, b, m);
      CongTrans(a % m, b, b % m, m);
      ReducedUnique(a % m, b % m, m);
    }
    if a % m == b % m {
      CongTrans(a, a % m, b, m);
    }
  }

  lemma SmallMod(a: int, m: int)
    requires 0 <= a < m
    ensures a % m == a
  {
    ModCong(a, m);
    ReducedUnique(a % m, a, m);
  }

  /** The subtraction pattern of `ec_add` and `ec_double` on unsigned integers. */
  function SubMod(u: nat, v: nat, m: nat): (r: nat)
    requires m > 0
    ensures r < m && Cong(r, u - v, m)
  {
    if u >= v then
      ModCong(u - v, m);
      (u - v) % m
    else
      ModCong(v - u, m);
      ModCong(m - (v - u) % m, m);
      CongRefl(m, m);
      CongBy(m, 0, 1, m);
      CongAdd(m, 0, (v - u) % m, v - u, m);
      CongTrans((m - (v - u) % m) % m, m - (v - u) % m, u - v, m);
      (m - (v - u) % m) % m
  }

  // ----- mod_inv -----

  /** The loop of `mod_inv` from a given state to its end: the last remainder and cofactor. */
  function Euclid(oldR: nat, r: nat, oldS: int, s: int): (nat, int)
    decreases r
  {
    if r == 0 then (oldR, oldS)
    else Euclid(r, oldR % r, s, oldS - (oldR / r) * s)
  }

  function ModInv(a: nat, m: nat): (v: Option<nat>)
    requires m >= 1
    ensures v.Some? ==> v.value < m
  {
    var (g, x) := Euclid(a, m, 1, 0);
    if g != 1 then None
    else
      EuclidRun(a, m, a, m, 1, 0);
      if x < 0 then Some(x + m) else Some(x)
  }

  predicate Divides(d: nat, a: nat)
    requires d > 0
  {
    a % d == 0
  }

  /** gcd(a, m) = 1, said without computing it. */
  ghost predicate Coprime(a: nat, m: nat) {
    forall d: nat :: d > 1 && Divides(d, a) ==> !Divides(d, m)
  }

  function Abs(x: int): nat { if x < 0 then -x else x }

  /** What every state of the loop keeps: the cofactors represent the remainders, their signs
      differ, and old_r*|s| + r*|old_s| = m, which bounds them. */
  ghost predicate EuclidState(a: nat, m: nat, oldR: nat, r: nat, oldS: int, s: int) {
    && Cong(oldR, oldS * a, m) && Cong(r, s * a, m)
    && ((oldS >= 0 && s <= 0) || (oldS <= 0 && s >= 0))
    && oldR * Abs(s) + r * Abs(oldS) == m
    && (Initial(a, m, oldR, r, oldS, s) || (oldR > r && 2 * Abs(oldS) <= m))
  }

  predicate Initial(a: nat, m: nat, oldR: nat, r: nat, oldS: int, s: int) {
    oldR == a && r == m && oldS == 1 && s == 0
  }

  lemma EuclidStep(a: nat, m: nat, oldR: nat, r: nat, oldS: int, s: int)
    requires m >= 1 && r > 0 && EuclidState(a, m, oldR, r, oldS, s)
    ensures EuclidState(a, m, r, oldR % r, s, oldS - (oldR / r) * s)
  {
    var q, r' := DivMod(oldR, r);
    CofactorStep(a, m, oldR, r, oldS, s, q);
    SignsAlternate(q, oldS, s);
    WeightStep(m, oldR, r, Abs(oldS), Abs(s), q);
    if Initial(a, m, oldR, r, oldS, s) {
    } else {
      CofactorBound(m, oldR, r, Abs(oldS), Abs(s));
    }
  }

  lemma DivMod(x: nat, r: nat) returns (q: nat, r': nat)
    requires r > 0
    ensures q == x / r && r' == x % r && r' < r && r' == x - q * r
  {
    q, r' := x / r, x % r;
  }

  lemma CofactorBound(m: nat, oldR: nat, r: nat, u: nat, v: nat)
    requires oldR > r > 0 && oldR * v + r * u == m
    ensures 2 * v <= m
  {
    assert r * u >= 0 && oldR * v >= 2 * v;
  }

  lemma CofactorStep(a: nat, m: nat, oldR: nat, r: nat, oldS: int, s: int, q: nat)
    requires Cong(oldR, oldS * a, m) && Cong(r, s * a, m)
    ensures Cong(oldR - q * r, (oldS - q * s) * a, m)
  {
    CongRefl(q, m);
    CongMul(q, q, r, s * a, m);
    CongAdd(oldR, oldS * a, q * r, q * (s * a), m);
    assert oldS * a - q * (s * a) == (oldS - q * s) * a;
  }

  lemma WeightStep(m: nat, oldR: nat, r: nat, u: nat, v: nat, q: nat)
    requires oldR * v + r * u == m
    ensures r * (u + q * v) + (oldR - q * r) * v == m
  {
    assert r * (u + q * v) == r * u + (q * r) * v;
    assert (oldR - q * r) * v == oldR * v - (q * r) * v;
  }

  lemma SignsAlternate(q: nat, oldS: int, s: int)
    requires (oldS >= 0 && s <= 0) || (oldS <= 0 && s >= 0)
    ensures var s' := oldS - q * s;
            && Abs(s') == Abs(oldS) + q * Abs(s)
            && ((s >= 0 && s' <= 0) || (s <= 0 && s' >= 0))
  {
    if s <= 0 {
      assert q * s == -(q * Abs(s)) && q * Abs(s) >= 0;
    } else {
      assert q * s == q * Abs(s) && q * Abs(s) >= 0;
    }
  }

  /** From any state the loop keeps, its end has remainder gcd(a, m) and a cofactor in (-m, m). */
  lemma {:induction false} EuclidRun(a: nat, m: nat, oldR: nat, r: nat, oldS: int, s: int)
    requires m >= 1
    requires EuclidState(a, m, oldR, r, oldS, s) || Initial(a, m, oldR, r, oldS, s)
    ensures var (g, x) := Euclid(oldR, r, oldS, s);
            && Cong(g, x * a, m) && g > 0 && -(m as int) < x < m
            && (forall d: nat :: d > 0 ==> ((Divides(d, oldR) && Divides(d, r)) <==> Divides(d, g)))
    decreases r
  {
    if Initial(a, m, oldR, r, oldS, s) {
      CongRefl(a, m);
      CongBy(m, 0, 1, m);
    }
    assert EuclidState(a, m, oldR, r, oldS, s);
    if r == 0 {
      assert oldR == 0 ==> oldR * Abs(s) == 0;
      forall d: nat | d > 0 ensures Divides(d, 0) {}
    } else {
      EuclidStep(a, m, oldR, r, oldS, s);
      EuclidRun(a, m, r, oldR % r, s, oldS - (oldR / r) * s);
      forall d: nat | d > 0
        ensures (Divides(d, oldR) && Divides(d, r)) <==> (Divides(d, r) && Divides(d, oldR % r))
      {
        if Divides(d, r) { DividesRemainder(d, oldR, r); }
      }
    }
  }

  lemma DividesRemainder(d: nat, x: nat, r: nat)
    requires d > 0 && r > 0 && Divides(d, r)
    ensures Divides(d, x) <==> Divides(d, x % r)
  {
    var q, k := x / r, r / d;
    assert x == q * r + x % r && r == d * k;
    assert q * (d * k) == (q * k) * d;
    CongBy(x, x % r, q * k, d);
    CongMod(x, x % r, d);
  }

  /** `mod_inv` answers exactly when a is coprime to m, and then with the unique inverse below m. */
  lemma ModInvCorrect(a: nat, m: nat)
    requires m >= 1
    ensures ModInv(a, m).Some? <==> Coprime(a, m)
    ensures ModInv(a, m).Some? ==> Cong(ModInv(a, m).value * a, 1, m)
    ensures forall v: nat :: ModInv(a, m).Some? && v < m && Cong(v * a, 1, m) ==> v == ModInv(a, m).value
  {
    var (g, x) := Euclid(a, m, 1, 0);
    EuclidRun(a, m, a, m, 1, 0);
    if g != 1 {
      assert Divides(g, g);
      assert Divides(g, a) && Divides(g, m);
    } else {
      var v := ModInv(a, m).value;
      if x < 0 {
        assert (x + m) * a - x * a == a * m;
        CongBy(v * a, x * a, a, m);
      } else {
        CongRefl(v * a, m);
      }
      CongSym(1, x * a, m);
      CongTrans(v * a, x * a, 1, m);
      CoprimeFromInverse(a, m);
      forall w: nat | w < m && Cong(w * a, 1, m) ensures w == v {
        InverseUnique(a, m, v, w);
      }
    }
  }

  lemma CoprimeFromInverse(a: nat, m: nat)
    requires m >= 1
    requires Euclid(a, m, 1, 0).0 == 1
    ensures Coprime(a, m)
  {
    EuclidRun(a, m, a, m, 1, 0);
    forall d: nat | d > 1 && Divides(d, a) ensures !Divides(d, m) {
      assert !Divides(d, 1);
    }
  }

  lemma InverseUnique(a: nat, m: nat, v: nat, w: nat)
    requires v < m && w < m && Cong(v * a, 1, m) && Cong(w * a, 1, m)
    ensures v == w
  {
    CongRefl(v, m);
    CongRefl(w, m);
    CongMul(w, w, v * a, 1, m);
    CongMul(v, v, w * a, 1, m);
    assert w * (v * a) == v * (w * a);
    CongSym(w * (v * a), w * 1, m);
    CongTrans(w, w * (v * a), v, m);
    ReducedUnique(w, v, m);
  }

  /** `mod_inv` as written: the sign fix is one addition, and the conversion to an unsigned value
      cannot fail. */
  method ModInvLoop(a: nat, m: nat) returns (v: Option<nat>)
    requires m >= 1
    ensures v == ModInv(a, m)
  {
    hide Cong; hide EuclidState; hide Divides;
    var oldR, r := a, m;
    var oldS: int, s: int := 1, 0;
    while r != 0
      invariant Euclid(oldR, r, oldS, s) == Euclid(a, m, 1, 0)
      decreases r
    {
      var q := oldR / r;
      var tempR := r;
      r := oldR % r;
      oldR := tempR;
      var tempS := s;
      s := oldS - q * s;
      oldS := tempS;
    }
    if oldR != 1 { return None; }
    EuclidRun(a, m, a, m, 1, 0);
    if oldS < 0 { oldS := oldS + m; }
    return Some(oldS);
  }

  // ----- prime moduli -----

  ghost predicate Prime(p: nat) {
    p > 1 && forall d: nat :: 1 < d < p ==> !Divides(d, p)
  }

  lemma PrimeCoprime(a: nat, p: nat)
    requires Prime(p) && 0 < a < p
    ensures Coprime(a, p)
  {
    forall d: nat | d > 1 && Divides(d, a) ensures !Divides(d, p) {
      assert a == d * (a / d);
      assert a / d >= 1;
      assert d <= a;
    }
  }

  /** Below a prime, `mod_inv` never takes its None exit on a nonzero argument. */
  lemma PrimeInverse(a: nat, p: nat)
    requires Prime(p) && 0 < a < p
    ensures ModInv(a, p).Some? && Cong(ModInv(a, p).value * a, 1, p)
  {
    PrimeCoprime(a, p);
    ModInvCorrect(a, p);
  }

  /** A product congruent to zero modulo a prime has a factor congruent to zero. */
  lemma PrimeCancel(a: int, b: int, p: nat)
    requires Prime(p) && Cong(a * b, 0, p) && !Cong(a, 0, p)
    ensures Cong(b, 0, p)
  {
    ModCong(a, p);
    var a0: nat := a % p;
    if a0 == 0 { CongSym(0, a, p); }
    PrimeInverse(a0, p);
    var v := ModInv(a0, p).value;
    CongRefl(v, p);
    CongRefl(b, p);
    CongMul(v, v, a0, a, p);
    CongSym(v * a0, 1, p);
    CongTrans(1, v * a0, v * a, p);
    CongMul(1, v * a, b, b, p);
    CongMul(v, v, a * b, 0, p);
    assert (v * a) * b == v * (a * b);
    CongTrans(b, v * (a * b), 0, p);
  }
}
