/** A curve of seven points over GF(3) that meets every hypothesis the handshake's theorems rest on. */
module SmallCurve {
  import opened Wrappers
  import opened Modular
  import opened C = Curve
  import opened Bytes
  import opened Ecdsa

  /** y^2 = x^3 + 2x + 1 over GF(3). */
  const TINY: C.Curve := C.Curve.Curve(3, 2, 1)

  /** The multiples of the generator (0, 1). */
  function Multiple(i: nat): Point
    requires i < 7
  {
    match i
    case 0 => Infinity case 1 => Affine(0, 1) case 2 => Affine(1, 1) case 3 => Affine(2, 2)
    case 4 => Affine(2, 1) case 5 => Affine(1, 2) case _ => Affine(0, 2)
  }

  lemma Inverses()
    ensures ModInv(1, 3) == Some(1) && ModInv(2, 3) == Some(2)
  {
    assert Euclid(1, 3, 1, 0) == Euclid(3, 1, 0, 1) == Euclid(1, 0, 1, -3) == (1, 1);
    assert Euclid(2, 3, 1, 0) == Euclid(3, 2, 0, 1) == Euclid(2, 1, 1, -1) == Euclid(1, 0, -1, 3) == (1, -1);
  }

  lemma Differences()
    ensures SubMod(0, 0, 3) == 0 && SubMod(0, 1, 3) == 2 && SubMod(0, 2, 3) == 1
    ensures SubMod(1, 0, 3) == 1 && SubMod(1, 1, 3) == 0 && SubMod(1, 2, 3) == 2
    ensures SubMod(2, 0, 3) == 2 && SubMod(2, 1, 3) == 1 && SubMod(2, 2, 3) == 0
  {
  }

  /** A chord, worked out step by step. */
  lemma Chord(x1: nat, y1: nat, x2: nat, y2: nat, inv: nat, lam: nat, x3: nat, y3: nat)
    requires x1 != x2 && ModInv(SubMod(x2, x1, 3), 3) == Some(inv) && (SubMod(y2, y1, 3) * inv) % 3 == lam
    requires SubMod((lam * lam) % 3, (x1 + x2) % 3, 3) == x3 && SubMod((lam * SubMod(x1, x3, 3)) % 3, y1, 3) == y3
    ensures EcAdd(TINY, Affine(x1, y1), Affine(x2, y2)) == Affine(x3, y3)
  {
    hide ModInv; hide SubMod;
  }

  /** A tangent likewise. */
  lemma Double(x: nat, y: nat, inv: nat, lam: nat, x3: nat, y3: nat)
    requires y != 0 && ModInv((2 * y) % 3, 3) == Some(inv) && (((3 * x * x + 2) % 3) * inv) % 3 == lam
    requires SubMod((lam * lam) % 3, (2 * x) % 3, 3) == x3 && SubMod((lam * SubMod(x, x3, 3)) % 3, y, 3) == y3
    ensures EcAdd(TINY, Affine(x, y), Affine(x, y)) == Affine(x3, y3)
  {
    hide ModInv; hide SubMod;
  }

  lemma Doubles(i: nat)
    requires 0 < i < 7
    ensures EcAdd(TINY, Multiple(i), Multiple(i)) == Multiple((i + i) % 7)
  {
    hide ModInv; hide SubMod; hide EcAdd;
    Inverses();
    Differences();
    Double(0, 1, 2, 1, 1, 1);
    Double(1, 1, 2, 1, 2, 1);
    Double(2, 2, 1, 2, 0, 2);
    Double(2, 1, 2, 1, 0, 1);
    Double(1, 2, 1, 2, 2, 2);
    Double(0, 2, 1, 2, 1, 2);
  }

  lemma Chords(i: nat, j: nat)
    requires 0 < i < j < 7 && i + j != 7
    ensures EcAdd(TINY, Multiple(i), Multiple(j)) == Multiple((i + j) % 7)
  {
    hide ModInv; hide SubMod; hide EcAdd;
    Inverses();
    Differences();
    Chord(0, 1, 1, 1, 1, 0, 2, 2);
    Chord(0, 1, 2, 2, 2, 2, 2, 1);
    Chord(0, 1, 2, 1, 2, 0, 1, 2);
    Chord(0, 1, 1, 2, 1, 1, 0, 2);
    Chord(1, 1, 2, 2, 1, 1, 1, 2);
    Chord(1, 1, 2, 1, 1, 0, 0, 2);
    Chord(1, 1, 0, 2, 2, 2, 0, 1);
    Chord(2, 2, 1, 2, 2, 0, 0, 1);
    Chord(2, 2, 0, 2, 1, 0, 1, 1);
    Chord(2, 1, 1, 2, 2, 2, 1, 1);
    Chord(2, 1, 0, 2, 1, 1, 2, 2);
    Chord(1, 2, 0, 2, 2, 0, 2, 1);
  }

  lemma Primes()
    ensures Prime(3) && Prime(7)
  {
    forall d: nat | 1 < d < 3 ensures !Divides(d, 3) { assert d == 2; }
    forall d: nat | 1 < d < 7 ensures !Divides(d, 7) { assert d == 2 || d == 3 || d == 4 || d == 5 || d == 6; }
  }

  /** The seven multiples are all the points there are. */
  lemma Index(pt: Point) returns (i: nat)
    requires OnCurve(TINY, pt)
    ensures i < 7 && Multiple(i) == pt
  {
    if pt.Infinity? { return 0; }
    PointOnCurveMeaning(TINY, pt.x, pt.y);
    if pt.x == 0 { i := if pt.y == 1 then 1 else 6; }
    else if pt.x == 1 { i := if pt.y == 1 then 2 else 5; }
    else { i := if pt.y == 2 then 3 else 4; }
  }

  lemma MultipleOnCurve(i: nat)
    requires i < 7
    ensures OnCurve(TINY, Multiple(i))
  {
    if i > 0 { PointOnCurveMeaning(TINY, Multiple(i).x, Multiple(i).y); }
  }

  /** Addition of multiples is addition modulo seven. */
  lemma Table(i: nat, j: nat)
    requires i < 7 && j < 7
    ensures EcAdd(TINY, Multiple(i), Multiple(j)) == Multiple((i + j) % 7)
  {
    hide EcAdd; hide OnCurve;
    Primes();
    MultipleOnCurve(i);
    MultipleOnCurve(j);
    if i == 0 || j == 0 {
      AddIdentity(TINY, Multiple(i));
      AddIdentity(TINY, Multiple(j));
    } else if i == j {
      Doubles(i);
    } else if i + j == 7 {
      AddInverse(TINY, Multiple(i), Multiple(j));
      Differences();
    } else if i < j {
      Chords(i, j);
    } else {
      Chords(j, i);
      AddCommutes(TINY, Multiple(i), Multiple(j));
    }
  }

  lemma SumsAgree(i: nat, j: nat, k: nat)
    ensures ((i + j) % 7 + k) % 7 == (i + (j + k) % 7) % 7
  {
  }

  lemma TinyAssociative(p1: Point, p2: Point, p3: Point)
    ensures AssociativeAt(TINY, p1, p2, p3)
  {
    hide EcAdd; hide OnCurve; hide Multiple;
    if OnCurve(TINY, p1) && OnCurve(TINY, p2) && OnCurve(TINY, p3) {
      var i := Index(p1);
      var j := Index(p2);
      var k := Index(p3);
      Table(i, j);
      Table((i + j) % 7, k);
      Table(j, k);
      Table(i, (j + k) % 7);
      SumsAgree(i, j, k);
    }
  }

  lemma TinyGroup()
    ensures Group(TINY)
  {
    hide EcAdd; hide OnCurve; hide AssociativeAt;
    Primes();
    forall p1, p2, p3 ensures AssociativeAt(TINY, p1, p2, p3) { TinyAssociative(p1, p2, p3); }
  }

  lemma {:induction false} TinyTimes(k: nat)
    ensures Times(TINY, k, Multiple(1)) == Multiple(k % 7)
  {
    hide EcAdd;
    if k > 0 {
      TinyTimes(k - 1);
      Table((k - 1) % 7, 1);
      assert ((k - 1) % 7 + 1) % 7 == k % 7;
    }
  }

  lemma {:induction false} PowersExceed(width: nat)
    requires width >= 1
    ensures Pow256(width) >= 256
  {
    if width > 1 { PowersExceed(width - 1); }
  }

  /** The hypotheses can all be met at once, with any hash and any width. */
  lemma HypothesesMet(width: nat, hash: seq<byte> -> seq<byte>)
    requires width >= 16
    ensures Hypotheses(Suite(TINY, 7, Multiple(1), width, hash))
  {
    hide Times; hide EcAdd;
    Primes();
    TinyGroup();
    TinyTimes(7);
    MultipleOnCurve(1);
    PowersExceed(width);
  }
}
