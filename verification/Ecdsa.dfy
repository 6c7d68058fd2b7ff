/** ECDSA (sections 4.1.3 and 4.1.4 of SEC 1) and the Diffie-Hellman bus key, over any curve that
    meets the named hypotheses. The hash is an arbitrary function. */
module Ecdsa {
  import opened Wrappers
  import opened Modular
  import opened Curve
  import opened Bytes

  /** One cipher suite: curve, order, generator, field width in bytes and message hash. */
  datatype Suite = Suite(curve: Curve, n: nat, g: Point, width: nat, hash: seq<byte> -> seq<byte>)

  /** What every operation needs to be defined. */
  predicate Usable(su: Suite) {
    su.curve.p > 0 && su.n > 0 && su.width >= 16
  }

  /** The hypotheses about the published constants: p an odd prime, the group law associative,
      n a prime order of the generator, and both moduli below 256^width. */
  ghost predicate Hypotheses(su: Suite) {
    && Usable(su) && Group(su.curve)
    && Prime(su.n) && su.g.Affine? && OnCurve(su.curve, su.g)
    && Times(su.curve, su.n, su.g) == Infinity
    && su.curve.p <= Pow256(su.width) && su.n <= Pow256(su.width)
  }

  // ----- scalars of the generated group -----

  lemma {:induction false} TimesTimes(c: Curve, k: nat, l: nat, pt: Point)
    requires Group(c) && OnCurve(c, pt)
    ensures Times(c, k, Times(c, l, pt)) == Times(c, k * l, pt)
  {
    hide EcAdd; hide OnCurve; hide Associative; hide Prime;
    TimesOnCurve(c, l, pt);
    if k > 0 {
      TimesTimes(c, k - 1, l, pt);
      TimesPlus(c, (k - 1) * l, l, pt);
      assert (k - 1) * l + l == k * l;
    } else {
      assert 0 * l == 0;
    }
  }

  lemma {:induction false} TimesInfinity(c: Curve, k: nat)
    requires c.p > 0
    ensures Times(c, k, Infinity) == Infinity
  {
    if k > 0 { TimesInfinity(c, k - 1); }
  }

  lemma AddIdentity(c: Curve, pt: Point)
    requires c.p > 0
    ensures EcAdd(c, Infinity, pt) == pt && EcAdd(c, pt, Infinity) == pt
  {
  }

  lemma TimesSplit(su: Suite, q: nat, t: nat)
    requires Hypotheses(su)
    ensures Times(su.curve, q * su.n + t, su.g) == Times(su.curve, t, su.g)
  {
    TimesOnCurve(su.curve, t, su.g);
    AddIdentity(su.curve, Times(su.curve, t, su.g));
    TimesPlus(su.curve, q * su.n, t, su.g);
    TimesTimes(su.curve, q, su.n, su.g);
    TimesInfinity(su.curve, q);
  }

  /** Scalars act modulo the order. */
  lemma TimesMod(su: Suite, k: nat)
    requires Hypotheses(su)
    ensures Times(su.curve, k, su.g) == Times(su.curve, k % su.n, su.g)
  {
    var q, t := DivMod(k, su.n);
    TimesSplit(su, q, t);
  }

  lemma TimesCong(su: Suite, k: nat, l: nat)
    requires Hypotheses(su) && Cong(k, l, su.n)
    ensures Times(su.curve, k, su.g) == Times(su.curve, l, su.g)
  {
    CongMod(k, l, su.n);
    TimesMod(su, k);
    TimesMod(su, l);
  }

  lemma TimesOne(c: Curve, pt: Point)
    requires c.p > 0
    ensures Times(c, 1, pt) == pt
  {
    assert Times(c, 0, pt) == Infinity;
  }

  lemma TimesInvertible(su: Suite, v: nat, k: nat)
    requires Hypotheses(su) && Cong(v * k, 1, su.n)
    ensures Times(su.curve, k, su.g).Affine?
  {
    hide EcAdd; hide OnCurve; hide Group; hide Prime; hide Times; hide Cong;
    TimesTimes(su.curve, v, k, su.g);
    TimesCong(su, v * k, 1);
    TimesOne(su.curve, su.g);
    TimesInfinity(su.curve, v);
  }

  /** The generator has exactly order n: no scalar prime to n sends it to infinity. */
  lemma TimesNonzero(su: Suite, k: nat)
    requires Hypotheses(su) && !Cong(k, 0, su.n)
    ensures Times(su.curve, k, su.g).Affine?
  {
    var q, t := DivMod(k, su.n);
    CongBy(k, t, q, su.n);
    PrimeInverse(t, su.n);
    TimesInvertible(su, ModInv(t, su.n).value, t);
    TimesCong(su, k, t);
  }

  // ----- signing and verifying -----

  function Z(su: Suite, data: seq<byte>): nat { FromBytes(su.hash(data)) }

  function SigR(su: Suite, k: nat): nat
    requires Usable(su)
  {
    X(EcMul(su.curve, k, su.g)) % su.n
  }

  /** One pass of the signing loop with the candidate nonce k: None where the source redraws. */
  function SignOnce(su: Suite, d: nat, z: nat, k: nat): Option<(nat, nat)>
    requires Usable(su)
  {
    if k == 0 || k >= su.n then None
    else if SigR(su, k) == 0 then None
    else
      match ModInv(k, su.n)
      case None => None
      case Some(inv) =>
        var s := (inv * ((z + SigR(su, k) * d) % su.n)) % su.n;
        if s == 0 then None else Some((SigR(su, k), s))
  }

  /** The i-th draw is the first one the signing loop does not reject. */
  ghost predicate FirstUsable(su: Suite, priv: seq<byte>, data: seq<byte>, draws: nat -> nat, i: nat)
    requires Usable(su)
  {
    && SignOnce(su, FromBytes(priv), Z(su, data), draws(i)).Some?
    && forall j: nat :: j < i ==> SignOnce(su, FromBytes(priv), Z(su, data), draws(j)).None?
  }

  /** The signing loop over a stream of random draws, one of which is usable: it signs with the first
      that is. */
  method Sign(su: Suite, priv: seq<byte>, data: seq<byte>, draws: nat -> nat, ghost good: nat)
    returns (r: seq<byte>, s: seq<byte>)
    requires Usable(su)
    requires SignOnce(su, FromBytes(priv), Z(su, data), draws(good)).Some?
    ensures exists i: nat :: FirstUsable(su, priv, data, draws, i) && SignedWith(su, priv, data, draws(i), r, s)
  {
    hide SignOnce;
    var i := 0;
    var sig := SignOnce(su, FromBytes(priv), Z(su, data), draws(0));
    while sig.None?
      invariant i <= good && sig == SignOnce(su, FromBytes(priv), Z(su, data), draws(i))
      invariant forall j: nat :: j < i ==> SignOnce(su, FromBytes(priv), Z(su, data), draws(j)).None?
      decreases good - i
    {
      i := i + 1;
      sig := SignOnce(su, FromBytes(priv), Z(su, data), draws(i));
    }
    r, s := ToBytes(sig.value.0, su.width), ToBytes(sig.value.1, su.width);
    assert FirstUsable(su, priv, data, draws, i) && SignedWith(su, priv, data, draws(i), r, s);
  }

  predicate SignedWith(su: Suite, priv: seq<byte>, data: seq<byte>, k: nat, r: seq<byte>, s: seq<byte>)
    requires Usable(su)
  {
    var sig := SignOnce(su, FromBytes(priv), Z(su, data), k);
    sig.Some? && r == ToBytes(sig.value.0, su.width) && s == ToBytes(sig.value.1, su.width)
  }

  /** (r, s) is a possible outcome of signing data with priv. */
  ghost predicate IsSignature(su: Suite, priv: seq<byte>, data: seq<byte>, r: seq<byte>, s: seq<byte>)
    requires Usable(su)
  {
    exists k: nat :: SignedWith(su, priv, data, k, r, s)
  }

  /** `ecdsa_verify` and `ecdsa_verify_p256`. */
  predicate Verify(su: Suite, pubX: seq<byte>, pubY: seq<byte>, sigR: seq<byte>, sigS: seq<byte>, data: seq<byte>)
    requires Usable(su)
  {
    var c, n := su.curve, su.n;
    var qx, qy := FromBytes(pubX), FromBytes(pubY);
    var r, s, z := FromBytes(sigR), FromBytes(sigS), Z(su, data);
    && PointOnCurve(c, qx, qy)
    && !(r == 0 || r >= n || s == 0 || s >= n)
    && match ModInv(s, n) {
         case None => false
         case Some(inv) =>
           var sum := EcAdd(c, EcMul(c, (z * inv) % n, su.g), EcMul(c, (r * inv) % n, Affine(qx, qy)));
           sum.Affine? && sum.x % n == r
       }
  }

  /** The public key (pubX, pubY) belongs to the private key priv. */
  predicate KeyPair(su: Suite, priv: seq<byte>, pubX: seq<byte>, pubY: seq<byte>)
    requires Usable(su)
  {
    Times(su.curve, FromBytes(priv), su.g) == Affine(FromBytes(pubX), FromBytes(pubY))
  }

  lemma SignatureTimesNonce(n: nat, k: int, inv: int, s: int, e: int)
    requires Cong(inv * k, 1, n) && Cong(s, inv * e, n)
    ensures Cong(s * k, e, n)
  {
    CongRefl(k, n);
    CongMul(s, inv * e, k, k, n);
    CongRefl(e, n);
    CongMul(inv * k, 1, e, e, n);
    assert (inv * e) * k == (inv * k) * e;
    CongTrans(s * k, (inv * k) * e, e, n);
  }

  lemma InverseTimes(n: nat, sInv: int, s: int, k: int, e: int)
    requires Cong(sInv * s, 1, n) && Cong(s * k, e, n)
    ensures Cong(sInv * e, k, n)
  {
    CongRefl(sInv, n);
    CongSym(s * k, e, n);
    CongMul(sInv, sInv, e, s * k, n);
    CongRefl(k, n);
    CongMul(sInv * s, 1, k, k, n);
    assert sInv * (s * k) == (sInv * s) * k;
    CongTrans(sInv * e, (sInv * s) * k, k, n);
  }

  lemma ReducedProduct(inv: int, e: int, n: nat)
    requires n > 0
    ensures Cong((inv * (e % n)) % n, inv * e, n)
  {
    ModCong(e, n);
    CongRefl(inv, n);
    CongMul(inv, inv, e % n, e, n);
    ModCong(inv * (e % n), n);
    CongTrans((inv * (e % n)) % n, inv * (e % n), inv * e, n);
  }

  lemma SignatureParts(su: Suite, d: nat, z: nat, k: nat)
    requires Hypotheses(su) && SignOnce(su, d, z, k).Some?
    ensures var sig := SignOnce(su, d, z, k).value;
            && 0 < sig.0 < su.n && 0 < sig.1 < su.n && 0 < k < su.n
            && Times(su.curve, k, su.g).Affine? && Times(su.curve, k, su.g).x % su.n == sig.0
            && ModInv(k, su.n).Some? && Cong(ModInv(k, su.n).value * k, 1, su.n)
            && sig.1 == (ModInv(k, su.n).value * ((z + sig.0 * d) % su.n)) % su.n
  {
    EcMulMeaning(su.curve, k, su.g);
    PrimeInverse(k, su.n);
    if X(EcMul(su.curve, k, su.g)) == 0 { SmallMod(0, su.n); }
    ModCong(X(EcMul(su.curve, k, su.g)), su.n);
    ModCong(ModInv(k, su.n).value * ((z + SigR(su, k) * d) % su.n), su.n);
  }

  /** The point the verifier computes is the signer's nonce point. */
  lemma VerifierPoint(su: Suite, d: nat, u1: nat, u2: nat, k: nat)
    requires Hypotheses(su) && Cong(u1 + u2 * d, k, su.n)
    ensures EcAdd(su.curve, EcMul(su.curve, u1, su.g), EcMul(su.curve, u2, Times(su.curve, d, su.g)))
         == Times(su.curve, k, su.g)
  {
    hide EcAdd;
    hide EcMul;
    var c := su.curve;
    TimesOnCurve(c, d, su.g);
    EcMulMeaning(c, u1, su.g);
    EcMulMeaning(c, u2, Times(c, d, su.g));
    TimesTimes(c, u2, d, su.g);
    TimesPlus(c, u1, u2 * d, su.g);
    TimesCong(su, u1 + u2 * d, k);
  }

  // ----- what verification means -----

  /** The scalars of a verification, without inversion: s u = z and s v = r modulo n. The point they
      combine to has the x-coordinate the signature claims. */
  ghost predicate Combines(su: Suite, q: Point, r: nat, s: nat, z: nat, u: nat, v: nat)
    requires Usable(su)
  {
    && u < su.n && v < su.n && Cong(s * u, z, su.n) && Cong(s * v, r, su.n)
    && var sum := EcAdd(su.curve, Times(su.curve, u, su.g), Times(su.curve, v, q));
       sum.Affine? && sum.x % su.n == r
  }

  /** (r, s) is a signature of data under the public key (pubX, pubY), as section 4.1.4 of SEC 1 has it. */
  ghost predicate Genuine(su: Suite, pubX: seq<byte>, pubY: seq<byte>, sigR: seq<byte>, sigS: seq<byte>,
                          data: seq<byte>)
    requires Usable(su)
  {
    var q, r, s := Affine(FromBytes(pubX), FromBytes(pubY)), FromBytes(sigR), FromBytes(sigS);
    && OnCurve(su.curve, q) && 0 < r < su.n && 0 < s < su.n
    && exists u: nat, v: nat :: Combines(su, q, r, s, Z(su, data), u, v)
  }

  /** The one residue that s takes to z. */
  lemma Quotient(n: nat, s: nat, inv: nat, z: nat, u: nat)
    requires n > 0 && Cong(inv * s, 1, n) && u == (z * inv) % n
    ensures u < n && Cong(s * u, z, n)
    ensures forall w: nat :: w < n && Cong(s * w, z, n) ==> w == u
  {
    hide Cong;
    assert u < n && Cong(u, z * inv, n) by { ModCong(z * inv, n); }
    assert Cong(s * u, z, n) by { TimesQuotient(n, s, inv, z, u); }
    forall w: nat | w < n && Cong(s * w, z, n) ensures w == u {
      InverseTimes(n, inv, s, w, z);
      assert inv * z == z * inv;
      CongTrans(u, inv * z, w, n);
      ReducedUnique(u, w, n);
    }
  }

  lemma TimesQuotient(n: nat, s: nat, inv: nat, z: nat, u: nat)
    requires Cong(inv * s, 1, n) && Cong(u, z * inv, n)
    ensures Cong(s * u, z, n)
  {
    hide Cong;
    CongRefl(s, n);
    CongMul(s, s, u, z * inv, n);
    CongRefl(z, n);
    CongMul(z, z, inv * s, 1, n);
    assert s * (z * inv) == z * (inv * s);
    CongTrans(s * u, s * (z * inv), z * 1, n);
  }

  /** `ecdsa_verify` accepts exactly the genuine signatures, for every public key, message and pair. */
  lemma VerifyMeaning(su: Suite, pubX: seq<byte>, pubY: seq<byte>, sigR: seq<byte>, sigS: seq<byte>, data: seq<byte>)
    requires Hypotheses(su)
    ensures Verify(su, pubX, pubY, sigR, sigS, data) <==> Genuine(su, pubX, pubY, sigR, sigS, data)
  {
    hide EcAdd; hide EcMul; hide Times; hide OnCurve; hide PointOnCurve; hide ModInv; hide FromBytes; hide Associative;
    hide Prime; hide Cong;
    var q, r, s := Affine(FromBytes(pubX), FromBytes(pubY)), FromBytes(sigR), FromBytes(sigS);
    PointOnCurveMeaning(su.curve, q.x, q.y);
    if OnCurve(su.curve, q) && 0 < r < su.n && 0 < s < su.n {
      PrimeInverse(s, su.n);
      var inv, z := ModInv(s, su.n).value, Z(su, data);
      var u, v := (z * inv) % su.n, (r * inv) % su.n;
      Quotient(su.n, s, inv, z, u);
      Quotient(su.n, s, inv, r, v);
      EcMulMeaning(su.curve, u, su.g);
      EcMulMeaning(su.curve, v, q);
      assert (exists u: nat, v: nat :: Combines(su, q, r, s, z, u, v)) <==> Combines(su, q, r, s, z, u, v);
    }
  }

  /** The nonce of a signature: s k = z + r d modulo n, and k G has x-coordinate r. */
  ghost predicate NonceOf(su: Suite, d: nat, z: nat, r: nat, s: nat, k: nat)
    requires Usable(su)
  {
    && 0 < k < su.n && Cong(s * k, z + r * d, su.n)
    && Times(su.curve, k, su.g).Affine? && Times(su.curve, k, su.g).x % su.n == r
  }

  ghost predicate HasNonce(su: Suite, d: nat, z: nat, r: nat, s: nat)
    requires Usable(su)
  {
    exists k: nat :: NonceOf(su, d, z, r, s, k)
  }

  lemma SumTimes(n: nat, s: int, u: int, v: int, z: int, r: int, d: int)
    requires Cong(s * u, z, n) && Cong(s * v, r, n)
    ensures Cong(s * (u + v * d), z + r * d, n)
  {
    CongRefl(d, n);
    CongMul(s * v, r, d, d, n);
    CongAdd(s * u, z, (s * v) * d, r * d, n);
    assert s * (u + v * d) == s * u + (s * v) * d;
  }

  /** Against a matching public key the two scalars combine to the nonce. */
  lemma CombinesNonce(su: Suite, d: nat, q: Point, z: nat, r: nat, s: nat, inv: nat, u: nat, v: nat)
    requires Hypotheses(su) && q == Times(su.curve, d, su.g) && Cong(inv * s, 1, su.n)
    requires u < su.n && v < su.n && Cong(s * u, z, su.n) && Cong(s * v, r, su.n)
    ensures Combines(su, q, r, s, z, u, v) <==> HasNonce(su, d, z, r, s)
  {
    hide EcAdd; hide EcMul; hide Times; hide OnCurve; hide ModInv; hide Associative; hide Prime; hide Cong;
    var n, w := su.n, u + v * d;
    SumTimes(n, s, u, v, z, r, d);
    forall k: nat | Cong(w, k, n)
      ensures EcAdd(su.curve, Times(su.curve, u, su.g), Times(su.curve, v, q)) == Times(su.curve, k, su.g)
    {
      VerifierPoint(su, d, u, v, k);
      TimesOnCurve(su.curve, d, su.g);
      EcMulMeaning(su.curve, u, su.g);
      EcMulMeaning(su.curve, v, q);
    }
    if Combines(su, q, r, s, z, u, v) {
      ModCong(w, n);
      CongSym(w % n, w, n);
      CongRefl(s, n);
      CongMul(s, s, w % n, w, n);
      CongTrans(s * (w % n), s * w, z + r * d, n);
      ZeroInfinite(su);
      assert NonceOf(su, d, z, r, s, w % n);
    }
    forall k: nat | NonceOf(su, d, z, r, s, k) ensures Combines(su, q, r, s, z, u, v) {
      InverseTimes(n, inv, s, k, z + r * d);
      InverseTimes(n, inv, s, w, z + r * d);
      CongSym(inv * (z + r * d), w, n);
      CongTrans(w, inv * (z + r * d), k, n);
    }
  }

  lemma ZeroInfinite(su: Suite)
    requires Usable(su)
    ensures Times(su.curve, 0, su.g) == Infinity
  {
  }

  /** So under the public key of d it accepts exactly what has a nonce: nobody who cannot solve
      s k = z + r d for a point of x-coordinate r gets a signature past it. */
  lemma VerifyNonce(su: Suite, priv: seq<byte>, pubX: seq<byte>, pubY: seq<byte>, sigR: seq<byte>, sigS: seq<byte>,
                    data: seq<byte>)
    requires Hypotheses(su) && KeyPair(su, priv, pubX, pubY)
    ensures var r, s := FromBytes(sigR), FromBytes(sigS);
      Verify(su, pubX, pubY, sigR, sigS, data) <==>
        0 < r < su.n && 0 < s < su.n && HasNonce(su, FromBytes(priv), Z(su, data), r, s)
  {
    hide EcAdd; hide EcMul; hide Times; hide OnCurve; hide ModInv; hide FromBytes; hide Associative; hide Prime;
    hide Cong; hide Combines; hide NonceOf; hide Verify;
    var q, r, s, d, z := Affine(FromBytes(pubX), FromBytes(pubY)), FromBytes(sigR), FromBytes(sigS), FromBytes(priv),
      Z(su, data);
    VerifyMeaning(su, pubX, pubY, sigR, sigS, data);
    TimesOnCurve(su.curve, d, su.g);
    assert OnCurve(su.curve, q);
    if 0 < r < su.n && 0 < s < su.n {
      CombinesSome(su, d, q, z, r, s);
    }
  }

  lemma CombinesSome(su: Suite, d: nat, q: Point, z: nat, r: nat, s: nat)
    requires Hypotheses(su) && q == Times(su.curve, d, su.g) && 0 < s < su.n
    ensures (exists u: nat, v: nat :: Combines(su, q, r, s, z, u, v)) <==> HasNonce(su, d, z, r, s)
  {
    hide EcAdd; hide EcMul; hide Times; hide OnCurve; hide ModInv; hide Associative; hide Prime; hide Cong;
    hide Combines; hide NonceOf;
    PrimeInverse(s, su.n);
    var inv := ModInv(s, su.n).value;
    forall u: nat, v: nat | Combines(su, q, r, s, z, u, v) ensures HasNonce(su, d, z, r, s) {
      CombinesScalars(su, q, r, s, z, u, v);
      CombinesNonce(su, d, q, z, r, s, inv, u, v);
    }
    var u, v := (z * inv) % su.n, (r * inv) % su.n;
    Quotient(su.n, s, inv, z, u);
    Quotient(su.n, s, inv, r, v);
    CombinesNonce(su, d, q, z, r, s, inv, u, v);
  }

  lemma CombinesScalars(su: Suite, q: Point, r: nat, s: nat, z: nat, u: nat, v: nat)
    requires Usable(su) && Combines(su, q, r, s, z, u, v)
    ensures u < su.n && v < su.n && Cong(s * u, z, su.n) && Cong(s * v, r, su.n)
  {
  }

  /** The round trip: whatever the signing loop produces verifies under the matching public key. */
  lemma SignVerify(su: Suite, priv: seq<byte>, pubX: seq<byte>, pubY: seq<byte>, data: seq<byte>,
                   r: seq<byte>, s: seq<byte>)
    requires Hypotheses(su) && KeyPair(su, priv, pubX, pubY)
    requires IsSignature(su, priv, data, r, s)
    ensures Verify(su, pubX, pubY, r, s, data)
  {
    hide EcAdd; hide EcMul; hide Times; hide ModInv; hide FromBytes; hide ToBytes; hide Pow256; hide Associative;
    hide Prime; hide Verify; hide SignOnce; hide NonceOf;
    var k: nat :| SignedWith(su, priv, data, k, r, s);
    var sig := SignOnce(su, FromBytes(priv), Z(su, data), k).value;
    SignedNonce(su, FromBytes(priv), Z(su, data), k);
    ToBytesValue(sig.0, su.width);
    ToBytesValue(sig.1, su.width);
    assert FromBytes(r) == sig.0 && FromBytes(s) == sig.1;
    assert NonceOf(su, FromBytes(priv), Z(su, data), FromBytes(r), FromBytes(s), k);
    VerifyNonce(su, priv, pubX, pubY, r, s, data);
  }

  lemma SignedNonce(su: Suite, d: nat, z: nat, k: nat)
    requires Hypotheses(su) && SignOnce(su, d, z, k).Some?
    ensures var sig := SignOnce(su, d, z, k).value;
            0 < sig.0 < su.n && 0 < sig.1 < su.n && NonceOf(su, d, z, sig.0, sig.1, k)
  {
    hide EcAdd; hide EcMul; hide Times; hide ModInv; hide Associative; hide Prime; hide Cong;
    var sig := SignOnce(su, d, z, k).value;
    SignatureParts(su, d, z, k);
    var inv := ModInv(k, su.n).value;
    ReducedProduct(inv, z + sig.0 * d, su.n);
    SignatureTimesNonce(su.n, k, inv, sig.1, z + sig.0 * d);
  }

  // ----- stored key pairs -----

  /** The arithmetic of `aacs1_keypair_matches` on the certificate's key. */
  predicate KeyPairMatches(su: Suite, priv: seq<byte>, pubX: seq<byte>, pubY: seq<byte>)
    requires Usable(su)
  {
    var d := FromBytes(priv) % su.n;
    && d != 0
    && var q := EcMul(su.curve, d, su.g);
       q.Affine? && q.x == FromBytes(pubX) && q.y == FromBytes(pubY)
  }

  /** The check means what it says: it passes exactly for the public key of priv. */
  lemma KeyPairMatchesMeaning(su: Suite, priv: seq<byte>, pubX: seq<byte>, pubY: seq<byte>)
    requires Hypotheses(su)
    ensures KeyPairMatches(su, priv, pubX, pubY) <==> KeyPair(su, priv, pubX, pubY)
  {
    var d := FromBytes(priv);
    TimesMod(su, d);
    EcMulMeaning(su.curve, d % su.n, su.g);
  }

  lemma KeyPairNonzero(su: Suite, priv: seq<byte>, pubX: seq<byte>, pubY: seq<byte>)
    requires Hypotheses(su) && KeyPair(su, priv, pubX, pubY)
    ensures FromBytes(priv) % su.n != 0
  {
    TimesMod(su, FromBytes(priv));
  }

  // ----- when signing can end -----

  lemma Rescale(inv: int, k: int, t: int, n: nat)
    requires Cong(inv * t, 0, n) && Cong(inv * k, 1, n)
    ensures Cong(t, 0, n)
  {
    CongRefl(k, n);
    CongMul(inv * t, 0, k, k, n);
    CongRefl(t, n);
    CongMul(inv * k, 1, t, t, n);
    assert (inv * t) * k == (inv * k) * t;
    CongSym((inv * k) * t, t, n);
    CongTrans(t, (inv * t) * k, 0, n);
  }

  /** Scaling by an inverse keeps a residue zero or nonzero. */
  lemma Scaled(inv: nat, k: nat, t: nat, n: nat)
    requires n > 1 && Cong(inv * k, 1, n) && t < n
    ensures (inv * t) % n == 0 <==> t == 0
  {
    hide Cong;
    SmallMod(0, n);
    if t == 0 {
      assert inv * t == 0;
    } else if (inv * t) % n == 0 {
      CongMod(inv * t, 0, n);
      Rescale(inv, k, t, n);
      ReducedUnique(t, 0, n);
    }
  }

  /** One candidate nonce is usable exactly when its r and the scalar it multiplies are nonzero. */
  lemma NonceUsable(su: Suite, d: nat, z: nat, k: nat)
    requires Hypotheses(su) && 0 < k < su.n && SigR(su, k) != 0
    ensures SignOnce(su, d, z, k).Some? <==> (z + SigR(su, k) * d) % su.n != 0
  {
    PrimeInverse(k, su.n);
    var e := z + SigR(su, k) * d;
    var inv, t := ModInv(k, su.n).value, e % su.n;
    hide EcMul; hide Times; hide Group; hide OnCurve; hide ModInv; hide SigR; hide Cong;
    assert 0 <= t < su.n by { ModCong(e, su.n); }
    Scaled(inv, k, t, su.n);
  }

  lemma MultipleVanishes(z: nat, r: nat, d: nat, n: nat)
    requires n > 0 && z % n == 0 && d % n == 0
    ensures (z + r * d) % n == 0
  {
    ModCong(z, n);
    ModCong(d, n);
    CongSym(z % n, z, n);
    CongSym(d % n, d, n);
    CongRefl(r, n);
    CongMul(r, r, d, 0, n);
    CongAdd(z, 0, r * d, r * 0, n);
    CongMod(z + r * d, 0, n);
  }

  /** A key and a hash that are both multiples of n have no signature: the loop never ends. */
  lemma NeverSigns(su: Suite, d: nat, z: nat, k: nat)
    requires Hypotheses(su) && d % su.n == 0 && z % su.n == 0
    ensures SignOnce(su, d, z, k).None?
  {
    hide EcMul;
    if 0 < k < su.n && SigR(su, k) != 0 {
      NonceUsable(su, d, z, k);
      MultipleVanishes(z, SigR(su, k), d, su.n);
    }
  }

  /** Two different r cannot both cancel the same hash, unless key and hash vanish. */
  lemma OneCancels(z: nat, r1: nat, r2: nat, d: nat, n: nat)
    requires Prime(n) && 0 < r1 < n && 0 < r2 < n && r1 != r2
    requires (z + r1 * d) % n == 0 && (z + r2 * d) % n == 0
    ensures d % n == 0 && z % n == 0
  {
    if r1 < r2 { OneCancelsLess(z, r1, r2, d, n); } else { OneCancelsLess(z, r2, r1, d, n); }
  }

  lemma OneCancelsLess(z: nat, r1: nat, r2: nat, d: nat, n: nat)
    requires Prime(n) && 0 < r1 < r2 < n
    requires (z + r1 * d) % n == 0 && (z + r2 * d) % n == 0
    ensures d % n == 0 && z % n == 0
  {
    CongMod(z + r1 * d, 0, n);
    CongMod(z + r2 * d, 0, n);
    SmallMod(0, n);
    CongAdd(z + r2 * d, 0, z + r1 * d, 0, n);
    assert (z + r2 * d) - (z + r1 * d) == (r2 - r1) * d;
    if r2 - r1 > 0 && Cong(r2 - r1, 0, n) { ReducedUnique(r2 - r1, 0, n); }
    PrimeCancel(r2 - r1, d, n);
    CongMod(d, 0, n);
    CongRefl(r1, n);
    CongMul(r1, r1, d, 0, n);
    CongAdd(z + r1 * d, 0, r1 * d, 0, n);
    CongMod(z, 0, n);
  }

  /** When signing can end at all: given two nonces with different nonzero r, some nonce is usable
      exactly when the key and the hash are not both multiples of n. */
  lemma SigningPossible(su: Suite, d: nat, z: nat, k1: nat, k2: nat)
    requires Hypotheses(su) && 0 < k1 < su.n && 0 < k2 < su.n
    requires SigR(su, k1) != 0 && SigR(su, k2) != 0 && SigR(su, k1) != SigR(su, k2)
    ensures (exists k: nat :: SignOnce(su, d, z, k).Some?) <==> !(d % su.n == 0 && z % su.n == 0)
    ensures !(d % su.n == 0 && z % su.n == 0) ==> SignOnce(su, d, z, k1).Some? || SignOnce(su, d, z, k2).Some?
  {
    hide SignOnce; hide EcMul;
    NonceUsable(su, d, z, k1);
    NonceUsable(su, d, z, k2);
    if d % su.n == 0 && z % su.n == 0 {
      forall k: nat ensures SignOnce(su, d, z, k).None? { NeverSigns(su, d, z, k); }
    } else if SignOnce(su, d, z, k1).None? && SignOnce(su, d, z, k2).None? {
      OneCancels(z, SigR(su, k1), SigR(su, k2), d, su.n);
    }
  }

  // ----- the bus key -----

  /** `compute_bus_key`: the low 16 bytes of the shared x-coordinate. */
  function BusKey(su: Suite, priv: seq<byte>, px: seq<byte>, py: seq<byte>): (k: Option<seq<byte>>)
    requires Usable(su)
    ensures k.Some? ==> |k.value| == 16
  {
    if !PointOnCurve(su.curve, FromBytes(px), FromBytes(py)) then None
    else
      var shared := EcMul(su.curve, FromBytes(priv), Affine(FromBytes(px), FromBytes(py)));
      if shared.Infinity? then None
      else Some(ToBytes(shared.x, su.width)[su.width - 16..])
  }

  /** A bus key exists exactly for a point on the curve that the scalar does not send to infinity; it is
      the x-coordinate of the product modulo 2^128. */
  lemma BusKeyMeaning(su: Suite, priv: seq<byte>, px: seq<byte>, py: seq<byte>)
    requires Hypotheses(su)
    ensures var k, q := BusKey(su, priv, px, py), Affine(FromBytes(px), FromBytes(py));
      && (k.Some? <==> OnCurve(su.curve, q) && Times(su.curve, FromBytes(priv), q).Affine?)
      && (k.Some? ==> |k.value| == 16
                      && FromBytes(k.value) == Times(su.curve, FromBytes(priv), q).x % Pow256(16))
  {
    hide EcAdd; hide EcMul; hide Times; hide PointOnCurve; hide Pow256; hide FromBytes; hide ToBytes; hide Associative;
    hide Prime; hide OnCurve;
    var c, d, q := su.curve, FromBytes(priv), Affine(FromBytes(px), FromBytes(py));
    PointOnCurveMeaning(c, q.x, q.y);
    if OnCurve(c, q) {
      EcMulMeaning(c, d, q);
      if Times(c, d, q).Affine? { SharedBytes(su, Times(c, d, q).x) by { ReducedPoint(c, Times(c, d, q)); } }
    }
  }

  lemma ReducedPoint(c: Curve, pt: Point)
    requires OnCurve(c, pt) && pt.Affine?
    ensures pt.x < c.p
  {
  }

  /** The public half of `generate_host_key_pair` for the drawn scalar d. */
  function PublicBytes(su: Suite, d: nat): (seq<byte>, seq<byte>)
    requires Usable(su)
  {
    var q := EcMul(su.curve, d, su.g);
    (ToBytes(X(q), su.width), ToBytes(if q.Affine? then q.y else 0, su.width))
  }

  lemma PublicBytesMeaning(su: Suite, d: nat)
    requires Hypotheses(su) && 0 < d < su.n
    ensures var (x, y) := PublicBytes(su, d);
            Affine(FromBytes(x), FromBytes(y)) == Times(su.curve, d, su.g)
  {
    if Cong(d, 0, su.n) { ReducedUnique(d, 0, su.n); }
    TimesNonzero(su, d);
    EcMulMeaning(su.curve, d, su.g);
    var q := EcMul(su.curve, d, su.g);
    ToBytesValue(q.x, su.width);
    ToBytesValue(q.y, su.width);
  }

  lemma ScalarNonzero(d: nat, e: nat, n: nat)
    requires Prime(n) && 0 < d < n && 0 < e < n
    ensures !Cong(d, 0, n) && !Cong(d * e, 0, n)
  {
    if Cong(d, 0, n) { ReducedUnique(d, 0, n); }
    if Cong(d * e, 0, n) {
      PrimeCancel(d, e, n);
      ReducedUnique(e, 0, n);
    }
  }

  /** What a party with scalar d derives from the other's public bytes. */
  lemma BusKeyValue(su: Suite, d: nat, e: nat, t: nat, x: seq<byte>, y: seq<byte>)
    requires Hypotheses(su) && 0 < d < su.n && 0 < e < su.n && (x, y) == PublicBytes(su, e) && t == d * e
    ensures var k := BusKey(su, ToBytes(d, su.width), x, y);
            && Times(su.curve, t, su.g).Affine?
            && k.Some? && FromBytes(k.value) == Times(su.curve, t, su.g).x % Pow256(16)
  {
    hide EcAdd;
    hide EcMul;
    hide DoubleAndAdd;
    hide Times;
    hide PointOnCurve;
    hide ModInv;
    hide MinBytes;
    hide Pow256;
    var c := su.curve;
    PublicBytesMeaning(su, e);
    TimesOnCurve(c, e, su.g);
    ToBytesValue(d, su.width);
    BusKeyMeaning(su, ToBytes(d, su.width), x, y);
    TimesTimes(c, d, e, su.g);
    ScalarNonzero(d, e, su.n);
    TimesNonzero(su, t);
  }

  lemma SharedBytes(su: Suite, x: nat)
    requires Hypotheses(su) && x < su.curve.p
    ensures FromBytes(ToBytes(x, su.width)[su.width - 16..]) == x % Pow256(16)
  {
    hide Group; hide Prime; hide OnCurve; hide Times; hide Pow256; hide ToBytes; hide FromBytes;
    ToBytesValue(x, su.width);
    LowBytes(ToBytes(x, su.width), 16);
  }

  function Product(d: nat, e: nat): (t: nat)
    ensures t == d * e
  {
    d * e
  }

  /** Two-party agreement: for all ephemeral scalars both sides hold the same 16 bytes, the
      shared x-coordinate modulo 2^128. */
  lemma BusKeyAgreement(su: Suite, d: nat, e: nat, t: nat, hx: seq<byte>, hy: seq<byte>, vx: seq<byte>, vy: seq<byte>)
    requires Usable(su) && Hypotheses(su) && 0 < d < su.n && 0 < e < su.n && t == d * e
    requires (hx, hy) == PublicBytes(su, d) && (vx, vy) == PublicBytes(su, e)
    ensures var host := BusKey(su, ToBytes(d, su.width), vx, vy);
            && host.Some? && host == BusKey(su, ToBytes(e, su.width), hx, hy)
            && FromBytes(host.value) == X(Times(su.curve, t, su.g)) % Pow256(16)
  {
    hide BusKey;
    hide PublicBytes;
    hide Times;
    BusKeyValue(su, d, e, t, vx, vy);
    BusKeyValue(su, e, d, t, hx, hy);
    var host, drive := BusKey(su, ToBytes(d, su.width), vx, vy), BusKey(su, ToBytes(e, su.width), hx, hy);
    FromBytesInjective(host.value, drive.value);
  }
}
