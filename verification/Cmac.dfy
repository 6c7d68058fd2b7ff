/** The one-block CMAC of the Volume ID check. The block cipher is an arbitrary function; the
    subkey is compared with doubling in GF(2^128) as section 6.1 of NIST SP 800-38B defines it. */
module Cmac {
  import opened Bytes

  /** A block cipher: key, block to block. */
  type Cipher = (seq<byte>, seq<byte>) -> seq<byte>

  // ----- bits of a byte -----

  /** Bit k of a number. */
  predicate Bit(b: nat, k: nat) {
    if k == 0 then b % 2 == 1 else Bit(b / 2, k - 1)
  }

  /** Exclusive or of the low n bits. */
  function XorBits(a: nat, b: nat, n: nat): (r: nat)
    ensures r < Pow2(n)
    ensures forall k: nat :: k < n ==> Bit(r, k) == (Bit(a, k) != Bit(b, k))
  {
    if n == 0 then 0
    else
      var low := if a % 2 == b % 2 then 0 else 1;
      var high := XorBits(a / 2, b / 2, n - 1);
      var r := 2 * high + low;
      assert r / 2 == high && r % 2 == low;
      r
  }

  function Xor(a: byte, b: byte): byte {
    Pow2Byte();
    XorBits(a, b, 8)
  }

  /** `(b << 1) | (next >> 7)` on bytes. */
  function ShiftIn(b: byte, next: byte): byte {
    var shifted := 2 * (b as int);
    shifted % 256 + next / 128
  }

  lemma {:induction false} LowBits(b: nat, k: nat, n: nat)
    requires k < n
    ensures Bit(b % Pow2(n), k) == Bit(b, k)
  {
    var m := Pow2(n - 1);
    assert Pow2(n) == 2 * m;
    HalfOfRemainder(b, m);
    if k > 0 { LowBits(b / 2, k - 1, n - 1); }
  }

  lemma HalfOfRemainder(b: nat, m: nat)
    requires m > 0
    ensures (b % (2 * m)) % 2 == b % 2 && (b % (2 * m)) / 2 == (b / 2) % m
  {
    var q, r := b / (2 * m), b % (2 * m);
    assert b == (2 * m) * q + r;
    assert b / 2 == q * m + r / 2 && b % 2 == r % 2 by { assert (2 * m) * q == 2 * (q * m); }
    RemainderUnique(b / 2, q, r / 2, m);
  }

  lemma ShiftInBit(b: byte, next: byte, k: nat)
    requires k < 8
    ensures Bit(ShiftIn(b, next), k) == if k == 0 then next / 128 == 1 else Bit(b, k - 1)
  {
    var r: nat := ShiftIn(b, next);
    assert r % 2 == next / 128 && r / 2 == b % 128;
    if k > 0 {
      Pow2Byte();
      LowBits(b, k - 1, 7);
    }
  }

  lemma {:induction false} TopBit(b: nat, k: nat)
    requires b < 2 * Pow2(k)
    ensures Bit(b, k) <==> b >= Pow2(k)
  {
    if k > 0 { TopBit(b / 2, k - 1); }
  }

  lemma {:induction false} BitsDetermine(a: nat, b: nat, n: nat)
    requires a < Pow2(n) && b < Pow2(n)
    requires forall k: nat :: k < n ==> Bit(a, k) == Bit(b, k)
    ensures a == b
  {
    if n > 0 {
      assert Bit(a, 0) == Bit(b, 0);
      forall k: nat | k < n - 1 ensures Bit(a / 2, k) == Bit(b / 2, k) {
        assert Bit(a, k + 1) == Bit(b, k + 1);
      }
      BitsDetermine(a / 2, b / 2, n - 1);
    }
  }

  lemma Pow2Byte()
    ensures Pow2(7) == 128 && Pow2(8) == 256
  {
    assert Pow2(7) == 2 * Pow2(6) == 4 * Pow2(5) == 8 * Pow2(4) == 16 * Pow2(3) == 32 * Pow2(2) == 64 * Pow2(1) == 128;
  }

  // ----- blocks -----

  type Block = s: seq<byte> | |s| == 16 witness Zeros(16)

  function XorBlock(a: Block, b: Block): Block {
    seq(16, i requires 0 <= i < 16 => Xor(a[i], b[i]))
  }

  /** The subkey loop of `aes_cmac_16`. */
  function Subkey(l: Block): Block {
    var last := ShiftIn(l[15], 0);
    seq(15, i requires 0 <= i < 15 => ShiftIn(l[i], l[i + 1]))
    + [if l[0] / 128 == 1 then Xor(last, 0x87) else last]
  }

  function Buffered(s: seq<byte>): (b: Block)
    ensures |s| == 16 ==> b == s
  {
    if |s| >= 16 then s[..16] else s + Zeros(16 - |s|)
  }

  function Cmac16(aes: Cipher, data: Block, key: seq<byte>): seq<byte> {
    var l := Buffered(aes(key, Zeros(16)));
    aes(key, XorBlock(data, Subkey(l)))
  }

  /** The subkey loop of `aes_cmac_16` as written. */
  method SubkeyLoop(l: Block) returns (k1: array<byte>)
    ensures fresh(k1) && k1[..] == Subkey(l)
  {
    hide Xor;
    hide ShiftIn;
    k1 := new byte[16](_ => 0);
    var carry := l[0] / 128;
    for i := 0 to 15
      invariant forall j :: 0 <= j < i ==> k1[j] == ShiftIn(l[j], l[j + 1])
    {
      k1[i] := ShiftIn(l[i], l[i + 1]);
    }
    k1[15] := ShiftIn(l[15], 0);
    if carry == 1 { k1[15] := Xor(k1[15], 0x87); }
  }

  /** `aes_cmac_16`. */
  method Cmac16Loop(aes: Cipher, data: Block, key: seq<byte>) returns (mac: seq<byte>)
    ensures mac == Cmac16(aes, data, key)
  {
    hide Xor;
    hide Subkey;
    var l := Buffered(aes(key, Zeros(16)));
    var k1 := SubkeyLoop(l);
    var block := new byte[16](_ => 0);
    for i := 0 to 16
      invariant k1[..] == Subkey(l)
      invariant forall j :: 0 <= j < i ==> block[j] == Xor(data[j], k1[j])
    {
      block[i] := Xor(data[i], k1[i]);
    }
    assert block[..] == XorBlock(data, Subkey(l));
    mac := aes(key, block[..]);
  }

  // ----- GF(2^128) -----

  /** A polynomial over GF(2): the exponents with coefficient one. */
  type Poly = set<nat>

  /** Coefficient of x^e: byte 0 holds the highest exponents. */
  predicate Coefficient(b: Block, e: nat)
    requires e < 128
  {
    Bit(b[15 - e / 8], e % 8)
  }

  function ToPoly(b: Block): Poly {
    set e: nat | e < 128 && Coefficient(b, e)
  }

  function Plus(p: Poly, q: Poly): Poly { (p - q) + (q - p) }

  function TimesX(p: Poly): Poly { set e <- p :: e + 1 }

  /** x^128 + x^7 + x^2 + x + 1. */
  const MODULUS: Poly := {128, 7, 2, 1, 0}

  /** Multiplication by x in GF(2)[x] / MODULUS. */
  function Doubled(p: Poly): Poly {
    var t := TimesX(p);
    if 128 in t then Plus(t, MODULUS) else t
  }

  predicate Reduced(p: Poly) { forall e :: e in p ==> e < 128 }

  lemma ReductionBits(e: nat)
    requires e < 8
    ensures Bit(0x87, e) <==> e in MODULUS
  {
    assert Bit(0x87, 0) && Bit(0x43, 0) && Bit(0x21, 0) && !Bit(0x10, 0) && !Bit(8, 0) && !Bit(4, 0) && !Bit(2, 0)
      && Bit(1, 0);
    assert Bit(0x87, 1) && Bit(0x43, 1) && !Bit(0x21, 1) && !Bit(0x10, 1) && !Bit(8, 1) && !Bit(4, 1) && Bit(2, 1);
    assert Bit(0x87, 2) && !Bit(0x43, 2) && !Bit(0x21, 2) && !Bit(0x10, 2) && !Bit(8, 2) && Bit(4, 2);
    assert !Bit(0x87, 3) && !Bit(0x43, 3) && !Bit(0x21, 3) && !Bit(0x10, 3) && Bit(8, 3);
    assert !Bit(0x87, 4) && !Bit(0x43, 4) && !Bit(0x21, 4) && Bit(0x10, 4);
    assert !Bit(0x87, 5) && !Bit(0x43, 5) && Bit(0x21, 5);
    assert !Bit(0x87, 6) && Bit(0x43, 6);
    assert Bit(0x87, 7);
  }

  lemma SubkeyCoefficient(l: Block, e: nat)
    requires e < 128
    ensures Coefficient(Subkey(l), e)
         == ((e > 0 && Coefficient(l, e - 1)) != (Coefficient(l, 127) && e in MODULUS))
  {
    hide Bit; hide Pow2; hide ShiftIn;
    var i := 15 - e / 8;
    Pow2Byte();
    TopBit(l[0], 7);
    if i < 15 {
      ShiftInBit(l[i], l[i + 1], e % 8);
      TopBit(l[i + 1], 7);
    } else {
      ShiftInBit(l[15], 0, e);
      ReductionBits(e);
    }
  }

  /** The byte-wise loop is doubling in GF(2^128). */
  lemma SubkeyDoubles(l: Block)
    ensures ToPoly(Subkey(l)) == Doubled(ToPoly(l)) && Reduced(Doubled(ToPoly(l)))
  {
    var p, k := ToPoly(l), ToPoly(Subkey(l));
    var t := TimesX(p);
    forall e: nat ensures e in t <==> e > 0 && e - 1 in p {
      if e > 0 && e - 1 in p { assert (e - 1) + 1 in t; }
    }
    assert 128 in t <==> Coefficient(l, 127);
    forall e: nat ensures e in k <==> e in Doubled(p) {
      if e < 128 { SubkeyCoefficient(l, e); }
    }
  }

  lemma PolyInjective(a: Block, b: Block)
    requires ToPoly(a) == ToPoly(b)
    ensures a == b
  {
    forall i | 0 <= i < 16 ensures a[i] == b[i] {
      forall k: nat | k < 8 ensures Bit(a[i], k) == Bit(b[i], k) {
        var e := (15 - i) * 8 + k;
        assert e / 8 == 15 - i && e % 8 == k;
        assert e in ToPoly(a) <==> e in ToPoly(b);
      }
      Pow2Byte();
      BitsDetermine(a[i], b[i], 8);
    }
  }

  /** The one-complete-block case: encrypt the block plus K1, K1 being the double of the
      encrypted zero block, whichever way K1 is obtained. */
  lemma CmacMeaning(aes: Cipher, data: Block, key: seq<byte>, k1: Block)
    requires ToPoly(k1) == Doubled(ToPoly(Buffered(aes(key, Zeros(16)))))
    ensures Cmac16(aes, data, key) == aes(key, XorBlock(data, k1))
  {
    var l := Buffered(aes(key, Zeros(16)));
    SubkeyDoubles(l);
    PolyInjective(k1, Subkey(l));
  }
}
