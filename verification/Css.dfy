/** CSS bus authentication: the key stream of `crypt_key`, a bit-serial sum of two shift registers, and
    the session whose AGID is released on every failure and on no success. */
module Css {
  import opened Wrappers
  import opened Bytes
  import opened Scsi

  // ----- the shift registers -----

  function Out0(x: bv32): bv32 { ((x >> 24) ^ (x >> 21) ^ (x >> 20) ^ (x >> 12)) & 1 }

  function Out1(x: bv32): bv32 { ((x >> 16) ^ (x >> 2)) & 1 }

  function Next0(x: bv32): bv32 { ((x << 1) | Out0(x)) & 0x1FFFFFF }

  function Next1(x: bv32): bv32 { ((x << 1) | Out1(x)) & 0x1FFFF }

  predicate Live0(x: bv32) { x != 0 && x & 0x1FFFFFF == x }

  predicate Live1(x: bv32) { x != 0 && x & 0x1FFFF == x }

  lemma Next0Live(x: bv32)
    requires Live0(x)
    ensures Live0(Next0(x))
  {
  }

  lemma Next1Live(x: bv32)
    requires Live1(x)
    ensures Live1(Next1(x))
  {
  }

  /** The first register from three key bytes, with a set bit spliced in at position 3. */
  function Seed0(a: bv32, b: bv32, c: bv32): bv32 { (a << 17) | (b << 9) | ((c & !7) << 1) | 8 | (c & 7) }

  /** The second from two, with a set bit at position 8. */
  function Seed1(d: bv32, e: bv32): bv32 { (d << 9) | 0x100 | e }

  /** Seeds are live, and different key bytes seed different registers. */
  lemma SeedsLive(a: bv32, b: bv32, c: bv32, d: bv32, e: bv32)
    requires a < 256 && b < 256 && c < 256 && d < 256 && e < 256
    ensures Live0(Seed0(a, b, c)) && Live1(Seed1(d, e))
  {
  }

  /** Where each key byte sits in its register. */
  lemma SeedFields(a: bv32, b: bv32, c: bv32, d: bv32, e: bv32)
    requires a < 256 && b < 256 && c < 256 && d < 256 && e < 256
    ensures var x := Seed0(a, b, c);
      x >> 17 == a && (x >> 9) & 0xFF == b && (x >> 4) & 0x1F == c >> 3 && (x >> 3) & 1 == 1 && x & 7 == c & 7
    ensures var y := Seed1(d, e); y >> 9 == d && (y >> 8) & 1 == 1 && y & 0xFF == e
  {
  }

  lemma SeedsInjective(a: bv32, b: bv32, c: bv32, a': bv32, b': bv32, c': bv32)
    requires a < 256 && b < 256 && c < 256 && a' < 256 && b' < 256 && c' < 256
    requires Seed0(a, b, c) == Seed0(a', b', c')
    ensures a == a' && b == b' && c == c'
  {
  }

  // ----- the streams as numbers -----

  /** `!out & 1`. */
  function Complement(out: bv32): (b: nat)
    ensures b <= 1
  {
    if out & 1 == 0 then 1 else 0
  }

  function After0(x: bv32, n: nat): bv32 { if n == 0 then x else Next0(After0(x, n - 1)) }

  function After1(x: bv32, n: nat): bv32 { if n == 0 then x else Next1(After1(x, n - 1)) }

  /** Bit i of a register. */
  function BitAt(x: bv32, i: bv5): bv32 { (x >> i) & 1 }

  lemma Moves0(x: bv32, i: bv5)
    requires i < 24
    ensures BitAt(Next0(x), i + 1) == BitAt(x, i) && BitAt(Next0(x), 0) == Out0(x)
  {
  }

  lemma Moves1(x: bv32, i: bv5)
    requires i < 16
    ensures BitAt(Next1(x), i + 1) == BitAt(x, i) && BitAt(Next1(x), 0) == Out1(x)
  {
  }

  /** An output bit moves up the register, one place a step. */
  lemma {:induction false} Delayed0(x: bv32, n: nat, k: nat, i: bv5)
    requires k < 25 && i as nat == k
    ensures BitAt(After0(x, n + k + 1), i) == Out0(After0(x, n))
  {
    hide Out0; hide Next0; hide BitAt;
    if k == 0 { Moves0(After0(x, n), 0); } else {
      Delayed0(x, n, k - 1, i - 1);
      Moves0(After0(x, n + k), i - 1);
    }
  }

  lemma {:induction false} Delayed1(x: bv32, n: nat, k: nat, i: bv5)
    requires k < 17 && i as nat == k
    ensures BitAt(After1(x, n + k + 1), i) == Out1(After1(x, n))
  {
    hide Out1; hide Next1; hide BitAt;
    if k == 0 { Moves1(After1(x, n), 0); } else {
      Delayed1(x, n, k - 1, i - 1);
      Moves1(After1(x, n + k), i - 1);
    }
  }

  /** The linear recurrences the outputs obey: x^25 + x^12 + x^4 + x^3 + 1 and x^17 + x^14 + 1. */
  lemma Recurrences(x: bv32, y: bv32, n: nat)
    ensures Out0(After0(x, n + 25)) ==
            Out0(After0(x, n)) ^ Out0(After0(x, n + 3)) ^ Out0(After0(x, n + 4)) ^ Out0(After0(x, n + 12))
    ensures Out1(After1(y, n + 17)) == Out1(After1(y, n)) ^ Out1(After1(y, n + 14))
  {
    hide After0; hide After1;
    Delayed0(x, n, 24, 24);
    Delayed0(x, n + 3, 21, 21);
    Delayed0(x, n + 4, 20, 20);
    Delayed0(x, n + 12, 12, 12);
    Delayed1(y, n, 16, 16);
    Delayed1(y, n + 14, 2, 2);
    TapsAre(After0(x, n + 25), After1(y, n + 17));
  }

  lemma TapsAre(x: bv32, y: bv32)
    ensures Out0(x) == BitAt(x, 24) ^ BitAt(x, 21) ^ BitAt(x, 20) ^ BitAt(x, 12)
    ensures Out1(y) == BitAt(y, 16) ^ BitAt(y, 2)
  {
  }

  /** The first `n` complemented output bits, least significant first. */
  function Stream0(x: bv32, n: nat): (r: nat)
    ensures r < Pow2(n)
  {
    if n == 0 then 0 else Stream0(x, n - 1) + Pow2(n - 1) * Complement(Out0(After0(x, n - 1)))
  }

  function Stream1(x: bv32, n: nat): (r: nat)
    ensures r < Pow2(n)
  {
    if n == 0 then 0 else Stream1(x, n - 1) + Pow2(n - 1) * Complement(Out1(After1(x, n - 1)))
  }

  /** A stream is made of the complements of its register's outputs. */
  lemma {:induction false} StreamBits(x: bv32, y: bv32, n: nat, k: nat)
    requires k < n
    ensures (Stream0(x, n) / Pow2(k)) % 2 == 1 <==> Out0(After0(x, k)) & 1 == 0
    ensures (Stream1(y, n) / Pow2(k)) % 2 == 1 <==> Out1(After1(y, k)) & 1 == 0
  {
    hide Out0; hide Out1; hide After0; hide After1; hide Pow2;
    var c, d := Complement(Out0(After0(x, n - 1))), Complement(Out1(After1(y, n - 1)));
    if k == n - 1 {
      TopDigit(Stream0(x, n - 1), Pow2(k), c);
      TopDigit(Stream1(y, n - 1), Pow2(k), d);
    } else {
      StreamBits(x, y, n - 1, k);
      PowerParts(n - 1, k);
      LowDigit(Stream0(x, n - 1), Pow2(k), Pow2(n - 2 - k), Pow2(n - 1), c);
      LowDigit(Stream1(y, n - 1), Pow2(k), Pow2(n - 2 - k), Pow2(n - 1), d);
    }
  }

  lemma TopDigit(low: nat, p: nat, c: nat)
    requires low < p && c <= 1
    ensures (low + p * c) / p % 2 == c
  {
    QuotientUnique(low + p * c, p, c, low);
  }

  lemma LowDigit(low: nat, p: nat, q: nat, whole: nat, c: nat)
    requires p > 0 && whole == p * (2 * q)
    ensures (low + whole * c) / p % 2 == low / p % 2
  {
    var t := q * c;
    Regroup(p, q, c, t);
    QuotientRest(low, p);
    QuotientMore(low, p, low / p, 2 * t, low % p);
    EvenRest(low / p, t);
  }

  lemma Regroup(p: nat, q: nat, c: nat, t: nat)
    requires t == q * c
    ensures p * (2 * q) * c == p * (2 * t)
  {
    assert (2 * q) * c == 2 * t;
    assert p * (2 * q) * c == p * ((2 * q) * c);
  }

  lemma QuotientMore(x: nat, p: nat, q: nat, t: nat, r: nat)
    requires x == p * q + r && r < p
    ensures (x + p * t) / p == q + t
  {
    assert p * (q + t) == p * q + p * t;
    QuotientUnique(x + p * t, p, q + t, r);
  }

  lemma EvenRest(n: nat, t: nat)
    ensures (n + 2 * t) % 2 == n % 2
  {
  }

  lemma QuotientRest(x: nat, p: nat)
    requires p > 0
    ensures x == p * (x / p) + x % p
  {
  }

  lemma QuotientUnique(x: nat, p: nat, q: nat, r: nat)
    requires x == p * q + r && r < p
    ensures x / p == q
  {
    QuotientRest(x, p);
    var k := x / p;
    assert p * (q + 1) == p * q + p && p * (k + 1) == p * k + p;
    TimesMonotone(p, q + 1, k);
    TimesMonotone(p, k + 1, q);
  }

  lemma {:induction false} TimesMonotone(p: nat, a: nat, b: nat)
    ensures a <= b ==> p * a <= p * b
  {
    if a < b {
      TimesMonotone(p, a, b - 1);
      assert p * b == p * (b - 1) + p;
    }
  }

  lemma {:induction false} PowerParts(n: nat, k: nat)
    requires k < n
    ensures Pow2(n) == Pow2(k) * (2 * Pow2(n - 1 - k)) && Pow2(k) > 0
  {
    if k > 0 {
      PowerParts(n - 1, k - 1);
      assert 2 * (Pow2(k - 1) * (2 * Pow2(n - 1 - k))) == (2 * Pow2(k - 1)) * (2 * Pow2(n - 1 - k));
    }
  }

  lemma {:induction false} PowersMeet(k: nat)
    ensures Pow2(8 * k) == Pow256(k)
  {
    if k > 0 {
      PowersMeet(k - 1);
      var p := Pow2(8 * (k - 1));
      assert Pow2(8 * k) == 256 * p by {
        assert Pow2(8 * k - 7) == 2 * p;
        assert Pow2(8 * k - 6) == 4 * p;
        assert Pow2(8 * k - 5) == 8 * p;
        assert Pow2(8 * k - 4) == 16 * p;
        assert Pow2(8 * k - 3) == 32 * p;
        assert Pow2(8 * k - 2) == 64 * p;
        assert Pow2(8 * k - 1) == 128 * p;
      }
    }
  }

  lemma {:induction false} PowerSplit(k: nat, bit: nat)
    ensures Pow2(8 * k + bit) == Pow256(k) * Pow2(bit)
  {
    if bit == 0 {
      PowersMeet(k);
    } else {
      PowerSplit(k, bit - 1);
      assert Pow256(k) * (2 * Pow2(bit - 1)) == 2 * (Pow256(k) * Pow2(bit - 1));
    }
  }

  /** One column of the addition: what was below, the bit written and the carry passed on. */
  lemma Column(low: nat, p: nat, val: nat, q: nat, carry: nat, sum: nat, c: nat)
    requires low + p * val + p * q * carry == sum
    ensures low + p * (val + q * ((c + carry) % 2)) + p * (2 * q) * ((c + carry) / 2) == sum + p * q * c
  {
    var bit, carry' := (c + carry) % 2, (c + carry) / 2;
    assert c + carry == bit + 2 * carry';
    assert p * q * (c + carry) == p * q * bit + p * q * (2 * carry');
    assert p * q * (c + carry) == p * q * c + p * q * carry;
    assert p * (val + q * bit) == p * val + p * (q * bit);
    assert p * (q * bit) == p * q * bit;
    assert p * (2 * q) * carry' == p * q * (2 * carry');
  }

  /** The sum of the two streams over `n` bits. */
  function Total(seed0: bv32, seed1: bv32, n: nat): nat { Stream0(seed0, n) + Stream1(seed1, n) }

  function Column0(seed0: bv32, seed1: bv32, n: nat): nat {
    Complement(Out1(After1(seed1, n))) + Complement(Out0(After0(seed0, n)))
  }

  lemma TotalStep(seed0: bv32, seed1: bv32, n: nat)
    ensures Total(seed0, seed1, n + 1) == Total(seed0, seed1, n) + Pow2(n) * Column0(seed0, seed1, n)
  {
    var c0, c1 := Complement(Out0(After0(seed0, n))), Complement(Out1(After1(seed1, n)));
    assert Pow2(n) * (c1 + c0) == Pow2(n) * c1 + Pow2(n) * c0;
  }

  /** What the byte loop keeps: bytes written, bits of the current one and the carry add up. */
  ghost predicate Adds(seed0: bv32, seed1: bv32, low: nat, k: nat, bit: nat, val: nat, carry: nat) {
    && carry <= 1 && val < Pow2(bit)
    && low + Pow256(k) * val + Pow256(k) * Pow2(bit) * carry == Total(seed0, seed1, 8 * k + bit)
  }

  lemma AddsStep(seed0: bv32, seed1: bv32, low: nat, k: nat, bit: nat, val: nat, carry: nat)
    requires Adds(seed0, seed1, low, k, bit, val, carry)
    ensures var c := Column0(seed0, seed1, 8 * k + bit) + carry;
      Adds(seed0, seed1, low, k, bit + 1, val + Pow2(bit) * (c % 2), c / 2)
  {
    hide Pow2; hide Pow256; hide Total; hide Column0;
    var c := Column0(seed0, seed1, 8 * k + bit);
    Pow2Step(bit);
    BitAdded(val, Pow2(bit), (c + carry) % 2);
    ColumnBound(seed0, seed1, 8 * k + bit);
    PowerSplit(k, bit);
    TotalStep(seed0, seed1, 8 * k + bit);
    Column(low, Pow256(k), val, Pow2(bit), carry, Total(seed0, seed1, 8 * k + bit), c);
  }

  lemma Pow2Step(n: nat)
    ensures Pow2(n + 1) == 2 * Pow2(n)
  {
  }

  lemma ColumnBound(seed0: bv32, seed1: bv32, n: nat)
    ensures Column0(seed0, seed1, n) <= 2
  {
  }

  lemma BitAdded(val: nat, q: nat, bit: nat)
    requires val < q && bit <= 1
    ensures val + q * bit < 2 * q
  {
  }

  lemma Carried(low: nat, p: nat, val: nat, carry: nat, sum: nat)
    requires low + p * val + p * 256 * carry == sum
    ensures (val * p + low) + (256 * p) * 0 + (256 * p) * 1 * carry == sum
  {
    assert p * 256 * carry == (256 * p) * 1 * carry;
  }

  lemma Pow2Eight()
    ensures Pow2(8) == 256 && Pow2(0) == 1
  {
    PowersMeet(1);
    assert Pow256(1) == 256 * Pow256(0);
  }

  lemma BytePrepended(b: byte, s: seq<byte>)
    ensures FromBytes([b] + s) == b * Pow256(|s|) + FromBytes(s) && Pow256(|s| + 1) == 256 * Pow256(|s|)
  {
    FromBytesAppend([b], s);
    assert FromBytes([b]) == b by { assert [b][..0] == []; }
  }

  /** A finished byte goes below the carry, and the next one starts above it. */
  lemma AddsByte(seed0: bv32, seed1: bv32, written: seq<byte>, val: nat, carry: nat)
    requires Adds(seed0, seed1, FromBytes(written), |written|, 8, val, carry)
    ensures val < 256 && Adds(seed0, seed1, FromBytes([val] + written), |written| + 1, 0, 0, carry)
  {
    hide Pow2; hide Pow256; hide FromBytes; hide Total;
    var k := |written|;
    Pow2Eight();
    BytePrepended(val, written);
    Carried(FromBytes(written), Pow256(k), val, carry, Total(seed0, seed1, 8 * k + 8));
    assert 8 * (k + 1) + 0 == 8 * k + 8;
  }

  lemma AddsDone(seed0: bv32, seed1: bv32, bits: seq<byte>, carry: nat)
    requires |bits| == 30 && Adds(seed0, seed1, FromBytes(bits), 30, 0, 0, carry)
    ensures FromBytes(bits) == (Stream0(seed0, 240) + Stream1(seed1, 240)) % Pow2(240)
  {
    hide Pow2; hide Pow256; hide FromBytes; hide Stream0; hide Stream1;
    PowersMeet(30);
    Pow2Eight();
    FromBytesBound(bits);
    Product(Pow256(30), Pow2(0), carry);
    RemainderUnique(Total(seed0, seed1, 240), carry, FromBytes(bits), Pow2(240));
  }

  lemma Product(p: nat, one: nat, carry: nat)
    requires one == 1
    ensures p * 0 == 0 && p * one * carry == carry * p
  {
  }

  lemma AfterNone(seed0: bv32, seed1: bv32)
    ensures After0(seed0, 0) == seed0 && After1(seed1, 0) == seed1
  {
  }

  lemma AfterStep(seed0: bv32, seed1: bv32, n: nat)
    ensures After0(seed0, n + 1) == Next0(After0(seed0, n)) && After1(seed1, n + 1) == Next1(After1(seed1, n))
  {
  }

  /** The loop of `crypt_key`: its thirty bytes, index 29 least significant, are the sum of the two
      complemented streams modulo 2^240. The registers stay live throughout. */
  method KeyStream(seed0: bv32, seed1: bv32) returns (bits: array<byte>)
    requires Live0(seed0) && Live1(seed1)
    ensures fresh(bits) && bits.Length == 30
    ensures FromBytes(bits[..]) == (Stream0(seed0, 240) + Stream1(seed1, 240)) % Pow2(240)
  {
    hide Live0; hide Live1; hide Out0; hide Out1; hide Next0; hide Next1; hide After0; hide After1; hide Adds;
    hide FromBytes; hide Stream0; hide Stream1; hide Pow2; hide Complement;
    bits := new byte[30](i => 0);
    var lfsr0, lfsr1, carry := seed0, seed1, 0;
    var idx := 30;
    AddsNone(seed0, seed1, bits[30..]);
    AfterNone(seed0, seed1);
    while idx > 0
      invariant 0 <= idx <= 30 && fresh(bits) && Live0(lfsr0) && Live1(lfsr1) && 0 <= carry
      invariant lfsr0 == After0(seed0, 8 * (30 - idx)) && lfsr1 == After1(seed1, 8 * (30 - idx))
      invariant Adds(seed0, seed1, FromBytes(bits[idx..]), 30 - idx, 0, 0, carry)
    {
      ghost var written := bits[idx..];
      var val, bit := 0, 0;
      while bit < 8
        invariant 0 <= bit <= 8 && Live0(lfsr0) && Live1(lfsr1) && 0 <= carry && 0 <= val && bits[idx..] == written
        invariant lfsr0 == After0(seed0, 8 * (30 - idx) + bit) && lfsr1 == After1(seed1, 8 * (30 - idx) + bit)
        invariant Adds(seed0, seed1, FromBytes(written), 30 - idx, bit, val, carry)
      {
        AddsStep(seed0, seed1, FromBytes(written), 30 - idx, bit, val, carry);
        AfterStep(seed0, seed1, 8 * (30 - idx) + bit);
        var out0 := Out0(lfsr0);
        Next0Live(lfsr0);
        lfsr0 := Next0(lfsr0);
        var out1 := Out1(lfsr1);
        Next1Live(lfsr1);
        lfsr1 := Next1(lfsr1);
        var combined := Complement(out1) + carry + Complement(out0);
        carry := combined / 2;
        val := val + Pow2(bit) * (combined % 2);
        bit := bit + 1;
      }
      AddsByte(seed0, seed1, written, val, carry);
      idx := idx - 1;
      bits[idx] := val;
      assert bits[idx..] == [val] + written;
    }
    AddsDone(seed0, seed1, bits[0..], carry);
    assert bits[0..] == bits[..];
  }

  lemma AddsNone(seed0: bv32, seed1: bv32, none: seq<byte>)
    requires none == []
    ensures Adds(seed0, seed1, FromBytes(none), 0, 0, 0, 0)
  {
  }

  // ----- the session -----

  datatype CssError = AuthFailed | BusDead

  function KeyCdb(opcode: byte, agid: byte, format: byte, len: byte): Cdb
    requires agid < 4 && format < 64
  {
    [opcode, 0, 0, 0, 0, 0, 0, 0, 0, len, agid * 64 + format, 0]
  }

  const ALLOCATE: Cdb := [REPORT_KEY, 0, 0, 0, 0, 0, 0, 0, 0, 8, 0, 0]

  function ReleaseCdb(agid: byte): (cdb: Cdb)
    requires agid < 4
    ensures IsAgidRelease(cdb) && NamedAgid(cdb) == agid
  {
    KeyCdb(REPORT_KEY, agid, 0x3F, 0)
  }

  /** `css_scsi`: a dead bus stays one; a sense, another fault or a short answer is a failed handshake. */
  function StepOutcome(r: Reply, min: nat, len: nat): Result<seq<byte>, CssError> {
    match r
    case Failed(_, _) => Err(if IsDeadBus(r) then BusDead else AuthFailed)
    case Answered(status, transferred, _, data) =>
      if status != 0 || transferred < min then Err(AuthFailed) else Ok(Buffer(data, len))
  }

  /** A step succeeds on a GOOD answer that is long enough, and only a dead bus is reported as one. */
  lemma StepMeaning(r: Reply, min: nat, len: nat)
    ensures StepOutcome(r, min, len).Ok? <==> r.Answered? && r.status == 0 && r.transferred >= min
    ensures StepOutcome(r, min, len).Ok? ==> StepOutcome(r, min, len).value == Buffer(r.data, len)
    ensures StepOutcome(r, min, len) == Err(BusDead) <==> r == DEAD
  {
  }

  function Reversed(s: seq<byte>): (r: seq<byte>)
    ensures |r| == |s| && forall i :: 0 <= i < |s| ==> r[i] == s[|s| - 1 - i]
  {
    seq<byte>(|s|, i requires 0 <= i < |s| => s[|s| - 1 - i])
  }

  /** The history grew, and no clean-up command was sent. */
  ghost predicate NoCleanup(was: seq<Event>, log: seq<Event>) {
    was <= log && forall i :: |was| <= i < |log| ==> !log[i].Cleanup?
  }

  /** The AGID a GOOD full answer to the allocation grants. */
  function GrantedBy(e: Event): Option<byte> {
    if e.Exec? && e.cdb == ALLOCATE && StepOutcome(e.reply, 8, 8).Ok?
    then Some(StepOutcome(e.reply, 8, 8).value[7] / 64) else None
  }

  /** What a step came to, read off its event; a stopped host sees a dead bus. */
  function OutcomeOf(e: Event, min: nat, len: nat): Result<seq<byte>, CssError> {
    StepOutcome(if e.Exec? then e.reply else DEAD, min, len)
  }

  /** The command went out with this data, or was refused by a stopped host. */
  predicate Issues(e: Event, cdb: Cdb, out: seq<byte>) {
    (e.Exec? && e.cdb == cdb && e.out == out) || e == Event.Refused(cdb)
  }

  method Step(t: Transport, cdb: Cdb, out: seq<byte>, min: nat, len: nat) returns (r: Result<seq<byte>, CssError>)
    modifies t
    ensures |t.world.log| == |old(t.world.log)| + 1 && old(t.world.log) <= t.world.log
    ensures var e := t.world.log[|old(t.world.log)|]; Issues(e, cdb, out) && r == OutcomeOf(e, min, len)
    ensures r.Ok? ==> |r.value| == len && t.world.log[|old(t.world.log)|].Exec?
    ensures NoCleanup(old(t.world.log), t.world.log)
  {
    var answer := t.Execute(cdb, out);
    r := StepOutcome(answer, min, len);
  }

  /** The first variant whose key is the drive's. */
  ghost predicate FirstVariant(crypt: (nat, nat, seq<byte>) -> seq<byte>, challenge: seq<byte>, key: seq<byte>,
      v: nat) {
    v < 32 && crypt(0, v, challenge) == key && forall u: nat :: u < v ==> crypt(0, u, challenge) != key
  }

  /** Whether any variant explains the drive's answer to the host's challenge. */
  ghost predicate Explained(crypt: (nat, nat, seq<byte>) -> seq<byte>, host: seq<byte>, e: Event)
    requires OutcomeOf(e, 12, 12).Ok?
  {
    exists v: nat :: FirstVariant(crypt, host, Reversed(OutcomeOf(e, 12, 12).value[4..9]), v)
  }

  /** The exchange, read off the history. The host sends its challenge, reads the drive's key, reads the
      drive's challenge, and answers it under the first variant that explains the drive's key. It stops
      at the first step that fails, or at a key no variant explains. */
  ghost predicate Exchanged(crypt: (nat, nat, seq<byte>) -> seq<byte>, host: seq<byte>, agid: byte, seg: seq<Event>,
                            failure: Option<CssError>)
  {
    agid < 4 && 1 <= |seg| <= 4
    && Issues(seg[0], KeyCdb(0xA3, agid, 1, 16), [0, 0x0E, 0, 0] + Reversed(host) + [0, 0])
    && match OutcomeOf(seg[0], 0, 0)
       case Err(e) => |seg| == 1 && failure == Some(e)
       case Ok(_) => KeyRead(crypt, host, agid, seg, failure)
  }

  ghost predicate KeyRead(crypt: (nat, nat, seq<byte>) -> seq<byte>, host: seq<byte>, agid: byte, seg: seq<Event>,
                          failure: Option<CssError>)
    requires agid < 4
  {
    2 <= |seg| <= 4 && Issues(seg[1], KeyCdb(REPORT_KEY, agid, 2, 12), [])
    && match OutcomeOf(seg[1], 12, 12)
       case Err(e) => |seg| == 2 && failure == Some(e)
       case Ok(key) =>
         if Explained(crypt, host, seg[1]) then ChallengeRead(crypt, host, agid, key, seg, failure)
         else |seg| == 2 && failure == Some(AuthFailed)
  }

  ghost predicate ChallengeRead(crypt: (nat, nat, seq<byte>) -> seq<byte>, host: seq<byte>, agid: byte,
                                key: seq<byte>, seg: seq<Event>, failure: Option<CssError>)
    requires agid < 4 && |key| == 12
  {
    3 <= |seg| <= 4 && Issues(seg[2], KeyCdb(REPORT_KEY, agid, 1, 16), [])
    && match OutcomeOf(seg[2], 16, 16)
       case Err(e) => |seg| == 3 && failure == Some(e)
       case Ok(challenge) =>
         |seg| == 4 && Answers(crypt, host, agid, key, challenge, seg[3])
         && failure == match OutcomeOf(seg[3], 0, 0) case Err(e) => Some(e) case Ok(_) => None
  }

  /** The key sent back answers the drive's challenge under the first variant that explains its key. */
  ghost predicate Answers(crypt: (nat, nat, seq<byte>) -> seq<byte>, host: seq<byte>, agid: byte, key: seq<byte>,
                          challenge: seq<byte>, e: Event)
    requires agid < 4 && |key| == 12 && |challenge| == 16
  {
    exists v: nat :: FirstVariant(crypt, host, Reversed(key[4..9]), v) &&
      Issues(e, KeyCdb(0xA3, agid, 3, 12),
             [0, 0x0A, 0, 0] + Reversed(crypt(1, v, Reversed(challenge[4..14]))) + [0, 0, 0])
  }

  function Failure(r: Result<(), CssError>): Option<CssError> { if r.Err? then Some(r.error) else None }

  method Authenticate(t: Transport, crypt: (nat, nat, seq<byte>) -> seq<byte>, host: seq<byte>, agid: byte)
    returns (r: Result<(), CssError>)
    requires |host| == 10 && agid < 4
    modifies t
    ensures NoCleanup(old(t.world.log), t.world.log)
    ensures old(t.world.log) <= t.world.log
    ensures Exchanged(crypt, host, agid, t.world.log[|old(t.world.log)|..], Failure(r))
  {
    hide KeyCdb; hide OutcomeOf; hide Issues; hide FirstVariant;
    ghost var was := t.world.log;
    var sent, answer, drive, done;
    sent := Step(t, KeyCdb(0xA3, agid, 1, 16), [0, 0x0E, 0, 0] + Reversed(host) + [0, 0], 0, 0);
    ghost var seg := t.world.log[|was|..];
    assert |seg| == 1 && seg[0] == t.world.log[|was|];
    if sent.Err? { return Err(sent.error); }
    answer := Step(t, KeyCdb(REPORT_KEY, agid, 2, 12), [], 12, 12);
    seg := t.world.log[|was|..];
    assert |seg| == 2 && seg[0] == t.world.log[|was|] && seg[1] == t.world.log[|was| + 1];
    if answer.Err? { return Err(answer.error); }
    var key1 := Reversed(answer.value[4..9]);
    var v := 0;
    while v < 32 && crypt(0, v, host) != key1
      invariant 0 <= v <= 32 && forall u: nat :: u < v ==> crypt(0, u, host) != key1
    {
      v := v + 1;
    }
    VariantFound(crypt, host, key1, v);
    if v == 32 { return Err(AuthFailed); }
    drive := Step(t, KeyCdb(REPORT_KEY, agid, 1, 16), [], 16, 16);
    seg := t.world.log[|was|..];
    assert |seg| == 3 && seg[2] == t.world.log[|was| + 2];
    assert seg[0] == t.world.log[|was|] && seg[1] == t.world.log[|was| + 1];
    if drive.Err? { return Err(drive.error); }
    var key2 := crypt(1, v, Reversed(drive.value[4..14]));
    done := Step(t, KeyCdb(0xA3, agid, 3, 12), [0, 0x0A, 0, 0] + Reversed(key2) + [0, 0, 0], 0, 0);
    seg := t.world.log[|was|..];
    assert |seg| == 4 && seg[2] == t.world.log[|was| + 2] && seg[3] == t.world.log[|was| + 3];
    assert seg[0] == t.world.log[|was|] && seg[1] == t.world.log[|was| + 1];
    assert Answers(crypt, host, agid, answer.value, drive.value, seg[3]);
    r := if done.Err? then Err(done.error) else Ok(());
  }

  /** The search ends at the first variant, or finds none. */
  lemma VariantFound(crypt: (nat, nat, seq<byte>) -> seq<byte>, host: seq<byte>, key: seq<byte>, v: nat)
    requires v <= 32 && (forall u: nat :: u < v ==> crypt(0, u, host) != key) && (v < 32 ==> crypt(0, v, host) == key)
    ensures if v < 32 then FirstVariant(crypt, host, key, v) else forall u: nat :: !FirstVariant(crypt, host, key, u)
  {
  }

  /** A session, read off the history: the sweep, the allocation, and on a granted AGID the exchange. The
      AGID is released, once and as the very last command, exactly if the exchange fails. */
  ghost predicate SessionShows(crypt: (nat, nat, seq<byte>) -> seq<byte>, host: seq<byte>, seg: seq<Event>,
                               r: Result<byte, CssError>)
  {
    && |seg| >= 5 && (forall i: nat :: i < 4 ==> Issues(seg[i], ReleaseCdb(i), [])) && Issues(seg[4], ALLOCATE, [])
    && var granted := OutcomeOf(seg[4], 8, 8);
       if granted.Err? then |seg| == 5 && r == Err(granted.error)
       else
         var agid := granted.value[7] / 64;
         if r.Ok? then r.value == agid && Exchanged(crypt, host, agid, seg[5..], None)
         else
           && |seg| >= 6 && Exchanged(crypt, host, agid, seg[5..|seg| - 1], Some(r.error))
           && seg[|seg| - 1].Cleanup? && seg[|seg| - 1].cdb == ReleaseCdb(agid)
  }

  /** `establish_authenticated_session`. An AGID granted is released, once and as the very last command,
      on every failure, even after a cancel; on success it stays with the caller; and an AGID never
      granted is never released. */
  method EstablishSession(t: Transport, crypt: (nat, nat, seq<byte>) -> seq<byte>, host: seq<byte>)
    returns (r: Result<byte, CssError>, ghost granted: Option<byte>, ghost before: seq<Event>)
    requires |host| == 10
    modifies t
    ensures old(t.world.log) <= t.world.log && SessionShows(crypt, host, t.world.log[|old(t.world.log)|..], r)
    ensures r.Ok? ==> granted == Some(r.value) && NoCleanup(old(t.world.log), t.world.log)
    ensures r.Err? && granted.None? ==> NoCleanup(old(t.world.log), t.world.log)
    ensures r.Err? && granted.Some? ==>
              && granted.value < 4 && NoCleanup(old(t.world.log), before)
              && |t.world.log| == |before| + 1 && before <= t.world.log
              && t.world.log[|before|].Cleanup? && t.world.log[|before|].cdb == ReleaseCdb(granted.value)
    ensures |t.world.log| > |old(t.world.log)| + 4 && granted == GrantedBy(t.world.log[|old(t.world.log)| + 4])
  {
    hide Exchanged; hide KeyCdb; hide ReleaseCdb; hide SessionShows; hide OutcomeOf; hide Issues;
    granted, before := None, [];
    ghost var was := t.world.log;
    var agid := 0;
    while agid < 4
      invariant 0 <= agid <= 4 && NoCleanup(was, t.world.log) && |t.world.log| == |was| + agid
      invariant forall i: nat :: |was| <= i < |t.world.log| ==> Issues(t.world.log[i], ReleaseCdb(i - |was|), [])
    {
      ghost var log := t.world.log;
      var _ := t.Execute(ReleaseCdb(agid), []);
      SweepIssues(t.world.log[|log|], ReleaseCdb(agid));
      agid := agid + 1;
    }
    ghost var swept := t.world.log;
    var answer := Step(t, ALLOCATE, [], 8, 8);
    ghost var five := t.world.log;
    AllocationGrants(five[|swept|]);
    if answer.Err? {
      SessionRefused(crypt, host, was, five, answer.error);
      return Err(answer.error), None, [];
    }
    agid := answer.value[7] / 64;
    granted := Some(agid);
    var guard := new AgidGuard(t, agid, ReleaseCdb(agid));
    var session := Authenticate(t, crypt, host, agid);
    before := t.world.log;
    if session.Err? {
      guard.Drop();
      SessionOver(crypt, host, was, five, before, t.world.log, agid, Some(session.error));
      return Err(session.error), granted, before;
    }
    var held := guard.Defuse();
    SessionOver(crypt, host, was, five, before, before, agid, None);
    r := Ok(held);
  }

  lemma SweepIssues(e: Event, cdb: Cdb)
    ensures (e.Exec? && e.cdb == cdb && e.out == []) || e == Event.Refused(cdb) ==> Issues(e, cdb, [])
  {
  }

  lemma AllocationGrants(e: Event)
    ensures Issues(e, ALLOCATE, []) ==>
              GrantedBy(e) == match OutcomeOf(e, 8, 8) case Ok(b) => Some(b[7] / 64) case Err(_) => None
  {
  }

  lemma SessionRefused(crypt: (nat, nat, seq<byte>) -> seq<byte>, host: seq<byte>, was: seq<Event>, five: seq<Event>,
                       e: CssError)
    requires was <= five && |five| == |was| + 5 && Issues(five[|was| + 4], ALLOCATE, [])
    requires forall i: nat :: |was| <= i < |was| + 4 ==> Issues(five[i], ReleaseCdb(i - |was|), [])
    requires OutcomeOf(five[|was| + 4], 8, 8) == Err(e)
    ensures SessionShows(crypt, host, five[|was|..], Err(e))
  {
    hide Issues; hide ReleaseCdb; hide OutcomeOf;
  }

  lemma SessionOver(crypt: (nat, nat, seq<byte>) -> seq<byte>, host: seq<byte>, was: seq<Event>, five: seq<Event>,
                    before: seq<Event>, log: seq<Event>, agid: byte, failure: Option<CssError>)
    requires was <= five <= before <= log && |five| == |was| + 5 && Issues(five[|was| + 4], ALLOCATE, [])
    requires forall i: nat :: |was| <= i < |was| + 4 ==> Issues(five[i], ReleaseCdb(i - |was|), [])
    requires OutcomeOf(five[|was| + 4], 8, 8).Ok? && agid == OutcomeOf(five[|was| + 4], 8, 8).value[7] / 64
    requires Exchanged(crypt, host, agid, before[|five|..], failure)
    requires if failure.None? then log == before
             else |log| == |before| + 1 && log[|before|].Cleanup? && log[|before|].cdb == ReleaseCdb(agid)
    ensures SessionShows(crypt, host, log[|was|..], if failure.Some? then Err(failure.value) else Ok(agid))
  {
    hide Issues; hide ReleaseCdb; hide OutcomeOf; hide Exchanged;
    var seg := log[|was|..];
    assert seg[5..|before| - |was|] == before[|five|..];
    assert failure.None? ==> seg[5..] == before[|five|..];
  }
}
