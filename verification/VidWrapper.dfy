/** The READ DISC STRUCTURE wrapper: it answers the Volume ID request of a suppressed drive from the
    hardware registers, staging the reply inside the resident payload and clearing it again. */
module VidWrapper {
  import opened Bytes
  import opened Ram
  import opened H8s
  import W = Wrapper

  // ----- the program -----

  function EntryCode(m: Machine): Code {
    Do(Push(2),
       W.Check(0, 0xad, NotEqual, VidOem, W.Check(1, 1, NotEqual, VidOem, W.Check(7, 0x80, NotEqual, VidOem,
       W.CheckLong(m.security, m.policy, NotEqual, VidOem, AgidCode())))))
  }

  function AgidCode(): Code {
    Do(LoadByte(1, 10), Do(AndLow(0x3f), Do(Branch(NotEqual, VidInvalid),
       W.Check(10, 0, NotEqual, VidOem, FieldsCode()))))
  }

  function FieldsCode(): Code {
    W.Check(2, 0, NotEqual, VidInvalid, W.Check(3, 0, NotEqual, VidInvalid, W.Check(4, 0, NotEqual, VidInvalid,
    W.Check(5, 0, NotEqual, VidInvalid, W.Check(6, 0, NotEqual, VidInvalid, W.Check(11, 0, NotEqual, VidInvalid,
    LengthCode()))))))
  }

  function LengthCode(): Code {
    Do(Push(3), Do(Push(4), Do(MoveWord(1, 8, 3), Do(ExtendWord(3),
    Do(CompareLong(3, 0), Do(Branch(Equal, VidEmpty), Do(CompareLong(3, 36), Do(Branch(CarrySet, VidLength),
    Do(SetLong(3, 36), End)))))))))
  }

  function StatusCode(m: Machine): Code {
    Do(LoadByteAt(m.vidStatus), Do(AndLow(2), Do(Branch(Equal, VidUnavailable),
    Do(SetLong(4, m.vidData), CopyVid(m, 0, SendCode(m))))))
  }

  function CopyVid(m: Machine, i: nat, k: Code): Code
    decreases 16 - i
  {
    if i >= 16 then k else Do(LoadByteAt(m.vidSource + i), Do(StoreByte(4, i + 4), CopyVid(m, i + 1, k)))
  }

  function SendCode(m: Machine): Code {
    Do(MoveLong(4, 2), Do(SubtractLong(2, CONTROLLER), W.Transfer(m,
    Do(ClearLow(2), ClearVid(0, Do(Branch(Always, VidReturn), End))))))
  }

  function ClearVid(i: nat, k: Code): Code
    decreases 16 - i
  {
    if i >= 16 then k else Do(StoreByte(4, i + 4), ClearVid(i + 1, k))
  }

  function NameOf(n: nat): Label {
    match n
    case 0 => VidEntry
    case 1 => VidLength
    case 2 => VidEmpty
    case 3 => VidReturn
    case 4 => VidUnavailable
    case 5 => VidInvalid
    case _ => VidOem
  }

  function CodeOf(m: Machine, n: nat): Code {
    match n
    case 0 => EntryCode(m)
    case 1 => StatusCode(m)
    case 2 => Do(ClearLow(0), End)
    case 3 => Do(Pop(4), Do(Pop(3), Do(Pop(2), Do(Rts, End))))
    case 4 => Do(Pop(4), Do(Pop(3), End))
    case 5 => W.InvalidCode(m)
    case _ => Do(Pop(2), Do(Jmp(m.vidMain), End))
  }

  /** The wrapper from block `n` on, in the order of emission. */
  function From(m: Machine, n: nat): Program
    decreases 7 - n
  {
    if n >= 7 then Nothing else Block(NameOf(n), CodeOf(m, n), From(m, n + 1))
  }

  function Number(l: Label): nat {
    match l
    case VidEntry => 0 case VidLength => 1 case VidEmpty => 2 case VidReturn => 3
    case VidUnavailable => 4 case VidInvalid => 5 case VidOem => 6 case _ => 7
  }

  lemma BlockShape(m: Machine, n: nat)
    requires n < 7
    ensures From(m, n) == Block(NameOf(n), CodeOf(m, n), From(m, n + 1)) && Number(NameOf(n)) == n
  {
  }

  lemma NumberInjective(k: Label, l: Label)
    requires Number(k) == Number(l) < 7
    ensures k == l
  {
  }

  lemma {:induction false} Labels(m: Machine, n: nat, l: Label)
    requires n <= Number(l) < 7
    ensures At(From(m, n), l) == From(m, Number(l))
    decreases 7 - n
  {
    hide From; hide Number;
    BlockShape(m, n);
    if n < Number(l) { Labels(m, n + 1, l); } else { NumberInjective(NameOf(n), l); }
  }

  function Go(m: Machine, n: nat, s: Cpu, fuel: nat): Exit { Run(m, From(m, 0), From(m, n), s, fuel) }

  lemma GoOne(m: Machine, n: nat, s: Cpu, fuel: nat)
    requires n < 7 && fuel >= 1
    ensures var e := Exec(m, CodeOf(m, n), s);
      && (e.Fall? ==> Go(m, n, s, fuel) == Go(m, n + 1, e.s, fuel - 1))
      && (e.Goto? && Number(e.goal) < 7 ==> Go(m, n, s, fuel) == Go(m, Number(e.goal), e.s, fuel - 1))
      && (e.Tail? || e.Return? ==> Go(m, n, s, fuel) == e)
  {
    hide Exec; hide Number; hide From;
    BlockShape(m, n);
    var e := Exec(m, CodeOf(m, n), s);
    if e.Goto? && Number(e.goal) < 7 { Labels(m, 0, e.goal); }
  }

  // ----- what a command asks for -----

  datatype Request = Foreign | Malformed | VolumeId(length: nat)

  /** Only a Volume ID request of format 0x80 on a drive under our policy is ours; one with an AGID
      goes to the OEM routine, and any other bit out of place is an error. */
  function Requested(m: Machine, v: View): Request
    requires |v.cdb| == 12
  {
    var c := v.cdb;
    if !(c[0] == 0xad && c[1] == 1 && c[7] == 0x80 && v.security == m.policy) then Foreign
    else if c[10] % 64 != 0 then Malformed
    else if c[10] != 0 then Foreign
    else if c[2..7] != [0, 0, 0, 0, 0] || c[11] != 0 then Malformed
    else VolumeId((c[8] as int) * 256 + c[9])
  }

  lemma OddMask(a: byte, c: byte)
    requires c < 128
    ensures And(a, 2 * c + 1) == 2 * And(a / 2, c) + a % 2
  {
    assert (2 * c + 1) / 2 == c && (2 * c + 1) % 2 == 1;
  }

  lemma HalfMod(a: nat, c: nat)
    requires c > 0
    ensures a % (2 * c) == 2 * (a / 2 % c) + a % 2
  {
    var h := a / 2;
    assert h == c * (h / c) + h % c;
    RemainderUnique(a, h / c, 2 * (h % c) + a % 2, 2 * c) by {
      assert h / c * (2 * c) == 2 * (c * (h / c));
    }
  }

  lemma HalfMask(a: byte, c: byte, half: byte, whole: byte)
    requires c in {1, 2, 4, 8, 16, 32} && half == a / 2 % c && whole == a % (2 * c)
    requires And(a / 2, c - 1) == half
    ensures And(a, 2 * c - 1) == whole
  {
    hide And;
    OddMask(a, c - 1);
    assert 2 * (c - 1) + 1 == 2 * c - 1;
    HalfMod(a, c);
  }

  lemma MaskLow(b: byte)
    ensures And(b, 0x3f) == b % 64
  {
    hide And;
    var b1, b2, b3, b4, b5 := b / 2, b / 2 / 2, b / 2 / 2 / 2, b / 2 / 2 / 2 / 2, b / 2 / 2 / 2 / 2 / 2;
    NoMask(b5 / 2);
    HalfMask(b5, 1, b5 / 2 % 1, b5 % 2);
    HalfMask(b4, 2, b5 % 2, b4 % 4);
    HalfMask(b3, 4, b4 % 4, b3 % 8);
    HalfMask(b2, 8, b3 % 8, b2 % 16);
    HalfMask(b1, 16, b2 % 16, b1 % 32);
    HalfMask(b, 32, b1 % 32, b % 64);
  }

  lemma NoMask(a: byte)
    ensures And(a, 0) == 0
  {
  }

  /** The Volume ID ready bit. */
  predicate Ready(status: byte) { status / 2 % 2 == 1 }

  lemma MaskReady(status: byte)
    ensures And(status, 2) != 0 <==> Ready(status)
  {
    assert And(status, 2) == 2 * And(status / 2, 1);
    assert And(status / 2, 1) == status / 2 % 2;
  }

  // ----- staging the reply in the payload -----

  /** The 36-byte reply area lies inside the payload, above the controller base. */
  predicate Inside(m: Machine) {
    m.base <= m.vidData && m.vidData + 36 <= m.base + m.size && CONTROLLER <= m.vidData
  }

  function Area36(m: Machine, v: View): seq<byte>
    requires Inside(m) && |v.payload| == m.size
  {
    v.payload[m.vidData - m.base..m.vidData - m.base + 36]
  }

  /** One byte stored into the payload. */
  lemma StoreSeen(m: Machine, mem: Ram, at: nat, b: byte)
    requires Placed(m) && m.base <= at < m.base + m.size
    ensures |Seen(m, mem).payload| == m.size
    ensures var v, w := Seen(m, mem), Seen(m, Put(mem, at, [b])); w == v.(payload := v.payload[at - m.base := b])
    ensures forall sp: nat :: m.floor <= sp ==> Stack(Put(mem, at, [b]), sp, m.top) == Stack(mem, sp, m.top)
  {
    hide Stack; hide Placed;
    SeenElsewhere(m, mem, 5, at, [b]);
    var v, w := Seen(m, mem), Seen(m, Put(mem, at, [b]));
    assert w.payload == v.payload[at - m.base := b];
  }

  /** `p'` is `p` with `bytes[i..16]` at 4 and on from the reply area. */
  ghost predicate Staged(m: Machine, p: seq<byte>, bytes: seq<byte>, i: nat, p': seq<byte>)
    requires Inside(m)
  {
    var o := m.vidData - m.base + 4;
    && |p| == |p'| == m.size && |bytes| == 16
    && forall j: nat {:trigger p'[j]} :: j < m.size ==> p'[j] == if o + i <= j < o + 16 then bytes[j - o] else p[j]
  }

  lemma StagedStep(m: Machine, p: seq<byte>, bytes: seq<byte>, i: nat, p': seq<byte>)
    requires Inside(m) && i < 16 && |p| == m.size && |bytes| == 16
    requires Staged(m, p[m.vidData - m.base + 4 + i := bytes[i]], bytes, i + 1, p')
    ensures Staged(m, p, bytes, i, p')
  {
  }

  lemma StagedNone(m: Machine, mem: Ram)
    requires Inside(m)
    ensures var p := Seen(m, mem).payload;
      Staged(m, p, Seen(m, mem).live.vid, 16, p) && Staged(m, p, Zeros(16), 16, p)
  {
  }

  lemma VidSeen(m: Machine, mem: Ram, i: nat)
    requires i < 16
    ensures |Seen(m, mem).live.vid| == 16 && Seen(m, mem).live.vid[i] == Get(mem, m.vidSource + i)
  {
  }

  lemma {:induction false} CopyVidRun(m: Machine, i: nat, k: Code, s: Cpu) returns (t: Cpu)
    requires Placed(m) && Inside(m) && i <= 16 && s.regs.r4 == m.vidData
    ensures Exec(m, CopyVid(m, i, k), s) == Exec(m, k, t)
    ensures t.regs == s.regs.(r2 := t.regs.r2) && t.shown == s.shown
    ensures Staged(m, Seen(m, s.mem).payload, Seen(m, s.mem).live.vid, i, Seen(m, t.mem).payload)
    ensures Seen(m, t.mem) == Seen(m, s.mem).(payload := Seen(m, t.mem).payload)
    ensures forall sp: nat :: m.floor <= sp ==> Stack(t.mem, sp, m.top) == Stack(s.mem, sp, m.top)
    decreases 16 - i
  {
    hide Exec; hide Placed; hide Stack; hide Seen; hide Staged; hide Put; hide Get;
    if i == 16 {
      t := s;
      StagedNone(m, s.mem);
    } else {
      var k1 := CopyVid(m, i + 1, k);
      W.One(m, LoadByteAt(m.vidSource + i), Do(StoreByte(4, i + 4), k1), s);
      var a := Step(m, LoadByteAt(m.vidSource + i), s).s;
      W.One(m, StoreByte(4, i + 4), k1, a);
      var b := Step(m, StoreByte(4, i + 4), a).s;
      StoreSeen(m, a.mem, m.vidData + i + 4, a.regs.r2 % 256);
      VidSeen(m, s.mem, i);
      t := CopyVidRun(m, i + 1, k, b);
      StagedStep(m, Seen(m, s.mem).payload, Seen(m, s.mem).live.vid, i, Seen(m, t.mem).payload);
    }
  }

  lemma {:induction false} ClearVidRun(m: Machine, i: nat, k: Code, s: Cpu) returns (t: Cpu)
    requires Placed(m) && Inside(m) && i <= 16 && s.regs.r4 == m.vidData && s.regs.r2 % 256 == 0
    ensures Exec(m, ClearVid(i, k), s) == Exec(m, k, t)
    ensures t.regs == s.regs && t.shown == s.shown
    ensures Staged(m, Seen(m, s.mem).payload, Zeros(16), i, Seen(m, t.mem).payload)
    ensures Seen(m, t.mem) == Seen(m, s.mem).(payload := Seen(m, t.mem).payload)
    ensures forall sp: nat :: m.floor <= sp ==> Stack(t.mem, sp, m.top) == Stack(s.mem, sp, m.top)
    decreases 16 - i
  {
    hide Exec; hide Placed; hide Stack; hide Seen; hide Staged; hide Put; hide Get;
    if i == 16 {
      t := s;
      StagedNone(m, s.mem);
    } else {
      W.One(m, StoreByte(4, i + 4), ClearVid(i + 1, k), s);
      var a := Step(m, StoreByte(4, i + 4), s).s;
      StoreSeen(m, s.mem, m.vidData + i + 4, 0);
      t := ClearVidRun(m, i + 1, k, a);
      StagedStep(m, Seen(m, s.mem).payload, Zeros(16), i, Seen(m, t.mem).payload);
    }
  }

  // ----- the run -----

  lemma OemRun(m: Machine, s0: Cpu, s: Cpu, fuel: nat) returns (t: Cpu)
    requires Placed(m) && W.AtGate(m, s0, s) && fuel >= 1
    ensures Go(m, 6, s, fuel) == Tail(m.vidMain, t) && t.regs == s0.regs && t.shown == s.shown && t.mem == s.mem
  {
    hide Exec; hide Go; hide From; hide Placed; hide Stack;
    W.PlacedBounds(m);
    GoOne(m, 6, s, fuel);
    t := W.PopOne(m, 2, Do(Jmp(m.vidMain), End), s);
    W.JmpEnds(m, m.vidMain, t);
  }

  lemma InvalidRun(m: Machine, s0: Cpu, s: Cpu, fuel: nat) returns (t: Cpu)
    requires Placed(m) && Conventional(m) && W.AtGate(m, s0, s) && fuel >= 1
    ensures Go(m, 5, s, fuel) == Return(t) && W.Restores(s0, t) && t.regs.r0 % 256 == 1
    ensures t.shown == s.shown.(rejected := s.shown.rejected + 1)
    ensures Seen(m, t.mem) == Seen(m, s.mem).(live := Seen(m, t.mem).live)
  {
    hide Exec; hide Seen; hide Stack; hide Go; hide From; hide Placed; hide Conventional;
    GoOne(m, 5, s, fuel);
    t := W.InvalidExec(m, s0, s);
  }

  /** Past the checks: ER2, ER3 and ER4 lie on the stack. */
  ghost predicate Saved(m: Machine, s0: Cpu, s: Cpu) {
    var a := s0.regs;
    && a.r7 == m.top && s.regs.r7 == m.top - 12 && s.regs.r5 == a.r5 && s.regs.r6 == a.r6
    && Stack(s.mem, s.regs.r7, m.top) == Top(a.r4, Top(a.r3, Top(a.r2, Bottom)))
  }

  lemma ReturnRun(m: Machine, s0: Cpu, s: Cpu, fuel: nat) returns (t: Cpu)
    requires Placed(m) && Saved(m, s0, s) && fuel >= 1
    ensures Go(m, 3, s, fuel) == Return(t) && W.Restores(s0, t) && t.regs.r0 == s.regs.r0
    ensures t.shown == s.shown && t.mem == s.mem
  {
    hide Exec; hide Stack; hide Go; hide From; hide Placed;
    W.PlacedBounds(m);
    GoOne(m, 3, s, fuel);
    t := W.PopOne(m, 4, Do(Pop(3), Do(Pop(2), Do(Rts, End))), s);
    t := W.PopOne(m, 3, Do(Pop(2), Do(Rts, End)), t);
    t := W.PopOne(m, 2, Do(Rts, End), t);
    W.RtsEnds(m, t);
  }

  lemma EmptyRun(m: Machine, s0: Cpu, s: Cpu, fuel: nat) returns (t: Cpu)
    requires Placed(m) && Saved(m, s0, s) && fuel >= 2
    ensures Go(m, 2, s, fuel) == Return(t) && W.Restores(s0, t) && t.regs.r0 % 256 == 0
    ensures t.shown == s.shown && t.mem == s.mem
  {
    hide Exec; hide Stack; hide Go; hide From; hide Placed;
    GoOne(m, 2, s, fuel);
    W.One(m, ClearLow(0), End, s);
    var a := Step(m, ClearLow(0), s).s;
    W.EndFalls(m, a);
    t := ReturnRun(m, s0, a, fuel - 1);
  }

  lemma UnavailableRun(m: Machine, s0: Cpu, s: Cpu, fuel: nat) returns (t: Cpu)
    requires Placed(m) && Conventional(m) && Saved(m, s0, s) && fuel >= 2
    requires s.regs.r0 == s0.regs.r0 && s.regs.r1 == s0.regs.r1
    ensures Go(m, 4, s, fuel) == Return(t) && W.Restores(s0, t) && t.regs.r0 % 256 == 1
    ensures t.shown == s.shown.(rejected := s.shown.rejected + 1)
    ensures Seen(m, t.mem) == Seen(m, s.mem).(live := Seen(m, t.mem).live)
  {
    hide Exec; hide Stack; hide Go; hide From; hide Placed; hide Conventional;
    W.PlacedBounds(m);
    GoOne(m, 4, s, fuel);
    var a := W.PopOne(m, 4, Do(Pop(3), End), s);
    a := W.PopOne(m, 3, End, a);
    W.EndFalls(m, a);
    t := InvalidRun(m, s0, a, fuel - 1);
  }

  /** The whole reply: a four-byte header, the Volume ID and sixteen zero bytes. */
  function Reply(vid: seq<byte>): seq<byte> { [0, 0x22, 0, 0] + vid + Zeros(16) }

  /** The reply area of a payload nobody has touched. */
  predicate Pristine(m: Machine, v: View)
    requires Inside(m)
  {
    |v.payload| == m.size && Area36(m, v) == [0, 0x22, 0, 0] + Zeros(32)
  }

  /** Staging turns the pristine area into the reply; clearing turns it back. */
  lemma StagedReply(m: Machine, v: View, vid: seq<byte>, p: seq<byte>)
    requires Inside(m) && Pristine(m, v) && Staged(m, v.payload, vid, 0, p)
    ensures p[m.vidData - m.base..m.vidData - m.base + 36] == Reply(vid)
    ensures forall q: seq<byte> :: Staged(m, p, Zeros(16), 0, q) ==> q == v.payload
  {
    var o := m.vidData - m.base;
    forall i: nat | i < 36 ensures p[o + i] == Reply(vid)[i] {
      assert v.payload[o + i] == Area36(m, v)[i];
    }
    forall q: seq<byte> | Staged(m, p, Zeros(16), 0, q) ensures q == v.payload {
      forall j: nat | j < m.size ensures q[j] == v.payload[j] {
        if o + 4 <= j < o + 20 { assert v.payload[j] == Area36(m, v)[j - o]; }
      }
    }
  }

  lemma SendRun(m: Machine, s0: Cpu, s: Cpu, fuel: nat, n: Word, v: View, vid: seq<byte>) returns (t: Cpu)
    requires Placed(m) && Conventional(m) && Inside(m) && Saved(m, s0, s) && s.regs.r4 == m.vidData
        && s.regs.r3 == n <= 36
    requires Pristine(m, v) && Staged(m, v.payload, vid, 0, Seen(m, s.mem).payload)
    requires v == Seen(m, s.mem).(payload := v.payload)
    ensures Exec(m, SendCode(m), s) == Goto(VidReturn, t) && Saved(m, s0, t)
    ensures t.shown == s.shown.(sent := s.shown.sent + [W.Sending(Reply(vid)[..n], t)])
    ensures Seen(m, t.mem) == v.(live := Seen(m, t.mem).live)
  {
    hide Exec; hide Stack; hide Placed; hide Conventional; hide Call; hide Seen; hide Staged;
    W.PlacedBounds(m);
    W.SeenSizes(m, s.mem);
    var k4 := Do(Branch(Always, VidReturn), End);
    var k3 := ClearVid(0, k4);
    var k2 := Do(ClearLow(2), k3);
    var k1 := Do(SubtractLong(2, CONTROLLER), W.Transfer(m, k2));
    W.One(m, MoveLong(4, 2), k1, s);
    var a := Step(m, MoveLong(4, 2), s).s;
    W.One(m, SubtractLong(2, CONTROLLER), W.Transfer(m, k2), a);
    var b := Step(m, SubtractLong(2, CONTROLLER), a).s;
    var c := W.TransferRun(m, k2, b);
    StagedReply(m, v, vid, Seen(m, s.mem).payload);
    SentPrefix(m, Seen(m, s.mem).payload, Reply(vid), n);
    W.One(m, ClearLow(2), k3, c);
    var d := Step(m, ClearLow(2), c).s;
    t := ClearVidRun(m, 0, k4, d);
    W.BranchTaken(m, Always, VidReturn, End, t);
  }

  lemma SentPrefix(m: Machine, p: seq<byte>, reply: seq<byte>, n: nat)
    requires Inside(m) && |p| == m.size && n <= 36 && p[m.vidData - m.base..m.vidData - m.base + 36] == reply
    ensures p[m.vidData - m.base..m.vidData - m.base + n] == reply[..n]
  {
  }

  /** The ready bit decides between the rejection and the copy loop. */
  lemma ReadyRun(m: Machine, s: Cpu) returns (t: Cpu)
    ensures t.regs == s.regs.(r2 := t.regs.r2, r4 := t.regs.r4) && t.mem == s.mem && t.shown == s.shown
    ensures if Ready(Seen(m, s.mem).live.status)
            then t.regs.r4 == m.vidData && Exec(m, StatusCode(m), s) == Exec(m, CopyVid(m, 0, SendCode(m)), t)
            else t.regs.r4 == s.regs.r4 && Exec(m, StatusCode(m), s) == Goto(VidUnavailable, t)
  {
    hide Exec; hide Seen; hide And;
    StatusSeen(m, s.mem);
    var k3 := CopyVid(m, 0, SendCode(m));
    var k2 := Do(SetLong(4, m.vidData), k3);
    var k1 := Do(Branch(Equal, VidUnavailable), k2);
    W.One(m, LoadByteAt(m.vidStatus), Do(AndLow(2), k1), s);
    var a := Step(m, LoadByteAt(m.vidStatus), s).s;
    W.One(m, AndLow(2), k1, a);
    t := Step(m, AndLow(2), a).s;
    MaskReady(Seen(m, s.mem).live.status);
    W.BranchTaken(m, Equal, VidUnavailable, k2, t);
    if !t.zero {
      VidDataFits(m);
      W.One(m, SetLong(4, m.vidData), k3, t);
      t := Step(m, SetLong(4, m.vidData), t).s;
    }
  }

  lemma StatusRun(m: Machine, s0: Cpu, s: Cpu, fuel: nat, n: Word) returns (t: Cpu)
    requires Placed(m) && Conventional(m) && Inside(m) && Saved(m, s0, s) && s.regs.r3 == n <= 36 && fuel >= 3
    requires s.regs.r0 == s0.regs.r0 && s.regs.r1 == s0.regs.r1 && Pristine(m, Seen(m, s.mem))
    ensures |Seen(m, s.mem).live.vid| == 16
    ensures Go(m, 1, s, fuel) == Return(t) && W.Restores(s0, t)
    ensures t.shown == if Ready(Seen(m, s.mem).live.status)
                       then s.shown.(sent := s.shown.sent + [W.Sending(Reply(Seen(m, s.mem).live.vid)[..n], t)])
                       else s.shown.(rejected := s.shown.rejected + 1)
    ensures !Ready(Seen(m, s.mem).live.status) ==> t.regs.r0 % 256 == 1
    ensures Seen(m, t.mem) == Seen(m, s.mem).(live := Seen(m, t.mem).live)
  {
    hide Exec; hide Stack; hide Placed; hide Conventional; hide Call; hide Seen; hide Staged; hide Go; hide From;
    hide Pristine;
    hide StatusCode; hide Reply;
    W.PlacedBounds(m);
    VidSeen(m, s.mem, 0);
    GoOne(m, 1, s, fuel);
    var a := ReadyRun(m, s);
    if !Ready(Seen(m, s.mem).live.status) { t := UnavailableRun(m, s0, a, fuel - 1); return; }
    var b := CopyVidRun(m, 0, SendCode(m), a);
    var c := SendRun(m, s0, b, fuel, n, Seen(m, s.mem), Seen(m, s.mem).live.vid);
    t := ReturnRun(m, s0, c, fuel - 1);
  }

  lemma VidDataFits(m: Machine)
    ensures 0 <= m.vidData < 0x1_0000_0000
  {
  }

  lemma StatusSeen(m: Machine, mem: Ram)
    ensures Seen(m, mem).live.status == Get(mem, m.vidStatus)
  {
  }

  /** Past the gate: the clamped length in ER3, or straight to the empty reply. */
  lemma LengthRun(m: Machine, s0: Cpu, s: Cpu) returns (t: Cpu)
    requires Placed(m) && W.AtGate(m, s0, s) && s.regs.r1 == m.cdb
    ensures |Seen(m, s.mem).cdb| == 12
    ensures Saved(m, s0, t) && t.regs.r0 == s0.regs.r0 && t.regs.r1 == s0.regs.r1
    ensures t.shown == s.shown && Seen(m, t.mem) == Seen(m, s.mem)
    ensures var n := (Seen(m, s.mem).cdb[8] as int) * 256 + Seen(m, s.mem).cdb[9];
      && t.regs.r3 == (if n < 36 then n else 36)
      && Exec(m, LengthCode(), s) ==
           if n == 0 then Goto(VidEmpty, t) else if n < 36 then Goto(VidLength, t) else Fall(t)
  {
    hide Exec; hide Stack; hide Placed; hide Seen; hide Get;
    W.PlacedBounds(m);
    W.SeenSizes(m, s.mem);
    var k8 := Do(SetLong(3, 36), End);
    var k7 := Do(Branch(CarrySet, VidLength), k8);
    var k6 := Do(CompareLong(3, 36), k7);
    var k5 := Do(Branch(Equal, VidEmpty), k6);
    var k4 := Do(CompareLong(3, 0), k5);
    var k3 := Do(ExtendWord(3), k4);
    var k2 := Do(MoveWord(1, 8, 3), k3);
    var a := W.PushOne(m, 3, Do(Push(4), k2), s);
    var b := W.PushOne(m, 4, k2, a);
    W.One(m, MoveWord(1, 8, 3), k3, b);
    var c := Step(m, MoveWord(1, 8, 3), b).s;
    CdbSeen(m, b.mem, 8);
    CdbSeen(m, b.mem, 9);
    W.One(m, ExtendWord(3), k4, c);
    var d := Step(m, ExtendWord(3), c).s;
    W.One(m, CompareLong(3, 0), k5, d);
    var e := Step(m, CompareLong(3, 0), d).s;
    W.BranchTaken(m, Equal, VidEmpty, k6, e);
    if e.zero { return e; }
    W.One(m, CompareLong(3, 36), k7, e);
    var f := Step(m, CompareLong(3, 36), e).s;
    W.BranchTaken(m, CarrySet, VidLength, k8, f);
    if f.carry { return f; }
    W.One(m, SetLong(3, 36), End, f);
    t := Step(m, SetLong(3, 36), f).s;
    W.EndFalls(m, t);
  }

  lemma CdbSeen(m: Machine, mem: Ram, i: nat)
    requires i < 12
    ensures |Seen(m, mem).cdb| == 12 && Get(mem, m.cdb + i) == Seen(m, mem).cdb[i]
  {
  }

  /** The result of the checks on the fields that must be zero. */
  lemma FieldsRun(m: Machine, s: Cpu) returns (t: Cpu)
    requires s.regs.r1 == m.cdb
    ensures |Seen(m, s.mem).cdb| == 12 && W.Examined(s, t)
    ensures var c := Seen(m, s.mem).cdb;
      Exec(m, FieldsCode(), s) ==
        if c[2] == 0 && c[3] == 0 && c[4] == 0 && c[5] == 0 && c[6] == 0 && c[11] == 0
        then Exec(m, LengthCode(), t) else Goto(VidInvalid, t)
  {
    hide Exec; hide Seen;
    W.SeenSizes(m, s.mem);
    var k6 := LengthCode();
    var k5 := W.Check(11, 0, NotEqual, VidInvalid, k6);
    var k4 := W.Check(6, 0, NotEqual, VidInvalid, k5);
    var k3 := W.Check(5, 0, NotEqual, VidInvalid, k4);
    var k2 := W.Check(4, 0, NotEqual, VidInvalid, k3);
    var k1 := W.Check(3, 0, NotEqual, VidInvalid, k2);
    t := W.CheckOne(m, 2, 0, NotEqual, VidInvalid, k1, s);
    if !t.zero { return; }
    t := W.CheckOne(m, 3, 0, NotEqual, VidInvalid, k2, t);
    if !t.zero { return; }
    t := W.CheckOne(m, 4, 0, NotEqual, VidInvalid, k3, t);
    if !t.zero { return; }
    t := W.CheckOne(m, 5, 0, NotEqual, VidInvalid, k4, t);
    if !t.zero { return; }
    t := W.CheckOne(m, 6, 0, NotEqual, VidInvalid, k5, t);
    if !t.zero { return; }
    t := W.CheckOne(m, 11, 0, NotEqual, VidInvalid, k6, t);
  }

  lemma AgidRun(m: Machine, s: Cpu) returns (t: Cpu)
    requires s.regs.r1 == m.cdb
    ensures |Seen(m, s.mem).cdb| == 12 && W.Examined(s, t)
    ensures var agid := Seen(m, s.mem).cdb[10];
      Exec(m, AgidCode(), s) ==
        if agid % 64 != 0 then Goto(VidInvalid, t) else if agid != 0 then Goto(VidOem, t) else Exec(m, FieldsCode(), t)
  {
    hide Exec; hide Seen; hide And;
    W.SeenSizes(m, s.mem);
    CdbSeen(m, s.mem, 10);
    var k2 := W.Check(10, 0, NotEqual, VidOem, FieldsCode());
    var k1 := Do(Branch(NotEqual, VidInvalid), k2);
    W.One(m, LoadByte(1, 10), Do(AndLow(0x3f), k1), s);
    var a := Step(m, LoadByte(1, 10), s).s;
    MaskLow(Seen(m, s.mem).cdb[10]);
    W.One(m, AndLow(0x3f), k1, a);
    t := Step(m, AndLow(0x3f), a).s;
    W.BranchTaken(m, NotEqual, VidInvalid, k2, t);
    if !t.zero { return; }
    t := W.CheckOne(m, 10, 0, NotEqual, VidOem, FieldsCode(), t);
  }

  /** What the checks of the first block decide, as `Requested` puts it. */
  lemma EntryRun(m: Machine, s0: Cpu) returns (t: Cpu)
    requires Placed(m) && s0.regs.r1 == m.cdb && s0.regs.r7 == m.top
    ensures |Seen(m, s0.mem).cdb| == 12 && t.shown == s0.shown && Seen(m, t.mem) == Seen(m, s0.mem)
    ensures t.regs.r0 == s0.regs.r0 && t.regs.r1 == s0.regs.r1
    ensures match Requested(m, Seen(m, s0.mem))
            case Foreign => W.AtGate(m, s0, t) && Exec(m, EntryCode(m), s0) == Goto(VidOem, t)
            case Malformed => W.AtGate(m, s0, t) && Exec(m, EntryCode(m), s0) == Goto(VidInvalid, t)
            case VolumeId(n) =>
              && Saved(m, s0, t) && t.regs.r3 == (if n < 36 then n else 36)
              && Exec(m, EntryCode(m), s0) ==
                   if n == 0 then Goto(VidEmpty, t) else if n < 36 then Goto(VidLength, t) else Fall(t)
  {
    hide Exec; hide Seen; hide Placed; hide Stack; hide Saved; hide Load;
    W.PlacedBounds(m);
    W.SeenSizes(m, s0.mem);
    W.StackEmpty(m, s0.mem);
    FieldsZero(Seen(m, s0.mem).cdb);
    var k3 := W.CheckLong(m.security, m.policy, NotEqual, VidOem, AgidCode());
    var k2 := W.Check(7, 0x80, NotEqual, VidOem, k3);
    var k1 := W.Check(1, 1, NotEqual, VidOem, k2);
    t := W.PushOne(m, 2, W.Check(0, 0xad, NotEqual, VidOem, k1), s0);
    t := W.CheckOne(m, 0, 0xad, NotEqual, VidOem, k1, t);
    if !t.zero { return; }
    t := W.CheckOne(m, 1, 1, NotEqual, VidOem, k2, t);
    if !t.zero { return; }
    t := W.CheckOne(m, 7, 0x80, NotEqual, VidOem, k3, t);
    if !t.zero { return; }
    SecuritySeen(m, t.mem);
    t := W.CheckLongOne(m, m.security, m.policy, NotEqual, VidOem, AgidCode(), t);
    if !t.zero { return; }
    t := AgidRun(m, t);
    if Seen(m, s0.mem).cdb[10] != 0 { return; }
    t := FieldsRun(m, t);
    if Requested(m, Seen(m, s0.mem)).Malformed? { return; }
    t := LengthRun(m, s0, t);
  }

  lemma SecuritySeen(m: Machine, mem: Ram)
    ensures Seen(m, mem).security == Load(mem, m.security)
  {
  }

  lemma FieldsZero(c: seq<byte>)
    requires |c| == 12
    ensures c[2..7] == [0, 0, 0, 0, 0] <==> c[2] == 0 && c[3] == 0 && c[4] == 0 && c[5] == 0 && c[6] == 0
  {
  }

  /** What a command has come to. Everything but the hardware state is as it was, payload included;
      an answered request got the first min(length, 36) bytes of the reply and nothing else. */
  ghost predicate Served(m: Machine, s0: Cpu, t: Cpu) {
    var v := Seen(m, s0.mem);
    |v.cdb| == 12 && |v.live.vid| == 16 &&
    match Requested(m, v)
    case Foreign => t.regs == s0.regs && t.shown == BLANK && Seen(m, t.mem) == v
    case Malformed => && W.Restores(s0, t) && t.shown == BLANK.(rejected := 1) && t.regs.r0 % 256 == 1
                      && Seen(m, t.mem) == v.(live := Seen(m, t.mem).live)
    case VolumeId(n) =>
      && W.Restores(s0, t) && Seen(m, t.mem) == v.(live := Seen(m, t.mem).live)
      && if n == 0 then t.shown == BLANK && t.regs.r0 % 256 == 0
         else if Ready(v.live.status)
         then t.shown == BLANK.(sent := [W.Sending(Reply(v.live.vid)[..if n < 36 then n else 36], t)])
         else t.shown == BLANK.(rejected := 1) && t.regs.r0 % 256 == 1
  }

  /** Every run of the wrapper ends: in the OEM routine with all registers as they came, or back at the
      caller with ER2-ER6 and SP restored. */
  lemma VidRun(m: Machine, s0: Cpu, fuel: nat) returns (t: Cpu)
    requires Placed(m) && Conventional(m) && Inside(m) && Pristine(m, Seen(m, s0.mem))
    requires s0.regs.r1 == m.cdb && s0.regs.r7 == m.top && s0.shown == BLANK && fuel >= 4
    ensures |Seen(m, s0.mem).cdb| == 12
    ensures Run(m, From(m, 0), From(m, 0), s0, fuel) ==
            if Requested(m, Seen(m, s0.mem)).Foreign? then Tail(m.vidMain, t) else Return(t)
    ensures Served(m, s0, t)
  {
    hide Exec; hide Seen; hide Placed; hide Stack; hide Conventional; hide Run; hide From; hide Pristine; hide Saved;
    W.SeenSizes(m, s0.mem);
    VidSeen(m, s0.mem, 0);
    GoOne(m, 0, s0, fuel);
    var a := EntryRun(m, s0);
    match Requested(m, Seen(m, s0.mem))
    case Foreign => t := OemRun(m, s0, a, fuel - 1);
    case Malformed => t := InvalidRun(m, s0, a, fuel - 1);
    case VolumeId(n) =>
      if n == 0 { t := EmptyRun(m, s0, a, fuel - 1); } else { t := StatusRun(m, s0, a, fuel - 1, a.regs.r3); }
  }

  /** Only the payload of memory decides whether it is pristine, and a command leaves that as it was. */
  lemma StillPristine(m: Machine, v: View, w: View)
    requires Inside(m) && |v.payload| == m.size && Pristine(m, v) && w.payload == v.payload
    ensures Pristine(m, w)
  {
  }

  /** Commands one after another, whatever the drive does in between to everything but the payload:
      each runs the wrapper on what its predecessor left of it. */
  ghost predicate Session(m: Machine, starts: seq<Cpu>, ends: seq<Cpu>, fuel: nat) {
    && |starts| == |ends|
    && (forall i :: 0 <= i < |starts| ==> Command(m, starts[i], ends[i], fuel))
    && (forall i :: 0 < i < |starts| ==> Seen(m, starts[i].mem).payload == Seen(m, ends[i - 1].mem).payload)
  }

  /** One command: called with its CDB in ER1, the wrapper comes to an end. */
  ghost predicate Command(m: Machine, s0: Cpu, t: Cpu, fuel: nat) {
    && s0.regs.r1 == m.cdb && s0.regs.r7 == m.top && s0.shown == BLANK
    && Run(m, From(m, 0), From(m, 0), s0, fuel) in {Return(t), Tail(m.vidMain, t)}
  }

  /** From a payload as built on, every command of a session is served, and the payload is the same
      before and after it as before the first: the comparison of `verify_resident` stays true. */
  lemma {:induction false} PayloadImmutable(m: Machine, starts: seq<Cpu>, ends: seq<Cpu>, fuel: nat, i: nat)
    requires Placed(m) && Conventional(m) && Inside(m) && fuel >= 4
    requires Session(m, starts, ends, fuel) && i < |starts| && Pristine(m, Seen(m, starts[0].mem))
    ensures Served(m, starts[i], ends[i])
    ensures Seen(m, starts[i].mem).payload == Seen(m, starts[0].mem).payload == Seen(m, ends[i].mem).payload
  {
    hide Seen; hide Placed; hide Conventional; hide Run; hide From; hide Pristine; hide Served; hide Inside;
    assert Command(m, starts[i], ends[i], fuel);
    W.SeenSizes(m, starts[0].mem);
    if i > 0 { PayloadImmutable(m, starts, ends, fuel, i - 1); }
    StillPristine(m, Seen(m, starts[0].mem), Seen(m, starts[i].mem));
    var t := VidRun(m, starts[i], fuel);
    assert t == ends[i];
    ServedSame(m, starts[i], t);
  }

  /** A command leaves the payload, the pointer slots and the write path as they were. */
  lemma ServedSame(m: Machine, s0: Cpu, t: Cpu)
    requires Served(m, s0, t)
    ensures Seen(m, t.mem).payload == Seen(m, s0.mem).payload && Seen(m, t.mem).hook == Seen(m, s0.mem).hook
  {
    hide Seen;
  }

  // ----- the assumptions can be met -----

  /** The sites of the operations tests, a command block and stack as there, and idle OEM routines. */
  function Fixture(): Machine {
    Machine(0x411000, 0x446b04, 0x412000, 0x413000, 0x40ef76, 0x5555a6, 0x2c46, 0xffffed3c, 0xffffed20,
            0xa0a966, 0x5bf4ac, 0xa0b6c8, 0x5cf000, 0x13b6, 0x5b8fe4, (0x2a10, 0xa027f4),
            0xe20, 0xe28, 0xe24, 0xa08000, 2048, 0xa08400, 0xa08600, 0x8480, 0x84c0, 0xa08560, 0x2000, 0x6f00, 0x7000,
              (target, s) => s)
  }

  lemma FixtureMeets()
    ensures var m := Fixture(); Placed(m) && Conventional(m) && W.Inside(m) && Inside(m)
  {
    var m := Fixture();
    forall i: nat, j: nat | i < j < 15 ensures Apart(Area(m, i).0, Area(m, i).1, Area(m, j).0, Area(m, j).1) {
    }
  }
}
