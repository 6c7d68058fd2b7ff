/** The READ BUFFER wrapper the payload carries: the program `assemble` emits, and what every run of
    it does for every CDB, memory and OEM routine that keeps the calling convention. */
module Wrapper {
  import opened Bytes
  import opened Ram
  import opened H8s

  // ----- the program -----

  /** `cdb_byte`, `compare_byte`, `branch`. */
  function Check(offset: nat, value: byte, c: Condition, l: Label, k: Code): Code {
    Do(LoadByte(1, offset), Compare(value, c, l, k))
  }

  function Compare(value: byte, c: Condition, l: Label, k: Code): Code {
    Do(CompareLow(value), Do(Branch(c, l), k))
  }

  function EntryCode(): Code {
    Do(Push(2),
       Check(0, 0x3c, NotEqual, FoundationOem, Check(1, 0x0e, NotEqual, FoundationOem,
       Check(2, 0xc0, NotEqual, FoundationOem, Check(3, 0xde, NotEqual, FoundationOem,
       Check(4, 1, Equal, Label.Identity, FrameCode()))))))
  }

  function FrameCode(): Code {
    Check(4, 2, NotEqual, Invalid, Check(7, 0, NotEqual, Invalid,
    Check(8, 64, NotEqual, Invalid, Check(9, 0, NotEqual, Invalid, FeatureCode()))))
  }

  function FeatureCode(): Code {
    Do(LoadByte(1, 5),
       Compare(2, Equal, Acknowledge, Compare(3, Equal, Acknowledge, Compare(5, Equal, Acknowledge,
       Compare(6, NotEqual, Invalid, StateCode())))))
  }

  function StateCode(): Code {
    Do(LoadByte(1, 6),
       Compare(1, Equal, Transition, Compare(0xff, Equal, Transition, Compare(0, NotEqual, Invalid, End))))
  }

  function PushAll(k: Code): Code {
    Do(Push(0), Do(Push(1), Do(Push(2), Do(Push(3), Do(Push(4), Do(Push(5), Do(Push(6), k)))))))
  }

  /** `restore_registers`. */
  function PopAll(k: Code): Code {
    Do(Pop(6), Do(Pop(5), Do(Pop(4), Do(Pop(3), Do(Pop(2), Do(Pop(1), Do(Pop(0), k)))))))
  }

  function TransitionCode(): Code {
    PushAll(Do(MoveLong(1, 6), Do(SetLong(5, 500), End)))
  }

  function WaitCode(m: Machine): Code {
    Do(LoadByteAt(m.engine), Compare(0, Equal, ReadIdle, Compare(8, CarryClear, ReadIdle, DelayCode(m))))
  }

  function DelayCode(m: Machine): Code {
    Do(CompareLong(5, 0), Do(Branch(Equal, Refused), Do(SetLong(0, 10), Do(Jsr(m.delay),
    Do(TestWord(0), Do(Branch(NotEqual, Refused), Do(Subs(1, 5), Do(Branch(Always, WaitReadIdle), End))))))))
  }

  /** `load_long`, compare, `branch`. */
  function CheckLong(at: nat, value: Word, c: Condition, l: Label, k: Code): Code {
    Do(LoadLong(2, at), CompareTo(value, c, l, k))
  }

  function CompareTo(value: Word, c: Condition, l: Label, k: Code): Code {
    Do(CompareLong(2, value), Do(Branch(c, l), k))
  }

  function ReadIdleCode(m: Machine): Code {
    Do(MoveLong(6, 1),
       CheckLong(m.acquisition, m.acquisitionTable, NotEqual, Refused,
       CheckLong(m.reset, m.resetTable, NotEqual, Refused,
       CheckLong(m.security, m.securityTable, Equal, OwnedPolicy,
       CompareTo(m.policy, NotEqual, Refused, End)))))
  }

  /** `imm`, `store_long`. */
  function Assign(at: nat, value: Word, k: Code): Code {
    Do(SetLong(2, value), Do(StoreLong(2, at), k))
  }

  function OwnedPolicyCode(m: Machine): Code {
    Check(6, 0, NotEqual, RestorePolicy,
    Assign(m.security, m.policy, Assign(m.acquisition, m.temporary, Do(Branch(Always, Reinitialize), End))))
  }

  function RestorePolicyCode(m: Machine): Code { Assign(m.security, m.securityTable, End) }

  function CopyLong(dest: nat, offset: nat, k: Code): Code {
    Do(LoadLong(2, VECTORS + offset), Do(StoreLong(2, dest + offset), k))
  }

  function CopyBuffer(dest: nat, k: Code): Code {
    CopyLong(dest, 0, CopyLong(dest, 4, CopyLong(dest, 8, CopyLong(dest, 12, k))))
  }

  function ReinitializeCode(m: Machine): Code {
    CopyBuffer(m.buffers.0, CopyBuffer(m.buffers.1, DispatchCode(m)))
  }

  function DispatchCode(m: Machine): Code {
    Do(Subs(4, 7), Do(SetLong(2, 0x00cf0000),
      Do(StoreIndirect(2, 7), Do(MoveLong(7, 1), Do(ClearLong(0), Do(ClearLong(2),
    Do(Jsr(m.dispatcher), Do(Adds(4, 7),
    Assign(m.acquisition, m.acquisitionTable, Do(TestLow(0), Do(Branch(NotEqual, Refused), PopAll(End))))))))))))
  }

  function AcknowledgeCode(m: Machine): Code { Do(SetLong(2, m.data), End) }

  /** Both wrappers send alike: the length from ER3 onto the stack, the offset in ER2, the helper. */
  function Transfer(m: Machine, k: Code): Code {
    Do(Push(3), Do(ClearLow(1), Do(Jsr(m.helper), Do(Adds(4, 7), k))))
  }

  function ReplyCode(m: Machine): Code {
    Do(Push(3), Do(SetLong(3, 64), Transfer(m, Do(Pop(3), Do(Pop(2), Do(Rts, End))))))
  }

  function RefusedCode(): Code { PopAll(Do(Branch(Always, Invalid), End)) }

  function IdentityCode(m: Machine): Code {
    Check(5, 0, NotEqual, Invalid, Check(6, 0, NotEqual, Invalid, Check(7, 0, NotEqual, Invalid,
    Check(8, 64, NotEqual, Invalid, Check(9, 0, NotEqual, Invalid,
    Do(SetLong(2, m.identity), Do(Branch(Always, Reply), End)))))))
  }

  function InvalidCode(m: Machine): Code { Do(Pop(2), Do(Jsr(m.invalid), Do(SetLow(0, 1), Do(Rts, End)))) }

  function FoundationOemCode(m: Machine): Code { Do(Pop(2), Do(Jmp(m.main), End)) }

  function NameOf(n: nat): Label {
    match n
    case 0 => Entry
    case 1 => Transition
    case 2 => WaitReadIdle
    case 3 => ReadIdle
    case 4 => OwnedPolicy
    case 5 => RestorePolicy
    case 6 => Reinitialize
    case 7 => Acknowledge
    case 8 => Reply
    case 9 => Refused
    case 10 => Label.Identity
    case 11 => Invalid
    case _ => FoundationOem
  }

  function CodeOf(m: Machine, n: nat): Code {
    match n
    case 0 => EntryCode()
    case 1 => TransitionCode()
    case 2 => WaitCode(m)
    case 3 => ReadIdleCode(m)
    case 4 => OwnedPolicyCode(m)
    case 5 => RestorePolicyCode(m)
    case 6 => ReinitializeCode(m)
    case 7 => AcknowledgeCode(m)
    case 8 => ReplyCode(m)
    case 9 => RefusedCode()
    case 10 => IdentityCode(m)
    case 11 => InvalidCode(m)
    case _ => FoundationOemCode(m)
  }

  /** The wrapper from block `n` on, in the order of emission. */
  function From(m: Machine, n: nat): Program
    decreases 13 - n
  {
    if n >= 13 then Nothing else Block(NameOf(n), CodeOf(m, n), From(m, n + 1))
  }

  function Number(l: Label): nat {
    match l
    case Entry => 0 case Transition => 1 case WaitReadIdle => 2 case ReadIdle => 3 case OwnedPolicy => 4
    case RestorePolicy => 5 case Reinitialize => 6 case Acknowledge => 7 case Reply => 8 case Refused => 9
    case Identity => 10 case Invalid => 11 case FoundationOem => 12 case _ => 13
  }

  lemma BlockShape(m: Machine, n: nat)
    requires n < 13
    ensures From(m, n) == Block(NameOf(n), CodeOf(m, n), From(m, n + 1)) && Number(NameOf(n)) == n
  {
  }

  lemma NumberInjective(k: Label, l: Label)
    requires Number(k) == Number(l) < 13
    ensures k == l
  {
  }

  /** Every label is found, and found where it was emitted. */
  lemma {:induction false} Labels(m: Machine, n: nat, l: Label)
    requires n <= Number(l) < 13
    ensures At(From(m, n), l) == From(m, Number(l))
    decreases 13 - n
  {
    hide From; hide Number;
    BlockShape(m, n);
    if n < Number(l) { Labels(m, n + 1, l); } else { NumberInjective(NameOf(n), l); }
  }

  /** Running the wrapper from block `n`. */
  function Go(m: Machine, n: nat, s: Cpu, fuel: nat): Exit { Run(m, From(m, 0), From(m, n), s, fuel) }

  // ----- single steps on the abstraction -----

  lemma One(m: Machine, i: Insn, k: Code, s: Cpu)
    requires Step(m, i, s).Fall?
    ensures Exec(m, Do(i, k), s) == Exec(m, k, Step(m, i, s).s)
  {
  }

  lemma PushOne(m: Machine, r: nat, k: Code, s: Cpu) returns (t: Cpu)
    requires Placed(m) && m.floor + 4 <= s.regs.r7 <= m.top
    ensures Exec(m, Do(Push(r), k), s) == Exec(m, k, t)
    ensures t.regs == s.regs.(r7 := s.regs.r7 - 4) && t.shown == s.shown && Seen(m, t.mem) == Seen(m, s.mem)
    ensures Stack(t.mem, t.regs.r7, m.top) == Top(Reg(s.regs, r), Stack(s.mem, s.regs.r7, m.top))
  {
    hide Seen; hide Stack; hide Placed; hide Store;
    One(m, Push(r), k, s);
    t := Step(m, Push(r), s).s;
    PushSeen(m, s.mem, s.regs.r7, Reg(s.regs, r));
    assert 4 <= s.regs.r7 by { PlacedBounds(m); }
  }

  lemma PlacedBounds(m: Machine)
    requires Placed(m)
    ensures m.floor + 64 <= m.top < 0x1_0000_0000 && m.cdb < 0x1_0000_0000
    ensures m.dispatcher !in {m.delay, m.helper, m.invalid}
  {
  }

  lemma PopOne(m: Machine, r: nat, k: Code, s: Cpu) returns (t: Cpu)
    requires r < 7 && m.top < 0x1_0000_0000 && Stack(s.mem, s.regs.r7, m.top).Top?
    ensures Exec(m, Do(Pop(r), k), s) == Exec(m, k, t)
    ensures t.regs == WithReg(s.regs, r, Stack(s.mem, s.regs.r7, m.top).head).(r7 := s.regs.r7 + 4)
    ensures s.regs.r7 + 4 <= m.top && t.shown == s.shown && t.mem == s.mem
    ensures Stack(t.mem, t.regs.r7, m.top) == Stack(s.mem, s.regs.r7, m.top).rest
  {
    One(m, Pop(r), k, s);
    t := Step(m, Pop(r), s).s;
  }

  /** A call gives back what the convention keeps. */
  lemma CallOne(m: Machine, target: nat, k: Code, s: Cpu) returns (t: Cpu)
    requires Conventional(m) && m.floor + 4 <= s.regs.r7 <= m.top
    ensures Exec(m, Do(Jsr(target), k), s) == Exec(m, k, t) && t == Call(m, target, s)
    ensures KeptByCall(m, target, s, t)
  {
    hide Exec; hide Seen; hide Stack;
    One(m, Jsr(target), k, s);
    t := Call(m, target, s);
    assert KeptByCall(m, target, s, m.callee(target, s));
  }

  /** Loading a byte of the CDB, comparing it and branching on the outcome. */
  lemma CheckOne(m: Machine, offset: nat, value: byte, c: Condition, l: Label, k: Code, s: Cpu) returns (t: Cpu)
    requires s.regs.r1 == m.cdb && offset < 12
    ensures t == s.(regs := t.regs, zero := t.zero, carry := t.carry) && t.regs == s.regs.(r2 := t.regs.r2)
    ensures var b := Seen(m, s.mem).cdb[offset];
      && t.regs.r2 % 256 == b && t.zero == (b == value) && t.carry == (b < value)
      && Exec(m, Check(offset, value, c, l, k), s) == if Taken(c, t) then Goto(l, t) else Exec(m, k, t)
  {
    One(m, LoadByte(1, offset), Compare(value, c, l, k), s);
    var u := Step(m, LoadByte(1, offset), s).s;
    t := CompareOne(m, value, c, l, k, u);
  }

  lemma CompareOne(m: Machine, value: byte, c: Condition, l: Label, k: Code, s: Cpu) returns (t: Cpu)
    ensures t == s.(zero := s.regs.r2 % 256 == value, carry := s.regs.r2 % 256 < value)
    ensures Exec(m, Compare(value, c, l, k), s) == if Taken(c, t) then Goto(l, t) else Exec(m, k, t)
  {
    One(m, CompareLow(value), Do(Branch(c, l), k), s);
    t := Step(m, CompareLow(value), s).s;
  }

  // ----- what a CDB asks for -----

  datatype Request = Foreign | WhoAreYou | Switch(state: byte) | Optional | Malformed

  /** The requests of the `3C 0E C0 DE` namespace, read off the CDB. */
  function Requested(cdb: seq<byte>): Request
    requires |cdb| == 12
  {
    if cdb[..4] != [0x3c, 0x0e, 0xc0, 0xde] then Foreign
    else if cdb[4..10] == [1, 0, 0, 0, 64, 0] then WhoAreYou
    else if cdb[4] != 2 || cdb[7..10] != [0, 64, 0] then Malformed
    else if cdb[5] in {2, 3, 5} then Optional
    else if cdb[5] == 6 && cdb[6] in {0, 1, 0xff} then Switch(cdb[6])
    else Malformed
  }

  /** After the first push: only ER2 and SP differ from entry, and ER2 lies on the stack. */
  ghost predicate AtGate(m: Machine, s0: Cpu, s: Cpu) {
    && s.regs == s0.regs.(r2 := s.regs.r2, r7 := s.regs.r7) && s0.regs.r7 == m.top && s.regs.r7 == m.top - 4
    && Stack(s.mem, s.regs.r7, m.top) == Top(s0.regs.r2, Bottom)
  }

  /** Control returns to the caller with ER2-ER6 and SP as on entry. */
  ghost predicate Restores(s0: Cpu, t: Cpu) {
    t.regs == s0.regs.(r0 := t.regs.r0, r1 := t.regs.r1)
  }

  /** One block of the run. */
  lemma GoOne(m: Machine, n: nat, s: Cpu, fuel: nat)
    requires n < 13 && fuel >= 1
    ensures var e := Exec(m, CodeOf(m, n), s);
      && (e.Fall? ==> Go(m, n, s, fuel) == Go(m, n + 1, e.s, fuel - 1))
      && (e.Goto? && Number(e.goal) < 13 ==> Go(m, n, s, fuel) == Go(m, Number(e.goal), e.s, fuel - 1))
      && (e.Tail? || e.Return? ==> Go(m, n, s, fuel) == e)
  {
    hide Exec; hide Number; hide From;
    BlockShape(m, n);
    var e := Exec(m, CodeOf(m, n), s);
    if e.Goto? && Number(e.goal) < 13 { Labels(m, 0, e.goal); }
  }

  /** The rejection both wrappers end in. */
  lemma InvalidExec(m: Machine, s0: Cpu, s: Cpu) returns (t: Cpu)
    requires Placed(m) && Conventional(m) && AtGate(m, s0, s)
    ensures Exec(m, InvalidCode(m), s) == Return(t) && Restores(s0, t) && t.regs.r0 % 256 == 1
    ensures t.shown == s.shown.(rejected := s.shown.rejected + 1)
    ensures Seen(m, t.mem) == Seen(m, s.mem).(live := Seen(m, t.mem).live)
  {
    hide Exec; hide Seen; hide Stack; hide Placed; hide Conventional; hide Call;
    PlacedBounds(m);
    var a := PopOne(m, 2, Do(Jsr(m.invalid), Do(SetLow(0, 1), Do(Rts, End))), s);
    var b := CallOne(m, m.invalid, Do(SetLow(0, 1), Do(Rts, End)), a);
    InvalidShown(m, a);
    One(m, SetLow(0, 1), Do(Rts, End), b);
    t := Step(m, SetLow(0, 1), b).s;
    RtsEnds(m, t);
  }

  lemma InvalidRun(m: Machine, s0: Cpu, s: Cpu, fuel: nat) returns (t: Cpu)
    requires Placed(m) && Conventional(m) && AtGate(m, s0, s) && fuel >= 1
    ensures Go(m, 11, s, fuel) == Return(t) && Restores(s0, t) && t.regs.r0 % 256 == 1
    ensures t.shown == s.shown.(rejected := s.shown.rejected + 1)
    ensures Seen(m, t.mem) == Seen(m, s.mem).(live := Seen(m, t.mem).live)
  {
    hide Exec; hide Seen; hide Stack; hide Go; hide From; hide Placed; hide Conventional;
    GoOne(m, 11, s, fuel);
    t := InvalidExec(m, s0, s);
  }

  lemma RtsEnds(m: Machine, s: Cpu)
    ensures Exec(m, Do(Rts, End), s) == Return(s)
  {
  }

  lemma InvalidShown(m: Machine, s: Cpu)
    requires Placed(m)
    ensures Call(m, m.invalid, s).shown == s.shown.(rejected := s.shown.rejected + 1)
  {
  }

  lemma PopAllRun(m: Machine, k: Code, s: Cpu, a: Regs, rest: Words) returns (t: Cpu)
    requires m.top < 0x1_0000_0000
    requires Stack(s.mem, s.regs.r7, m.top) ==
             Top(a.r6, Top(a.r5, Top(a.r4, Top(a.r3, Top(a.r2, Top(a.r1, Top(a.r0, rest)))))))
    ensures Exec(m, PopAll(k), s) == Exec(m, k, t)
    ensures s.regs.r7 + 28 <= m.top && t.regs == a.(r7 := s.regs.r7 + 28)
    ensures t.mem == s.mem && t.shown == s.shown && Stack(t.mem, t.regs.r7, m.top) == rest
  {
    hide Exec; hide Stack;
    var k0 := Do(Pop(0), k);
    var k1 := Do(Pop(1), k0);
    var k2 := Do(Pop(2), k1);
    var k3 := Do(Pop(3), k2);
    var k4 := Do(Pop(4), k3);
    var k5 := Do(Pop(5), k4);
    t := PopOne(m, 6, k5, s);
    t := PopOne(m, 5, k4, t);
    t := PopOne(m, 4, k3, t);
    t := PopOne(m, 3, k2, t);
    t := PopOne(m, 2, k1, t);
    t := PopOne(m, 1, k0, t);
    t := PopOne(m, 0, k, t);
  }

  lemma PushAllRun(m: Machine, k: Code, s: Cpu) returns (t: Cpu)
    requires Placed(m) && m.floor + 28 <= s.regs.r7 <= m.top
    ensures Exec(m, PushAll(k), s) == Exec(m, k, t)
    ensures t.regs == s.regs.(r7 := s.regs.r7 - 28) && t.shown == s.shown && Seen(m, t.mem) == Seen(m, s.mem)
    ensures var a := s.regs;
      Stack(t.mem, t.regs.r7, m.top) ==
      Top(a.r6, Top(a.r5, Top(a.r4, Top(a.r3, Top(a.r2, Top(a.r1, Top(a.r0, Stack(s.mem, a.r7, m.top))))))))
  {
    hide Exec; hide Stack; hide Seen; hide Placed;
    var k6 := Do(Push(6), k);
    var k5 := Do(Push(5), k6);
    var k4 := Do(Push(4), k5);
    var k3 := Do(Push(3), k4);
    var k2 := Do(Push(2), k3);
    var k1 := Do(Push(1), k2);
    t := PushOne(m, 0, k1, s);
    t := PushOne(m, 1, k2, t);
    t := PushOne(m, 2, k3, t);
    t := PushOne(m, 3, k4, t);
    t := PushOne(m, 4, k5, t);
    t := PushOne(m, 5, k6, t);
    t := PushOne(m, 6, k, t);
  }

  /** Inside a transition: all of ER0-ER6 lie on the stack above the ER2 of the gate. */
  ghost predicate Saved(m: Machine, s0: Cpu, junk: Word, s: Cpu) {
    var a := s0.regs;
    && a.r7 == m.top && s.regs.r7 == m.top - 32
    && Stack(s.mem, s.regs.r7, m.top) ==
       Top(a.r6, Top(a.r5, Top(a.r4, Top(a.r3, Top(junk, Top(a.r1, Top(a.r0, Top(a.r2, Bottom))))))))
  }

  lemma RefusedRun(m: Machine, s0: Cpu, junk: Word, s: Cpu, fuel: nat) returns (t: Cpu)
    requires Placed(m) && Conventional(m) && Saved(m, s0, junk, s) && fuel >= 2
    ensures Go(m, 9, s, fuel) == Return(t) && Restores(s0, t) && t.regs.r0 % 256 == 1
    ensures t.shown == s.shown.(rejected := s.shown.rejected + 1)
    ensures Seen(m, t.mem) == Seen(m, s.mem).(live := Seen(m, t.mem).live)
  {
    hide Exec; hide Seen; hide Stack; hide Go; hide From; hide Placed; hide Conventional;
    PlacedBounds(m);
    GoOne(m, 9, s, fuel);
    var k := Do(Branch(Always, Invalid), End);
    var a := PopAllRun(m, k, s, s0.regs.(r2 := junk), Top(s0.regs.r2, Bottom));
    assert Exec(m, k, a) == Goto(Invalid, a) by { BranchTaken(m, Always, Invalid, End, a); }
    t := InvalidRun(m, s0, a, fuel - 1);
  }

  lemma BranchTaken(m: Machine, c: Condition, l: Label, k: Code, s: Cpu)
    ensures Exec(m, Do(Branch(c, l), k), s) == if Taken(c, s) then Goto(l, s) else Exec(m, k, s)
  {
  }

  lemma EndFalls(m: Machine, s: Cpu)
    ensures Exec(m, End, s) == Fall(s)
  {
  }

  /** A stretch of the payload, read through the view. */
  lemma PayloadAt(m: Machine, mem: Ram, at: nat, n: nat)
    requires m.base <= at && at + n <= m.base + m.size
    ensures ReadAt(mem, at, n) == Seen(m, mem).payload[at - m.base..at - m.base + n]
  {
  }

  /** The bytes a transfer of `n` from the controller address `offset` finds in the payload. */
  function Stored(m: Machine, v: View, offset: nat, n: nat): seq<byte>
    requires |v.payload| == m.size && m.base <= CONTROLLER + offset && CONTROLLER + offset + n <= m.base + m.size
  {
    v.payload[CONTROLLER + offset - m.base..CONTROLLER + offset - m.base + n]
  }

  /** A transfer with R1L clear whose verdict the wrapper leaves in R0. */
  function Sending(bytes: seq<byte>, t: Cpu): Sent { Sent(bytes, 0, t.regs.r0) }

  lemma TransferRun(m: Machine, k: Code, s: Cpu) returns (t: Cpu)
    requires Placed(m) && Conventional(m) && m.floor + 8 <= s.regs.r7 <= m.top
    requires m.base <= CONTROLLER + s.regs.r2 && CONTROLLER + s.regs.r2 + s.regs.r3 <= m.base + m.size
    ensures Exec(m, Transfer(m, k), s) == Exec(m, k, t)
    ensures t.regs == s.regs.(r0 := t.regs.r0, r1 := t.regs.r1, r2 := t.regs.r2)
    ensures Stack(t.mem, t.regs.r7, m.top) == Stack(s.mem, s.regs.r7, m.top)
    ensures t.shown == s.shown.(sent := s.shown.sent + [Sending(Stored(m, Seen(m, s.mem), s.regs.r2, s.regs.r3), t)])
    ensures Seen(m, t.mem) == Seen(m, s.mem).(live := Seen(m, t.mem).live)
  {
    hide Exec; hide Seen; hide Stack; hide Placed; hide Conventional; hide Call; hide Stored; hide Load;
    PlacedBounds(m);
    var k3 := Do(Adds(4, 7), k);
    var k2 := Do(Jsr(m.helper), k3);
    var a := PushOne(m, 3, Do(ClearLow(1), k2), s);
    One(m, ClearLow(1), k2, a);
    var b := Step(m, ClearLow(1), a).s;
    var c := CallOne(m, m.helper, k3, b);
    HelperShown(m, b, s.regs.r3);
    One(m, Adds(4, 7), k, c);
    t := Step(m, Adds(4, 7), c).s;
    StackDrop(m, c.mem, c.regs.r7);
  }

  lemma ReplyRun(m: Machine, s0: Cpu, s: Cpu, fuel: nat) returns (t: Cpu)
    requires Placed(m) && Conventional(m) && AtGate(m, s0, s) && fuel >= 1
    requires m.base <= CONTROLLER + s.regs.r2 && CONTROLLER + s.regs.r2 + 64 <= m.base + m.size
    ensures Go(m, 8, s, fuel) == Return(t) && Restores(s0, t)
    ensures t.shown == s.shown.(sent := s.shown.sent + [Sending(Stored(m, Seen(m, s.mem), s.regs.r2, 64), t)])
    ensures Seen(m, t.mem) == Seen(m, s.mem).(live := Seen(m, t.mem).live)
  {
    hide Exec; hide Seen; hide Stack; hide Go; hide From; hide Placed; hide Conventional; hide Stored;
    PlacedBounds(m);
    GoOne(m, 8, s, fuel);
    var k3 := Do(Rts, End);
    var k2 := Do(Pop(2), k3);
    var k1 := Do(Pop(3), k2);
    var a := PushOne(m, 3, Do(SetLong(3, 64), Transfer(m, k1)), s);
    One(m, SetLong(3, 64), Transfer(m, k1), a);
    var b := TransferRun(m, k1, Step(m, SetLong(3, 64), a).s);
    var c := PopOne(m, 3, k2, b);
    t := PopOne(m, 2, k3, c);
    RtsEnds(m, t);
  }

  lemma StackDrop(m: Machine, mem: Ram, sp: nat)
    requires Stack(mem, sp, m.top).Top?
    ensures sp + 4 <= m.top && Stack(mem, sp + 4, m.top) == Stack(mem, sp, m.top).rest
  {
  }

  lemma HelperShown(m: Machine, s: Cpu, n: Word)
    requires Placed(m) && Stack(s.mem, s.regs.r7, m.top).Top? && Stack(s.mem, s.regs.r7, m.top).head == n
    requires m.base <= CONTROLLER + s.regs.r2 && CONTROLLER + s.regs.r2 + n <= m.base + m.size
    ensures var t := Call(m, m.helper, s);
      t.shown == s.shown.(sent := s.shown.sent + [Sent(Stored(m, Seen(m, s.mem), s.regs.r2, n), s.regs.r1 % 256,
                                                           t.regs.r0)])
  {
    PayloadAt(m, s.mem, CONTROLLER + s.regs.r2, n);
  }

  // ----- the transition -----

  lemma LongSplit(a: byte, b: byte, c: byte, d: byte, v: Word)
    requires v == (a as int) * 0x100_0000 + (b as int) * 0x1_0000 + (c as int) * 256 + d
    ensures LongBytes(v) == [a, b, c, d]
  {
    assert v / 256 == a * 0x1_0000 + b * 256 + c;
    assert v / 0x1_0000 == a * 256 + b;
    assert v / 0x100_0000 == a;
  }

  lemma LongBytesLoad(mem: Ram, at: nat)
    ensures LongBytes(Load(mem, at)) == ReadAt(mem, at, 4)
  {
    hide Get;
    LongSplit(Get(mem, at), Get(mem, at + 1), Get(mem, at + 2), Get(mem, at + 3), Load(mem, at));
  }

  lemma CopyLongOne(m: Machine, dest: nat, offset: nat, k: Code, s: Cpu) returns (t: Cpu)
    ensures Exec(m, CopyLong(dest, offset, k), s) == Exec(m, k, t)
    ensures t == s.(regs := t.regs, mem := Put(s.mem, dest + offset, ReadAt(s.mem, VECTORS + offset, 4)))
    ensures t.regs == s.regs.(r2 := t.regs.r2)
  {
    One(m, LoadLong(2, VECTORS + offset), Do(StoreLong(2, dest + offset), k), s);
    var a := Step(m, LoadLong(2, VECTORS + offset), s).s;
    One(m, StoreLong(2, dest + offset), k, a);
    t := Step(m, StoreLong(2, dest + offset), a).s;
    LongBytesLoad(s.mem, VECTORS + offset);
  }

  /** Buffer `i` (area 3 or 4) receives the sixteen vector bytes; nothing else is seen to change. */
  lemma CopyBufferRun(m: Machine, i: nat, k: Code, s: Cpu) returns (t: Cpu)
    requires Placed(m) && i < 2
    ensures Exec(m, CopyBuffer(if i == 0 then m.buffers.0 else m.buffers.1, k), s) == Exec(m, k, t)
    ensures t.regs == s.regs.(r2 := t.regs.r2) && t.shown == s.shown
    ensures var v := Seen(m, s.mem);
      Seen(m, t.mem) == v.(buffers := if i == 0 then (v.vectors, v.buffers.1) else (v.buffers.0, v.vectors))
    ensures forall sp: nat :: m.floor <= sp ==> Stack(t.mem, sp, m.top) == Stack(s.mem, sp, m.top)
  {
    hide Exec; hide Seen; hide Placed; hide Stack;
    var dest := if i == 0 then m.buffers.0 else m.buffers.1;
    var k3 := CopyLong(dest, 12, k);
    var k2 := CopyLong(dest, 8, k3);
    var k1 := CopyLong(dest, 4, k2);
    var a := CopyLongOne(m, dest, 0, k1, s);
    var b := CopyLongOne(m, dest, 4, k2, a);
    var c := CopyLongOne(m, dest, 8, k3, b);
    t := CopyLongOne(m, dest, 12, k, c);
    BufferWrite(m, i, s.mem, dest + 0, ReadAt(s.mem, VECTORS + 0, 4));
    BufferWrite(m, i, a.mem, dest + 4, ReadAt(a.mem, VECTORS + 4, 4));
    BufferWrite(m, i, b.mem, dest + 8, ReadAt(b.mem, VECTORS + 8, 4));
    BufferWrite(m, i, c.mem, dest + 12, ReadAt(c.mem, VECTORS + 12, 4));
    BuffersApart(m, i);
    BufferFilled(dest, VECTORS, s.mem, a.mem, b.mem, c.mem, t.mem);
    BufferSeen(m, i, t.mem);
    BufferSeen(m, i, s.mem);
  }

  lemma BuffersApart(m: Machine, i: nat)
    requires Placed(m) && i < 2
    ensures Apart(if i == 0 then m.buffers.0 else m.buffers.1, 16, VECTORS, 16)
  {
    assert Apart(Area(m, 3 + i).0, Area(m, 3 + i).1, Area(m, 9).0, Area(m, 9).1);
  }

  lemma BufferSeen(m: Machine, i: nat, mem: Ram)
    requires i < 2
    ensures (if i == 0 then Seen(m, mem).buffers.0 else Seen(m, mem).buffers.1) ==
            ReadAt(mem, if i == 0 then m.buffers.0 else m.buffers.1, 16)
    ensures Seen(m, mem).vectors == ReadAt(mem, VECTORS, 16)
  {
  }

  /** One of the four copies of a buffer reset. */
  lemma BufferWrite(m: Machine, i: nat, mem: Ram, at: nat, bytes: seq<byte>)
    requires Placed(m) && i < 2 && |bytes| == 4
    requires i == 0 ==> m.buffers.0 <= at <= m.buffers.0 + 12
    requires i == 1 ==> m.buffers.1 <= at <= m.buffers.1 + 12
    ensures var v, w := Seen(m, mem), Seen(m, Put(mem, at, bytes));
      w == v.(buffers := if i == 0 then (w.buffers.0, v.buffers.1) else (v.buffers.0, w.buffers.1))
    ensures forall sp: nat :: m.floor <= sp ==> Stack(Put(mem, at, bytes), sp, m.top) == Stack(mem, sp, m.top)
  {
    hide Seen; hide Placed; hide Stack; hide Put; hide ReadAt;
    SeenElsewhere(m, mem, 3 + i, at, bytes);
  }

  lemma BufferFilled(dest: nat, src: nat, r0: Ram, r1: Ram, r2: Ram, r3: Ram, r4: Ram)
    requires Apart(dest, 16, src, 16)
    requires r1 == Put(r0, dest, ReadAt(r0, src, 4)) && r2 == Put(r1, dest + 4, ReadAt(r1, src + 4, 4))
    requires r3 == Put(r2, dest + 8, ReadAt(r2, src + 8, 4)) && r4 == Put(r3, dest + 12, ReadAt(r3, src + 12, 4))
    ensures ReadAt(r4, dest, 16) == ReadAt(r0, src, 16)
  {
    assert forall a: nat :: src <= a < src + 16 ==> Get(r1, a) == Get(r0, a);
    assert forall a: nat :: src <= a < src + 16 ==> Get(r2, a) == Get(r0, a);
    assert forall a: nat :: src <= a < src + 16 ==> Get(r3, a) == Get(r0, a);
    forall a: nat | dest <= a < dest + 16 ensures Get(r4, a) == Get(r0, a - dest + src) {
    }
  }

  lemma AssignOne(m: Machine, slot: nat, v: Word, k: Code, s: Cpu) returns (t: Cpu)
    requires Placed(m) && slot in {0, 2}
    ensures Exec(m, Assign(Area(m, slot).0, v, k), s) == Exec(m, k, t)
    ensures t.regs == s.regs.(r2 := v) && t.shown == s.shown
    ensures Seen(m, t.mem) == if slot == 0 then Seen(m, s.mem).(acquisition := v) else Seen(m, s.mem).(security := v)
    ensures forall sp: nat :: m.floor <= sp ==> Stack(t.mem, sp, m.top) == Stack(s.mem, sp, m.top)
  {
    hide Seen; hide Placed; hide Stack; hide Store;
    var at := Area(m, slot).0;
    One(m, SetLong(2, v), Do(StoreLong(2, at), k), s);
    var a := Step(m, SetLong(2, v), s).s;
    One(m, StoreLong(2, at), k, a);
    t := Step(m, StoreLong(2, at), a).s;
    SlotSeen(m, s.mem, slot, v);
  }

  /** The dispatcher is handed zero in ER0 and ER2 and a descriptor of its own in ER1. */
  predicate Arguments(x: Initialization) {
    x.regs.r0 == 0 && x.regs.r2 == 0 && Load(x.mem, x.regs.r1) == 0x00cf0000
  }

  /** From the copied buffers to the pop of the registers, or to the refusal. */
  ghost predicate Dispatched(m: Machine, s0: Cpu, junk: Word, s: Cpu, t: Cpu) {
    && Saved(m, s0, junk, t)
    && Seen(m, t.mem) == Seen(m, s.mem).(acquisition := m.acquisitionTable, buffers := Seen(m, t.mem).buffers,
                                         live := Seen(m, t.mem).live)
    && |t.shown.initialized| == |s.shown.initialized| + 1
    && t.shown == s.shown.(initialized := t.shown.initialized)
    && t.shown.initialized[..|s.shown.initialized|] == s.shown.initialized
    && Seen(m, t.shown.initialized[|s.shown.initialized|].mem) == Seen(m, s.mem)
    && Arguments(t.shown.initialized[|s.shown.initialized|])
    && t.shown.initialized[|s.shown.initialized|].answer == t.regs.r0 % 256
  }

  /** The descriptor the dispatcher is handed lies on the stack. */
  lemma DescriptorPushed(m: Machine, k: Code, s: Cpu) returns (t: Cpu)
    requires Placed(m) && s.regs.r7 == m.top - 32
    ensures Exec(m, Do(Subs(4, 7), Do(SetLong(2, 0x00cf0000), Do(StoreIndirect(2, 7), k))), s) == Exec(m, k, t)
    ensures t.regs.r7 == s.regs.r7 - 4 && t.shown == s.shown && Seen(m, t.mem) == Seen(m, s.mem)
    ensures Load(t.mem, t.regs.r7) == 0x00cf0000
    ensures Stack(t.mem, t.regs.r7, m.top) == Top(0x00cf0000, Stack(s.mem, s.regs.r7, m.top))
  {
    hide Exec; hide Seen; hide Stack; hide Placed; hide Store; hide Load;
    PlacedBounds(m);
    var k3 := Do(StoreIndirect(2, 7), k);
    One(m, Subs(4, 7), Do(SetLong(2, 0x00cf0000), k3), s);
    var a := Step(m, Subs(4, 7), s).s;
    One(m, SetLong(2, 0x00cf0000), k3, a);
    var b := Step(m, SetLong(2, 0x00cf0000), a).s;
    One(m, StoreIndirect(2, 7), k, b);
    t := Step(m, StoreIndirect(2, 7), b).s;
    PushSeen(m, s.mem, s.regs.r7, 0x00cf0000);
    LoadStore(s.mem, s.regs.r7 - 4, 0x00cf0000);
  }

  /** `DispatchCode` up to the return of the dispatcher. */
  lemma DispatchCall(m: Machine, k: Code, s: Cpu) returns (t: Cpu)
    requires Placed(m) && Conventional(m) && s.regs.r7 == m.top - 32
    ensures Exec(m, Do(Subs(4, 7), Do(SetLong(2, 0x00cf0000), Do(StoreIndirect(2, 7), Do(MoveLong(7, 1),
                    Do(ClearLong(0), Do(ClearLong(2), Do(Jsr(m.dispatcher), Do(Adds(4, 7), k)))))))), s) ==
                      Exec(m, k, t)
    ensures t.regs.r7 == s.regs.r7 && Stack(t.mem, t.regs.r7, m.top) == Stack(s.mem, s.regs.r7, m.top)
    ensures var v, w := Seen(m, s.mem), Seen(m, t.mem);
      w == v.(acquisition := w.acquisition, buffers := w.buffers, live := w.live)
    ensures exists x ::
              && t.shown == s.shown.(initialized := s.shown.initialized + [x]) && Seen(m, x.mem) == Seen(m, s.mem)
              && Arguments(x) && x.answer == t.regs.r0 % 256
  {
    hide Exec; hide Seen; hide Stack; hide Placed; hide Conventional; hide Call; hide Store; hide Load;
    PlacedBounds(m);
    var k7 := Do(Jsr(m.dispatcher), Do(Adds(4, 7), k));
    var k6 := Do(ClearLong(2), k7);
    var k5 := Do(ClearLong(0), k6);
    var c := DescriptorPushed(m, Do(MoveLong(7, 1), k5), s);
    One(m, MoveLong(7, 1), k5, c);
    var d := Step(m, MoveLong(7, 1), c).s;
    One(m, ClearLong(0), k6, d);
    var e := Step(m, ClearLong(0), d).s;
    One(m, ClearLong(2), k7, e);
    var f := Step(m, ClearLong(2), e).s;
    var g := CallOne(m, m.dispatcher, Do(Adds(4, 7), k), f);
    DispatcherShown(m, f);
    One(m, Adds(4, 7), k, g);
    t := Step(m, Adds(4, 7), g).s;
    StackDrop(m, g.mem, g.regs.r7);
  }

  lemma DispatchRun(m: Machine, s0: Cpu, junk: Word, s: Cpu) returns (t: Cpu)
    requires Placed(m) && Conventional(m) && Saved(m, s0, junk, s)
    ensures Dispatched(m, s0, junk, s, t)
    ensures Exec(m, DispatchCode(m), s) ==
            if t.shown.initialized[|s.shown.initialized|].answer != 0 then Goto(Refused, t) else Exec(m, PopAll(End), t)
  {
    hide Exec; hide Seen; hide Stack; hide Placed; hide Conventional; hide Call; hide Store;
    PlacedBounds(m);
    var k11 := Do(Branch(NotEqual, Refused), PopAll(End));
    var k10 := Do(TestLow(0), k11);
    var h := DispatchCall(m, Assign(m.acquisition, m.acquisitionTable, k10), s);
    var i := AssignOne(m, 0, m.acquisitionTable, k10, h);
    One(m, TestLow(0), k11, i);
    t := Step(m, TestLow(0), i).s;
    BranchTaken(m, NotEqual, Refused, PopAll(End), t);
  }

  lemma DispatcherShown(m: Machine, s: Cpu)
    requires Placed(m)
    ensures var t := Call(m, m.dispatcher, s);
      t.shown == s.shown.(initialized := s.shown.initialized + [Initialization(s.regs, s.mem, t.regs.r0 % 256)])
  {
  }

  /** The reply and identity bytes lie in the payload. */
  predicate Inside(m: Machine) {
    && m.base <= CONTROLLER + m.data && CONTROLLER + m.data + 64 <= m.base + m.size
    && m.base <= CONTROLLER + m.identity && CONTROLLER + m.identity + 64 <= m.base + m.size
  }

  lemma AcknowledgeRun(m: Machine, s0: Cpu, s: Cpu, fuel: nat) returns (t: Cpu)
    requires Placed(m) && Conventional(m) && Inside(m) && AtGate(m, s0, s) && fuel >= 2
    ensures Go(m, 7, s, fuel) == Return(t) && Restores(s0, t)
    ensures t.shown == s.shown.(sent := s.shown.sent + [Sending(Stored(m, Seen(m, s.mem), m.data, 64), t)])
    ensures Seen(m, t.mem) == Seen(m, s.mem).(live := Seen(m, t.mem).live)
  {
    hide Exec; hide Stack; hide Go; hide From; hide Placed; hide Conventional;
    GoOne(m, 7, s, fuel);
    One(m, SetLong(2, m.data), End, s);
    var a := Step(m, SetLong(2, m.data), s).s;
    EndFalls(m, a);
    t := ReplyRun(m, s0, a, fuel - 1);
  }

  /** The end of a transition, from the view `v` it starts with: the OEM initialisation runs once,
      with both buffers reset, and the acquisition slot is its own again whatever the OEM says. The
      command is acknowledged exactly when the OEM answers zero, else rejected. */
  ghost predicate Reinitialized(m: Machine, v: View, e: Shown, t: Cpu)
    requires Inside(m) && |v.payload| == m.size
  {
    var w := Seen(m, t.mem);
    && w == v.(acquisition := m.acquisitionTable, buffers := w.buffers, live := w.live)
    && |t.shown.initialized| == |e.initialized| + 1
    && t.shown.initialized[..|e.initialized|] == e.initialized
    && Seen(m, t.shown.initialized[|e.initialized|].mem) == v.(buffers := (v.vectors, v.vectors))
    && Arguments(t.shown.initialized[|e.initialized|])
    && t.shown.ticks == e.ticks && t.shown.woken == e.woken && t.shown.refused == e.refused
    && if t.shown.initialized[|e.initialized|].answer == 0
       then t.shown.sent == e.sent + [Sending(Stored(m, v, m.data, 64), t)] && t.shown.rejected == e.rejected
       else t.shown.sent == e.sent && t.shown.rejected == e.rejected + 1 && t.regs.r0 % 256 == 1
  }

  lemma ReinitializeRun(m: Machine, s0: Cpu, junk: Word, s: Cpu, fuel: nat) returns (t: Cpu)
    requires Placed(m) && Conventional(m) && Inside(m) && Saved(m, s0, junk, s) && fuel >= 3
    ensures Go(m, 6, s, fuel) == Return(t) && Restores(s0, t)
    ensures Reinitialized(m, Seen(m, s.mem), s.shown, t)
  {
    hide Exec; hide Stack; hide Go; hide From; hide Placed; hide Conventional; hide Seen;
    PlacedBounds(m);
    SeenSizes(m, s.mem);
    GoOne(m, 6, s, fuel);
    var a := CopyBufferRun(m, 0, CopyBuffer(m.buffers.1, DispatchCode(m)), s);
    var b := CopyBufferRun(m, 1, DispatchCode(m), a);
    var c := DispatchRun(m, s0, junk, b);
    if c.shown.initialized[|b.shown.initialized|].answer != 0 {
      t := RefusedRun(m, s0, junk, c, fuel - 1);
    } else {
      var d := PopAllRun(m, End, c, s0.regs.(r2 := junk), Top(s0.regs.r2, Bottom));
      EndFalls(m, d);
      t := AcknowledgeRun(m, s0, d, fuel - 1);
    }
  }

  lemma SeenSizes(m: Machine, mem: Ram)
    ensures |Seen(m, mem).payload| == m.size && |Seen(m, mem).cdb| == 12
  {
  }

  lemma CheckLongOne(m: Machine, at: nat, value: Word, c: Condition, l: Label, k: Code, s: Cpu) returns (t: Cpu)
    ensures t == s.(regs := t.regs, zero := t.zero, carry := t.carry) && t.regs == s.regs.(r2 := Load(s.mem, at))
    ensures t.zero == (Load(s.mem, at) == value)
    ensures Exec(m, CheckLong(at, value, c, l, k), s) == if Taken(c, t) then Goto(l, t) else Exec(m, k, t)
  {
    One(m, LoadLong(2, at), CompareTo(value, c, l, k), s);
    t := CompareToOne(m, value, c, l, k, Step(m, LoadLong(2, at), s).s);
  }

  lemma CompareToOne(m: Machine, value: Word, c: Condition, l: Label, k: Code, s: Cpu) returns (t: Cpu)
    ensures t == s.(zero := s.regs.r2 == value, carry := s.regs.r2 < value)
    ensures Exec(m, CompareTo(value, c, l, k), s) == if Taken(c, t) then Goto(l, t) else Exec(m, k, t)
  {
    One(m, CompareLong(2, value), Do(Branch(c, l), k), s);
    t := Step(m, CompareLong(2, value), s).s;
  }

  /** All three slots hold what the wrapper knows: the OEM tables, or its own policy. */
  predicate Owns(m: Machine, v: View) {
    v.acquisition == m.acquisitionTable && v.reset == m.resetTable && v.security in {m.securityTable, m.policy}
  }

  /** The table a SET asks for, and what the acquisition slot borrows meanwhile. */
  function PolicyFor(m: Machine, state: byte): Word { if state == 0 then m.policy else m.securityTable }

  function BorrowedFor(m: Machine, state: byte): Word { if state == 0 then m.temporary else m.acquisitionTable }

  function SwitchView(m: Machine, v: View): View
    requires |v.cdb| == 12
  {
    v.(security := PolicyFor(m, v.cdb[6]), acquisition := BorrowedFor(m, v.cdb[6]))
  }

  lemma OwnedPolicyRun(m: Machine, s0: Cpu, junk: Word, s: Cpu, fuel: nat) returns (t: Cpu)
    requires Placed(m) && Conventional(m) && Inside(m) && Saved(m, s0, junk, s) && fuel >= 5
    requires s.regs.r1 == m.cdb && Seen(m, s.mem).acquisition == m.acquisitionTable
    ensures |Seen(m, s.mem).cdb| == 12 && |Seen(m, s.mem).payload| == m.size
    ensures Go(m, 4, s, fuel) == Return(t) && Restores(s0, t)
    ensures Reinitialized(m, SwitchView(m, Seen(m, s.mem)), s.shown, t)
  {
    hide Exec; hide Stack; hide Go; hide From; hide Placed; hide Conventional; hide Seen; hide Reinitialized;
    SeenSizes(m, s.mem);
    PlacedBounds(m);
    GoOne(m, 4, s, fuel);
    var k3 := Do(Branch(Always, Reinitialize), End);
    var k2 := Assign(m.acquisition, m.temporary, k3);
    var k1 := Assign(m.security, m.policy, k2);
    var a := CheckOne(m, 6, 0, NotEqual, RestorePolicy, k1, s);
    if a.zero {
      var b := AssignOne(m, 2, m.policy, k2, a);
      var c := AssignOne(m, 0, m.temporary, k3, b);
      BranchTaken(m, Always, Reinitialize, End, c);
      t := ReinitializeRun(m, s0, junk, c, fuel - 1);
    } else {
      GoOne(m, 5, a, fuel - 1);
      var b := AssignOne(m, 2, m.securityTable, End, a);
      EndFalls(m, b);
      t := ReinitializeRun(m, s0, junk, b, fuel - 2);
    }
  }

  lemma ReadIdleRun(m: Machine, s0: Cpu, junk: Word, s: Cpu, fuel: nat) returns (t: Cpu)
    requires Placed(m) && Conventional(m) && Inside(m) && Saved(m, s0, junk, s) && fuel >= 6
    requires s.regs.r6 == m.cdb
    ensures |Seen(m, s.mem).cdb| == 12 && |Seen(m, s.mem).payload| == m.size
    ensures Go(m, 3, s, fuel) == Return(t) && Restores(s0, t)
    ensures Owns(m, Seen(m, s.mem)) ==> Reinitialized(m, SwitchView(m, Seen(m, s.mem)), s.shown, t)
    ensures !Owns(m, Seen(m, s.mem)) ==>
              && t.regs.r0 % 256 == 1 && t.shown == s.shown.(rejected := s.shown.rejected + 1)
              && Seen(m, t.mem) == Seen(m, s.mem).(live := Seen(m, t.mem).live)
  {
    hide Exec; hide Stack; hide Go; hide From; hide Placed; hide Conventional; hide Reinitialized; hide Load;
    hide ReadAt;
    SeenSizes(m, s.mem);
    GoOne(m, 3, s, fuel);
    var k3 := CompareTo(m.policy, NotEqual, Refused, End);
    var k2 := CheckLong(m.security, m.securityTable, Equal, OwnedPolicy, k3);
    var k1 := CheckLong(m.reset, m.resetTable, NotEqual, Refused, k2);
    var k0 := CheckLong(m.acquisition, m.acquisitionTable, NotEqual, Refused, k1);
    One(m, MoveLong(6, 1), k0, s);
    var a := Step(m, MoveLong(6, 1), s).s;
    var b := CheckLongOne(m, m.acquisition, m.acquisitionTable, NotEqual, Refused, k1, a);
    if !b.zero { t := RefusedRun(m, s0, junk, b, fuel - 1); return; }
    var c := CheckLongOne(m, m.reset, m.resetTable, NotEqual, Refused, k2, b);
    if !c.zero { t := RefusedRun(m, s0, junk, c, fuel - 1); return; }
    var d := CheckLongOne(m, m.security, m.securityTable, Equal, OwnedPolicy, k3, c);
    if d.zero { t := OwnedPolicyRun(m, s0, junk, d, fuel - 1); return; }
    var e := CompareToOne(m, m.policy, NotEqual, Refused, End, d);
    if !e.zero { t := RefusedRun(m, s0, junk, e, fuel - 1); return; }
    EndFalls(m, e);
    t := OwnedPolicyRun(m, s0, junk, e, fuel - 1);
  }

  // ----- waiting for the read engine -----

  predicate Busy(live: Live) { 0 < live.engine < 8 }

  /** The hardware state the wrapper reads after `i` delays. */
  function LiveAfter(m: Machine, s0: Cpu, woken: seq<Ram>, i: nat): Live
    requires i <= |woken|
  {
    if i == 0 then Seen(m, s0.mem).live else Seen(m, woken[i - 1]).live
  }

  ghost predicate BusyThrough(m: Machine, s0: Cpu, woken: seq<Ram>) {
    forall i: nat :: i < |woken| ==> Busy(LiveAfter(m, s0, woken, i))
  }

  function Waits(woken: seq<Ram>, refused: bool): Shown {
    BLANK.(ticks := 10 * |woken|, woken := woken, refused := refused)
  }

  ghost predicate Waiting(m: Machine, s0: Cpu, junk: Word, s: Cpu) {
    var woken := s.shown.woken;
    && Saved(m, s0, junk, s) && s.regs.r6 == m.cdb
    && |woken| <= 500 && s.regs.r5 == 500 - |woken| && s.shown == Waits(woken, false) && BusyThrough(m, s0, woken)
    && Seen(m, s.mem) == Seen(m, s0.mem).(live := LiveAfter(m, s0, woken, |woken|))
  }

  /** What a well-formed Encryption SET comes to. It asks for at most 500 delays of ten ticks and only
      while the read engine is busy. The transition takes place exactly when the engine is then idle
      with no delay refused and all three slots are owned; the security slot then holds the table
      asked for, whatever the OEM said. Otherwise the command is rejected and nothing has changed. */
  ghost predicate Switched(m: Machine, s0: Cpu, t: Cpu)
    requires Inside(m)
  {
    var woken, v := t.shown.woken, Seen(m, s0.mem);
    var live := LiveAfter(m, s0, woken, |woken|);
    && |woken| <= 500 && BusyThrough(m, s0, woken)
    && (t.shown.refused || !Busy(live) || |woken| == 500)
    && if !t.shown.refused && !Busy(live) && Owns(m, v)
       then |v.cdb| == 12 && |v.payload| == m.size
            && Reinitialized(m, SwitchView(m, v.(live := live)), Waits(woken, false), t)
       else && t.shown == Waits(woken, t.shown.refused).(rejected := 1) && t.regs.r0 % 256 == 1
            && Seen(m, t.mem) == v.(live := Seen(m, t.mem).live)
  }

  lemma WaitRun(m: Machine, s0: Cpu, junk: Word, s: Cpu, fuel: nat) returns (t: Cpu)
    requires Placed(m) && Conventional(m) && Inside(m) && Waiting(m, s0, junk, s) && fuel >= s.regs.r5 + 8
    ensures Go(m, 2, s, fuel) == Return(t) && Restores(s0, t) && Switched(m, s0, t)
    decreases s.regs.r5
  {
    hide Exec; hide Stack; hide Go; hide From; hide Placed; hide Conventional; hide Reinitialized; hide Seen;
    hide Call; hide BusyThrough;
    GoOne(m, 2, s, fuel);
    SeenSizes(m, s.mem);
    var woken := s.shown.woken;
    var k2 := DelayCode(m);
    var k1 := Compare(8, CarryClear, ReadIdle, k2);
    var k0 := Compare(0, Equal, ReadIdle, k1);
    One(m, LoadByteAt(m.engine), k0, s);
    var a := Step(m, LoadByteAt(m.engine), s).s;
    EngineSeen(m, s.mem);
    var b := CompareOne(m, 0, Equal, ReadIdle, k1, a);
    if b.zero { t := ReadIdleRun(m, s0, junk, b, fuel - 1); Settle(m, s0, b, t); return; }
    var c := CompareOne(m, 8, CarryClear, ReadIdle, k2, b);
    if !c.carry { t := ReadIdleRun(m, s0, junk, c, fuel - 1); Settle(m, s0, c, t); return; }
    var d, again := DelayRun(m, s0, junk, c);
    if again {
      t := WaitRun(m, s0, junk, d, fuel - 1);
    } else {
      t := RefusedRun(m, s0, junk, d, fuel - 1);
    }
  }

  /** What `ReadIdleRun` leaves behind is what `Switched` asks for. */
  lemma Settle(m: Machine, s0: Cpu, s: Cpu, t: Cpu)
    requires Inside(m) && |s.shown.woken| <= 500 && s.shown == Waits(s.shown.woken, false)
    requires BusyThrough(m, s0, s.shown.woken) && !Busy(LiveAfter(m, s0, s.shown.woken, |s.shown.woken|))
    requires Seen(m, s.mem) == Seen(m, s0.mem).(live := LiveAfter(m, s0, s.shown.woken, |s.shown.woken|))
    requires |Seen(m, s.mem).cdb| == 12 && |Seen(m, s.mem).payload| == m.size
    requires Owns(m, Seen(m, s.mem)) ==> Reinitialized(m, SwitchView(m, Seen(m, s.mem)), s.shown, t)
    requires !Owns(m, Seen(m, s.mem)) ==>
               && t.regs.r0 % 256 == 1 && t.shown == s.shown.(rejected := s.shown.rejected + 1)
               && Seen(m, t.mem) == Seen(m, s.mem).(live := Seen(m, t.mem).live)
    ensures Switched(m, s0, t)
  {
    hide Seen; hide BusyThrough;
  }

  lemma EngineSeen(m: Machine, mem: Ram)
    ensures Seen(m, mem).live.engine == Get(mem, m.engine)
  {
  }

  /** One delay: out of patience, refused by the scheduler, or back to the loop with one fewer left. */
  lemma DelayRun(m: Machine, s0: Cpu, junk: Word, s: Cpu) returns (t: Cpu, again: bool)
    requires Placed(m) && Conventional(m) && Waiting(m, s0, junk, s)
    requires Busy(LiveAfter(m, s0, s.shown.woken, |s.shown.woken|))
    ensures Exec(m, DelayCode(m), s) == Goto(if again then WaitReadIdle else Refused, t)
    ensures again ==> Waiting(m, s0, junk, t) && t.regs.r5 == s.regs.r5 - 1
    ensures !again ==>
              && Saved(m, s0, junk, t) && |t.shown.woken| <= 500 && BusyThrough(m, s0, t.shown.woken)
              && t.shown == Waits(t.shown.woken, t.shown.refused)
              && (!t.shown.refused ==> |t.shown.woken| == 500 && Busy(LiveAfter(m, s0, t.shown.woken, 500)))
              && Seen(m, t.mem) == Seen(m, s0.mem).(live := Seen(m, t.mem).live)
  {
    hide Exec; hide Stack; hide Placed; hide Conventional; hide Seen; hide Call; hide BusyThrough;
    PlacedBounds(m);
    var k7 := Do(Branch(Always, WaitReadIdle), End);
    var k6 := Do(Subs(1, 5), k7);
    var k5 := Do(Branch(NotEqual, Refused), k6);
    var k4 := Do(TestWord(0), k5);
    var k3 := Do(Jsr(m.delay), k4);
    var k2 := Do(SetLong(0, 10), k3);
    var k1 := Do(Branch(Equal, Refused), k2);
    One(m, CompareLong(5, 0), k1, s);
    var a := Step(m, CompareLong(5, 0), s).s;
    BranchTaken(m, Equal, Refused, k2, a);
    if a.zero { return a, false; }
    One(m, SetLong(0, 10), k3, a);
    var b := Step(m, SetLong(0, 10), a).s;
    var c := CallOne(m, m.delay, k4, b);
    DelayShown(m, b);
    One(m, TestWord(0), k5, c);
    var d := Step(m, TestWord(0), c).s;
    BusyExtends(m, s0, s.shown.woken, c.mem);
    BranchTaken(m, NotEqual, Refused, k6, d);
    if !d.zero { return d, false; }
    One(m, Subs(1, 5), k7, d);
    t := Step(m, Subs(1, 5), d).s;
    BranchTaken(m, Always, WaitReadIdle, End, t);
    again := true;
  }

  lemma DelayShown(m: Machine, s: Cpu)
    ensures var t := Call(m, m.delay, s);
      t.shown == s.shown.(ticks := s.shown.ticks + s.regs.r0, woken := s.shown.woken + [t.mem],
                          refused := s.shown.refused || t.regs.r0 % 0x10000 != 0)
  {
  }

  lemma BusyExtends(m: Machine, s0: Cpu, woken: seq<Ram>, mem: Ram)
    requires BusyThrough(m, s0, woken) && Busy(LiveAfter(m, s0, woken, |woken|))
    ensures BusyThrough(m, s0, woken + [mem])
  {
    forall i: nat | i < |woken| + 1 ensures Busy(LiveAfter(m, s0, woken + [mem], i)) {
      assert LiveAfter(m, s0, woken + [mem], i) == LiveAfter(m, s0, woken, i);
    }
  }

  // ----- the gate and the whole run -----

  /** Where the gate sends a CDB; `Fall` is the transition. */
  function Gated(cdb: seq<byte>, t: Cpu): Exit
    requires |cdb| == 12
  {
    if !(cdb[0] == 0x3c && cdb[1] == 0x0e && cdb[2] == 0xc0 && cdb[3] == 0xde) then Goto(FoundationOem, t)
    else if cdb[4] == 1 then Goto(Label.Identity, t)
    else Framed(cdb, t)
  }

  function Framed(cdb: seq<byte>, t: Cpu): Exit
    requires |cdb| == 12
  {
    if !(cdb[4] == 2 && cdb[7] == 0 && cdb[8] == 64 && cdb[9] == 0) then Goto(Invalid, t) else Featured(cdb, t)
  }

  function Featured(cdb: seq<byte>, t: Cpu): Exit
    requires |cdb| == 12
  {
    if cdb[5] in {2, 3, 5} then Goto(Acknowledge, t)
    else if cdb[5] != 6 then Goto(Invalid, t)
    else if cdb[6] in {1, 0xff} then Goto(Transition, t)
    else if cdb[6] != 0 then Goto(Invalid, t)
    else Fall(t)
  }

  /** Only ER2 and the flags move while a CDB is examined. */
  ghost predicate Examined(s: Cpu, t: Cpu) {
    t == s.(regs := t.regs, zero := t.zero, carry := t.carry) && t.regs == s.regs.(r2 := t.regs.r2)
  }

  lemma FeatureRun(m: Machine, s: Cpu) returns (t: Cpu)
    requires s.regs.r1 == m.cdb
    ensures |Seen(m, s.mem).cdb| == 12 && Examined(s, t) && Exec(m, FeatureCode(), s) == Featured(Seen(m, s.mem).cdb, t)
  {
    hide Exec;
    var cdb := Seen(m, s.mem).cdb;
    var k4 := StateCode();
    var k3 := Compare(6, NotEqual, Invalid, k4);
    var k2 := Compare(5, Equal, Acknowledge, k3);
    var k1 := Compare(3, Equal, Acknowledge, k2);
    var k0 := Compare(2, Equal, Acknowledge, k1);
    One(m, LoadByte(1, 5), k0, s);
    t := CompareOne(m, 2, Equal, Acknowledge, k1, Step(m, LoadByte(1, 5), s).s);
    if t.zero { return; }
    t := CompareOne(m, 3, Equal, Acknowledge, k2, t);
    if t.zero { return; }
    t := CompareOne(m, 5, Equal, Acknowledge, k3, t);
    if t.zero { return; }
    t := CompareOne(m, 6, NotEqual, Invalid, k4, t);
    if !t.zero { return; }
    t := StateRun(m, t);
  }

  lemma StateRun(m: Machine, s: Cpu) returns (t: Cpu)
    requires s.regs.r1 == m.cdb
    ensures |Seen(m, s.mem).cdb| == 12 && Examined(s, t)
    ensures var state := Seen(m, s.mem).cdb[6];
      Exec(m, StateCode(), s) ==
        if state in {1, 0xff} then Goto(Transition, t) else if state != 0 then Goto(Invalid, t) else Fall(t)
  {
    hide Exec;
    var k2 := Compare(0, NotEqual, Invalid, End);
    var k1 := Compare(0xff, Equal, Transition, k2);
    One(m, LoadByte(1, 6), Compare(1, Equal, Transition, k1), s);
    t := CompareOne(m, 1, Equal, Transition, k1, Step(m, LoadByte(1, 6), s).s);
    if t.zero { return; }
    t := CompareOne(m, 0xff, Equal, Transition, k2, t);
    if t.zero { return; }
    t := CompareOne(m, 0, NotEqual, Invalid, End, t);
    EndFalls(m, t);
  }

  lemma FrameRun(m: Machine, s: Cpu) returns (t: Cpu)
    requires s.regs.r1 == m.cdb
    ensures |Seen(m, s.mem).cdb| == 12 && Examined(s, t) && Exec(m, FrameCode(), s) == Framed(Seen(m, s.mem).cdb, t)
  {
    hide Exec; hide Seen; hide Featured;
    SeenSizes(m, s.mem);
    var k4 := FeatureCode();
    var k3 := Check(9, 0, NotEqual, Invalid, k4);
    var k2 := Check(8, 64, NotEqual, Invalid, k3);
    var k1 := Check(7, 0, NotEqual, Invalid, k2);
    t := CheckOne(m, 4, 2, NotEqual, Invalid, k1, s);
    if !t.zero { return; }
    t := CheckOne(m, 7, 0, NotEqual, Invalid, k2, t);
    if !t.zero { return; }
    t := CheckOne(m, 8, 64, NotEqual, Invalid, k3, t);
    if !t.zero { return; }
    t := CheckOne(m, 9, 0, NotEqual, Invalid, k4, t);
    if !t.zero { return; }
    t := FeatureRun(m, t);
  }

  lemma EntryRun(m: Machine, s0: Cpu) returns (t: Cpu)
    requires Placed(m) && s0.regs.r1 == m.cdb && s0.regs.r7 == m.top
    ensures |Seen(m, s0.mem).cdb| == 12 && AtGate(m, s0, t) && t.shown == s0.shown && Seen(m, t.mem) == Seen(m, s0.mem)
    ensures Exec(m, EntryCode(), s0) == Gated(Seen(m, s0.mem).cdb, t)
  {
    hide Exec; hide Seen; hide Framed; hide Placed; hide Stack;
    PlacedBounds(m);
    SeenSizes(m, s0.mem);
    StackEmpty(m, s0.mem);
    var k5 := FrameCode();
    var k4 := Check(4, 1, Equal, Label.Identity, k5);
    var k3 := Check(3, 0xde, NotEqual, FoundationOem, k4);
    var k2 := Check(2, 0xc0, NotEqual, FoundationOem, k3);
    var k1 := Check(1, 0x0e, NotEqual, FoundationOem, k2);
    t := PushOne(m, 2, Check(0, 0x3c, NotEqual, FoundationOem, k1), s0);
    t := CheckOne(m, 0, 0x3c, NotEqual, FoundationOem, k1, t);
    if !t.zero { return; }
    t := CheckOne(m, 1, 0x0e, NotEqual, FoundationOem, k2, t);
    if !t.zero { return; }
    t := CheckOne(m, 2, 0xc0, NotEqual, FoundationOem, k3, t);
    if !t.zero { return; }
    t := CheckOne(m, 3, 0xde, NotEqual, FoundationOem, k4, t);
    if !t.zero { return; }
    t := CheckOne(m, 4, 1, Equal, Label.Identity, k5, t);
    if t.zero { return; }
    t := FrameRun(m, t);
  }

  lemma StackEmpty(m: Machine, mem: Ram)
    ensures Stack(mem, m.top, m.top) == Bottom
  {
  }

  lemma IdentityChecks(m: Machine, s: Cpu) returns (t: Cpu)
    requires s.regs.r1 == m.cdb
    ensures |Seen(m, s.mem).cdb| == 12 && Examined(s, t)
    ensures var c := Seen(m, s.mem).cdb;
      Exec(m, IdentityCode(m), s) ==
        if c[5] == 0 && c[6] == 0 && c[7] == 0 && c[8] == 64 && c[9] == 0
        then Exec(m, Do(SetLong(2, m.identity), Do(Branch(Always, Reply), End)), t) else Goto(Invalid, t)
  {
    hide Exec; hide Seen;
    SeenSizes(m, s.mem);
    var k5 := Do(SetLong(2, m.identity), Do(Branch(Always, Reply), End));
    var k4 := Check(9, 0, NotEqual, Invalid, k5);
    var k3 := Check(8, 64, NotEqual, Invalid, k4);
    var k2 := Check(7, 0, NotEqual, Invalid, k3);
    var k1 := Check(6, 0, NotEqual, Invalid, k2);
    t := CheckOne(m, 5, 0, NotEqual, Invalid, k1, s);
    if !t.zero { return; }
    t := CheckOne(m, 6, 0, NotEqual, Invalid, k2, t);
    if !t.zero { return; }
    t := CheckOne(m, 7, 0, NotEqual, Invalid, k3, t);
    if !t.zero { return; }
    t := CheckOne(m, 8, 64, NotEqual, Invalid, k4, t);
    if !t.zero { return; }
    t := CheckOne(m, 9, 0, NotEqual, Invalid, k5, t);
  }

  lemma IdentityRun(m: Machine, s0: Cpu, s: Cpu, fuel: nat) returns (t: Cpu)
    requires Placed(m) && Conventional(m) && Inside(m) && AtGate(m, s0, s) && s.regs.r1 == m.cdb && fuel >= 2
    ensures |Seen(m, s.mem).cdb| == 12 && |Seen(m, s.mem).payload| == m.size
    ensures Go(m, 10, s, fuel) == Return(t) && Restores(s0, t)
    ensures t.shown == if Seen(m, s.mem).cdb[5..10] == [0, 0, 0, 64, 0]
                       then s.shown.(sent := s.shown.sent + [Sending(Stored(m, Seen(m, s.mem), m.identity, 64), t)])
                       else s.shown.(rejected := s.shown.rejected + 1)
    ensures Seen(m, s.mem).cdb[5..10] != [0, 0, 0, 64, 0] ==> t.regs.r0 % 256 == 1
    ensures Seen(m, t.mem) == Seen(m, s.mem).(live := Seen(m, t.mem).live)
  {
    hide Exec; hide Seen; hide Go; hide From; hide Placed; hide Stack; hide Conventional; hide IdentityCode;
    SeenSizes(m, s.mem);
    GoOne(m, 10, s, fuel);
    FieldsAt5(Seen(m, s.mem).cdb);
    var a := IdentityChecks(m, s);
    if Seen(m, s.mem).cdb[5..10] != [0, 0, 0, 64, 0] { t := InvalidRun(m, s0, a, fuel - 1); return; }
    var k := Do(Branch(Always, Reply), End);
    One(m, SetLong(2, m.identity), k, a);
    var b := Step(m, SetLong(2, m.identity), a).s;
    BranchTaken(m, Always, Reply, End, b);
    t := ReplyRun(m, s0, b, fuel - 1);
  }

  lemma FieldsAt5(c: seq<byte>)
    requires |c| == 12
    ensures c[5..10] == [0, 0, 0, 64, 0] <==> c[5] == 0 && c[6] == 0 && c[7] == 0 && c[8] == 64 && c[9] == 0
  {
  }

  lemma TransitionRun(m: Machine, s0: Cpu, s: Cpu, fuel: nat) returns (t: Cpu)
    requires Placed(m) && Conventional(m) && Inside(m) && AtGate(m, s0, s) && s.regs.r1 == m.cdb && fuel >= 510
    requires s.shown == BLANK && Seen(m, s.mem) == Seen(m, s0.mem)
    ensures Go(m, 1, s, fuel) == Return(t) && Restores(s0, t) && Switched(m, s0, t)
  {
    hide Exec; hide Seen; hide Go; hide From; hide Placed; hide Stack; hide Conventional; hide Switched;
    PlacedBounds(m);
    GoOne(m, 1, s, fuel);
    var k1 := Do(SetLong(5, 500), End);
    var a := PushAllRun(m, Do(MoveLong(1, 6), k1), s);
    One(m, MoveLong(1, 6), k1, a);
    var b := Step(m, MoveLong(1, 6), a).s;
    One(m, SetLong(5, 500), End, b);
    var c := Step(m, SetLong(5, 500), b).s;
    EndFalls(m, c);
    t := WaitRun(m, s0, s.regs.r2, c, fuel - 1);
  }

  /** What a command has come to, request by request. */
  ghost predicate Served(m: Machine, s0: Cpu, t: Cpu)
    requires Inside(m)
  {
    var v := Seen(m, s0.mem);
    |v.cdb| == 12 && |v.payload| == m.size &&
    match Requested(v.cdb)
    case Foreign => t.regs == s0.regs && t.shown == BLANK && Seen(m, t.mem) == v
    case Switch(state) => Restores(s0, t) && Switched(m, s0, t)
    case WhoAreYou => Restores(s0, t) && t.shown == BLANK.(sent := [Sending(Stored(m, v, m.identity, 64), t)])
                      && Seen(m, t.mem) == v.(live := Seen(m, t.mem).live)
    case Optional => Restores(s0, t) && t.shown == BLANK.(sent := [Sending(Stored(m, v, m.data, 64), t)])
                     && Seen(m, t.mem) == v.(live := Seen(m, t.mem).live)
    case Malformed => Restores(s0, t) && t.shown == BLANK.(rejected := 1) && t.regs.r0 % 256 == 1
                      && Seen(m, t.mem) == v.(live := Seen(m, t.mem).live)
  }

  /** Every run of the wrapper ends. A CDB outside the namespace goes on to the OEM routine with all
      eight registers as they came; every other one returns with ER2-ER6 and SP restored. */
  lemma WrapperRun(m: Machine, s0: Cpu, fuel: nat) returns (t: Cpu)
    requires Placed(m) && Conventional(m) && Inside(m)
    requires s0.regs.r1 == m.cdb && s0.regs.r7 == m.top && s0.shown == BLANK && fuel >= 511
    ensures |Seen(m, s0.mem).cdb| == 12
    ensures Run(m, From(m, 0), From(m, 0), s0, fuel) ==
            if Requested(Seen(m, s0.mem).cdb).Foreign? then Tail(m.main, t) else Return(t)
    ensures Served(m, s0, t)
  {
    hide Exec; hide Seen; hide Placed; hide Stack; hide Conventional; hide Switched; hide Run; hide From;
    SeenSizes(m, s0.mem);
    GoOne(m, 0, s0, fuel);
    var a := EntryRun(m, s0);
    var cdb := Seen(m, s0.mem).cdb;
    Requests(cdb);
    var e := Gated(cdb, a);
    if !e.Goto? || e.goal == Transition { t := TransitionRun(m, s0, a, fuel - 1); }
    else if e.goal == FoundationOem { t := FoundationRun(m, s0, a, fuel - 1); }
    else if e.goal == Label.Identity { t := IdentityRun(m, s0, a, fuel - 1); }
    else if e.goal == Invalid { t := InvalidRun(m, s0, a, fuel - 1); }
    else { t := AcknowledgeRun(m, s0, a, fuel - 1); }
  }

  /** The gate's branches are the requests. */
  lemma Requests(cdb: seq<byte>)
    requires |cdb| == 12
    ensures cdb[..4] == [0x3c, 0x0e, 0xc0, 0xde] <==>
        cdb[0] == 0x3c && cdb[1] == 0x0e && cdb[2] == 0xc0 && cdb[3] == 0xde
    ensures cdb[4..10] == [1, 0, 0, 0, 64, 0] <==> cdb[4] == 1 && cdb[5..10] == [0, 0, 0, 64, 0]
    ensures cdb[7..10] == [0, 64, 0] <==> cdb[7] == 0 && cdb[8] == 64 && cdb[9] == 0
  {
    if cdb[4] == 1 && cdb[5..10] == [0, 0, 0, 64, 0] { assert cdb[4..10] == [cdb[4]] + cdb[5..10]; }
    if cdb[4..10] == [1, 0, 0, 0, 64, 0] { assert cdb[5..10] == cdb[4..10][1..]; }
  }

  lemma FoundationRun(m: Machine, s0: Cpu, s: Cpu, fuel: nat) returns (t: Cpu)
    requires Placed(m) && AtGate(m, s0, s) && fuel >= 1
    ensures Go(m, 12, s, fuel) == Tail(m.main, t) && t.regs == s0.regs && t.shown == s.shown && t.mem == s.mem
  {
    hide Exec; hide Go; hide From; hide Placed; hide Stack;
    PlacedBounds(m);
    GoOne(m, 12, s, fuel);
    t := PopOne(m, 2, Do(Jmp(m.main), End), s);
    JmpEnds(m, m.main, t);
  }

  lemma JmpEnds(m: Machine, target: nat, s: Cpu)
    ensures Exec(m, Do(Jmp(target), End), s) == Tail(target, s)
  {
  }

  /** What a run leaves of the slots and the payload. The acquisition, reset and pointer slots and the
      payload are as they were; the security slot changes only for a well-formed Encryption SET that
      owned all three slots and found the read engine idle within 500 delays, and then holds the table
      that SET asks for. Unless the OEM initialisation ran, the buffers are as they were too. */
  lemma SlotsSafe(m: Machine, s0: Cpu, t: Cpu)
    requires Inside(m) && Served(m, s0, t)
    ensures var v, w := Seen(m, s0.mem), Seen(m, t.mem);
      && w.acquisition == v.acquisition && w.reset == v.reset && w.payload == v.payload && w.hook == v.hook
      && (w.security != v.security ==>
            && Requested(v.cdb).Switch? && Owns(m, v) && w.security == PolicyFor(m, Requested(v.cdb).state)
            && |t.shown.woken| <= 500 && !Busy(LiveAfter(m, s0, t.shown.woken, |t.shown.woken|)))
      && (t.shown.initialized == [] ==> w == v.(live := w.live))
      && (t.shown.initialized != [] ==>
            && Requested(v.cdb).Switch? && |t.shown.initialized| == 1
            && w.security == PolicyFor(m, Requested(v.cdb).state))
  {
    hide Seen; hide BusyThrough;
  }

  // ----- the callbacks of the payload -----

  /** The borrowed acquisition callback: the cache counts as checked, with result zero. */
  function CallbackCode(checked: nat, result: nat): Code {
    Do(SetLow(2, 1), Do(StoreByteAt(checked), Do(ClearLow(2), Do(StoreByteAt(result), Do(ClearLong(0), Do(Rts, End))))))
  }

  /** It returns zero with `checked` set and `result` clear, and writes nothing else: what the host's
      activation check reads back. */
  lemma CallbackRun(m: Machine, checked: nat, result: nat, s: Cpu) returns (t: Cpu)
    requires checked != result
    ensures Exec(m, CallbackCode(checked, result), s) == Return(t) && t.shown == s.shown
    ensures t.regs == s.regs.(r0 := 0, r2 := t.regs.r2)
    ensures forall a: nat :: Get(t.mem, a) == if a == checked then 1 else if a == result then 0 else Get(s.mem, a)
  {
    hide Exec;
    var k4 := Do(ClearLong(0), Do(Rts, End));
    var k3 := Do(StoreByteAt(result), k4);
    var k2 := Do(ClearLow(2), k3);
    var k1 := Do(StoreByteAt(checked), k2);
    One(m, SetLow(2, 1), k1, s);
    var a := Step(m, SetLow(2, 1), s).s;
    One(m, StoreByteAt(checked), k2, a);
    var b := Step(m, StoreByteAt(checked), a).s;
    One(m, ClearLow(2), k3, b);
    var c := Step(m, ClearLow(2), b).s;
    One(m, StoreByteAt(result), k4, c);
    var d := Step(m, StoreByteAt(result), c).s;
    One(m, ClearLong(0), Do(Rts, End), d);
    t := Step(m, ClearLong(0), d).s;
    RtsEnds(m, t);
  }
}
