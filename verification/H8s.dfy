/** The handful of H8S instructions the runtime payload is made of, the machine they run on, and the
    calling convention its OEM routines keep. */
module H8s {
  import opened Bytes
  import opened Ram

  type Word = w: int | 0 <= w < 0x1_0000_0000

  datatype Regs = Regs(r0: Word, r1: Word, r2: Word, r3: Word, r4: Word, r5: Word, r6: Word, r7: Word)

  function Reg(r: Regs, i: nat): Word {
    match i
    case 0 => r.r0 case 1 => r.r1 case 2 => r.r2 case 3 => r.r3
    case 4 => r.r4 case 5 => r.r5 case 6 => r.r6 case _ => r.r7
  }

  function WithReg(r: Regs, i: nat, v: Word): Regs {
    match i
    case 0 => r.(r0 := v) case 1 => r.(r1 := v) case 2 => r.(r2 := v) case 3 => r.(r3 := v)
    case 4 => r.(r4 := v) case 5 => r.(r5 := v) case 6 => r.(r6 := v) case _ => r.(r7 := v)
  }

  function Wrap(v: int): Word { v % 0x1_0000_0000 }

  /** A register with its low byte, or its low word, replaced. */
  function WithLow(w: Word, b: byte): (r: Word)
    ensures r % 256 == b
  {
    w - w % 256 + b
  }

  function WithLowWord(w: Word, v: nat): (r: Word)
    requires v < 0x10000
    ensures r % 0x10000 == v
  {
    w - w % 0x10000 + v
  }

  /** Big-endian long words in memory. */
  function Load(m: Ram, at: nat): Word {
    ((Get(m, at) * 256 + Get(m, at + 1)) * 256 + Get(m, at + 2)) * 256 + Get(m, at + 3)
  }

  function LoadWord(m: Ram, at: nat): (w: nat)
    ensures w < 0x10000
  {
    Get(m, at) * 256 + Get(m, at + 1)
  }

  function LongBytes(v: Word): (s: seq<byte>)
    ensures |s| == 4
  {
    [v / 0x100_0000, v / 0x1_0000 % 256, v / 256 % 256, v % 256]
  }

  function Store(m: Ram, at: nat, v: Word): Ram { Put(m, at, LongBytes(v)) }

  lemma LoadStore(m: Ram, at: nat, v: Word)
    ensures Load(Store(m, at, v), at) == v
  {
    LongBytesValue(v);
    var r, s := Store(m, at, v), LongBytes(v);
    assert Get(r, at) == s[0] && Get(r, at + 1) == s[1] && Get(r, at + 2) == s[2] && Get(r, at + 3) == s[3];
  }

  lemma LongBytesValue(v: Word)
    ensures var s := LongBytes(v); (((s[0] as int) * 256 + s[1]) * 256 + s[2]) * 256 + s[3] == v
  {
    assert v / 0x1_0000 == v / 256 / 256 && v / 0x100_0000 == v / 256 / 256 / 256;
  }

  /** A long word is its four bytes, the highest first. */
  lemma LoadMeaning(m: Ram, at: nat)
    ensures Load(m, at) == FromBytes(ReadAt(m, at, 4))
  {
    var s := ReadAt(m, at, 4);
    LastByte(s, s[..3]);
    LastByte(s[..3], s[..2]);
    LastByte(s[..2], s[..1]);
    LastByte(s[..1], []);
  }

  lemma LastByte(s: seq<byte>, init: seq<byte>)
    requires |s| == |init| + 1 && init == s[..|init|]
    ensures FromBytes(s) == FromBytes(init) * 256 + s[|init|]
  {
  }

  lemma LoadSame(m: Ram, m': Ram, at: nat)
    requires forall a: nat :: at <= a < at + 4 ==> Get(m', a) == Get(m, a)
    ensures Load(m', at) == Load(m, at)
  {
  }

  // ----- instructions -----

  datatype Label =
    | Entry | Identity | Transition | WaitReadIdle | ReadIdle | OwnedPolicy | RestorePolicy | Reinitialize
    | Acknowledge | Reply | Refused | Invalid | FoundationOem
    | VidEntry | VidLength | VidEmpty | VidReturn | VidUnavailable | VidInvalid | VidOem

  datatype Condition = Always | CarryClear | CarrySet | NotEqual | Equal

  datatype Insn =
    | Push(r: nat) | Pop(r: nat)
    | LoadByte(base: nat, offset: nat)          // MOV.B @(offset, ERbase), R2L
    | StoreByte(base: nat, offset: nat)         // MOV.B R2L, @(offset, ERbase)
    | LoadByteAt(at: nat)                       // MOV.B @at, R2L
    | StoreByteAt(at: nat)                      // MOV.B R2L, @at
    | MoveWord(base: nat, offset: nat, r: nat)  // MOV.W @(offset, ERbase), Rr
    | ExtendWord(r: nat)                        // EXTU.L ERr
    | LoadLong(r: nat, at: nat) | StoreLong(r: nat, at: nat) | StoreIndirect(r: nat, base: nat)
    | MoveLong(src: nat, dst: nat)
    | SetLong(r: nat, v: Word) | SetLow(r: nat, b: byte)
    | ClearLong(r: nat) | ClearLow(r: nat)
    | CompareLow(b: byte)                       // CMP.B #b, R2L
    | AndLow(b: byte)                           // AND.B #b, R2L
    | CompareLong(r: nat, v: Word) | SubtractLong(r: nat, v: Word)
    | TestLow(r: nat) | TestWord(r: nat)        // MOV.B RrL, RrL and MOV.W Rr, Rr
    | Subs(n: nat, r: nat) | Adds(n: nat, r: nat)
    | Branch(c: Condition, goal: Label)
    | Jsr(target: nat) | Jmp(target: nat) | Rts

  datatype Code = End | Do(insn: Insn, rest: Code)

  datatype Program = Nothing | Block(name: Label, code: Code, next: Program)

  // ----- the machine -----

  /** One OEM initialisation: the machine at the call, and the low byte of R0 at the return. */
  datatype Initialization = Initialization(regs: Regs, mem: Ram, answer: byte)

  /** One transfer: the bytes, the flag in R1L, and R0 at the return. */
  datatype Sent = Sent(bytes: seq<byte>, flag: byte, answer: Word)

  /** What the run has shown the outside: the ticks asked of the scheduler, memory after each delay,
      whether one was refused, the OEM initialisations, the replies and the rejections. */
  datatype Shown = Shown(
    ticks: nat, woken: seq<Ram>, refused: bool, initialized: seq<Initialization>, sent: seq<Sent>,
    rejected: nat)

  const BLANK: Shown := Shown(0, [], false, [], [], 0)

  datatype Cpu = Cpu(regs: Regs, mem: Ram, zero: bool, carry: bool, shown: Shown)

  datatype Exit = Fall(s: Cpu) | Goto(goal: Label, s: Cpu) | Tail(target: nat, s: Cpu) | Return(s: Cpu) | Lost

  /** The discovered sites of the firmware, where the payload sits, and where one command finds its
      CDB and stack: `[floor, top)`, with `top` the stack pointer on entry. */
  datatype Machine = Machine(
    main: nat, vidMain: nat, helper: nat, invalid: nat, delay: nat, dispatcher: nat,
    engine: nat, vidStatus: nat, vidSource: nat,
    acquisition: nat, acquisitionTable: Word, reset: nat, resetTable: Word,
    security: nat, securityTable: Word, buffers: (nat, nat), pointer: nat, vidSlot: nat, writePointer: nat,
    base: nat, size: nat, temporary: Word, policy: Word, data: Word, identity: Word, vidData: Word,
    cdb: nat, floor: nat, top: nat,
    callee: (nat, Cpu) -> Cpu)

  const CONTROLLER: Word := 0xa00000

  /** An OEM routine runs: its registers and memory are its own affair; what it shows is recorded. */
  function Call(m: Machine, target: nat, s: Cpu): Cpu {
    var r := m.callee(target, s);
    var e := s.shown;
    var shown :=
      if target == m.delay then
        e.(ticks := e.ticks + s.regs.r0, woken := e.woken + [r.mem], refused := e.refused || r.regs.r0 % 0x10000 != 0)
      else if target == m.dispatcher then 
        e.(initialized := e.initialized + [Initialization(s.regs, s.mem, r.regs.r0 % 256)])
      else if target == m.helper
        then e.(sent := e.sent + [Sent(ReadAt(s.mem, CONTROLLER + s.regs.r2, Load(s.mem, s.regs.r7)),
                                           s.regs.r1 % 256, r.regs.r0)])
      else if target == m.invalid then e.(rejected := e.rejected + 1)
      else e;
    Cpu(r.regs, r.mem, r.zero, r.carry, shown)
  }

  predicate Taken(c: Condition, s: Cpu) {
    match c
    case Always => true
    case CarryClear => !s.carry
    case CarrySet => s.carry
    case NotEqual => !s.zero
    case Equal => s.zero
  }

  function Step(m: Machine, i: Insn, s: Cpu): Exit {
    var g := s.regs;
    match i
    case Push(r) =>
      var sp := Wrap(g.r7 - 4);
      Fall(s.(regs := g.(r7 := sp), mem := Store(s.mem, sp, Reg(g, r))))
    case Pop(r) => Fall(s.(regs := WithReg(g.(r7 := Wrap(g.r7 + 4)), r, Load(s.mem, g.r7))))
    case LoadByte(base, offset) => Fall(s.(regs := g.(r2 := WithLow(g.r2, Get(s.mem, Reg(g, base) + offset)))))
    case StoreByte(base, offset) => Fall(s.(mem := Put(s.mem, Reg(g, base) + offset, [g.r2 % 256])))
    case LoadByteAt(at) => Fall(s.(regs := g.(r2 := WithLow(g.r2, Get(s.mem, at)))))
    case StoreByteAt(at) => Fall(s.(mem := Put(s.mem, at, [g.r2 % 256])))
    case MoveWord(base, offset, r) =>
      Fall(s.(regs := WithReg(g, r, WithLowWord(Reg(g, r), LoadWord(s.mem, Reg(g, base) + offset)))))
    case ExtendWord(r) => Fall(s.(regs := WithReg(g, r, Reg(g, r) % 0x10000)))
    case LoadLong(r, at) => Fall(s.(regs := WithReg(g, r, Load(s.mem, at))))
    case StoreLong(r, at) => Fall(s.(mem := Store(s.mem, at, Reg(g, r))))
    case StoreIndirect(r, base) => Fall(s.(mem := Store(s.mem, Reg(g, base), Reg(g, r))))
    case MoveLong(src, dst) => Fall(s.(regs := WithReg(g, dst, Reg(g, src))))
    case SetLong(r, v) => Fall(s.(regs := WithReg(g, r, v)))
    case SetLow(r, b) => Fall(s.(regs := WithReg(g, r, WithLow(Reg(g, r), b))))
    case ClearLong(r) => Fall(s.(regs := WithReg(g, r, 0), zero := true))
    case ClearLow(r) => Fall(s.(regs := WithReg(g, r, WithLow(Reg(g, r), 0)), zero := true))
    case CompareLow(b) => Fall(s.(zero := g.r2 % 256 == b, carry := g.r2 % 256 < b))
    case AndLow(b) =>
      var v := And(g.r2 % 256, b);
      Fall(s.(regs := g.(r2 := WithLow(g.r2, v)), zero := v == 0))
    case CompareLong(r, v) => Fall(s.(zero := Reg(g, r) == v, carry := Reg(g, r) < v))
    case SubtractLong(r, v) => Fall(s.(regs := WithReg(g, r, Wrap(Reg(g, r) - v))))
    case TestLow(r) => Fall(s.(zero := Reg(g, r) % 256 == 0))
    case TestWord(r) => Fall(s.(zero := Reg(g, r) % 0x10000 == 0))
    case Subs(n, r) => Fall(s.(regs := WithReg(g, r, Wrap(Reg(g, r) - n))))
    case Adds(n, r) => Fall(s.(regs := WithReg(g, r, Wrap(Reg(g, r) + n))))
    case Branch(c, goal) => if Taken(c, s) then Goto(goal, s) else Fall(s)
    case Jsr(target) => Fall(Call(m, target, s))
    case Jmp(target) => Tail(target, s)
    case Rts => Return(s)
  }

  /** Bitwise and. */
  function And(a: byte, b: byte): (r: byte)
    ensures r <= a
  {
    if a == 0 || b == 0 then 0 else 2 * And(a / 2, b / 2) + (if a % 2 == 1 && b % 2 == 1 then 1 else 0)
  }

  /** Straight through a block until its end or a transfer of control. */
  function Exec(m: Machine, c: Code, s: Cpu): Exit {
    match c
    case End => Fall(s)
    case Do(insn, rest) =>
      match Step(m, insn, s)
      case Fall(t) => Exec(m, rest, t)
      case Goto(l, t) => Goto(l, t)
      case Tail(a, t) => Tail(a, t)
      case Return(t) => Return(t)
      case Lost => Lost
  }

  /** The part of a program that starts at a label. */
  function At(p: Program, l: Label): Program {
    if p.Nothing? || p.name == l then p else At(p.next, l)
  }

  /** Run block after block; `Lost` is running off the program or out of fuel. */
  function Run(m: Machine, p: Program, here: Program, s: Cpu, fuel: nat): Exit
    decreases fuel
  {
    if here.Nothing? || fuel == 0 then Lost else
      match Exec(m, here.code, s)
      case Fall(t) => Run(m, p, here.next, t, fuel - 1)
      case Goto(l, t) => Run(m, p, At(p, l), t, fuel - 1)
      case Tail(a, t) => Tail(a, t)
      case Return(t) => Return(t)
      case Lost => Lost
  }

  // ----- abstraction -----

  datatype Words = Bottom | Top(head: Word, rest: Words)

  /** The long words between a stack pointer and the top of the stack. */
  function Stack(mem: Ram, sp: nat, top: nat): Words
    decreases top - sp
  {
    if sp + 4 > top then Bottom else Top(Load(mem, sp), Stack(mem, sp + 4, top))
  }

  /** The memory a command may care about besides the stack. */
  datatype View = View(
    acquisition: Word, reset: Word, security: Word, buffers: (seq<byte>, seq<byte>), hook: Hook,
    payload: seq<byte>, cdb: seq<byte>, vectors: seq<byte>, live: Live)

  /** Hardware and scheduler state, free to change at every call: the read engine, the Volume ID ready
      bits and the sixteen Volume ID registers. */
  datatype Live = Live(engine: byte, status: byte, vid: seq<byte>)

  /** The slots through which the firmware reaches the two wrappers, and its diagnostic write pointer. */
  datatype Hook = Hook(pointer: seq<byte>, vidSlot: seq<byte>, writePointer: seq<byte>)

  function Seen(m: Machine, mem: Ram): View {
    View(Load(mem, m.acquisition), Load(mem, m.reset), Load(mem, m.security),
         (ReadAt(mem, m.buffers.0, 16), ReadAt(mem, m.buffers.1, 16)),
         Hook(ReadAt(mem, m.pointer, 4), ReadAt(mem, m.vidSlot, 4), ReadAt(mem, m.writePointer, 4)),
         ReadAt(mem, m.base, m.size), ReadAt(mem, m.cdb, 12), ReadAt(mem, VECTORS, 16),
         Live(Get(mem, m.engine), Get(mem, m.vidStatus), ReadAt(mem, m.vidSource, 16)))
  }

  /** CPU address of the vectors the OEM buffer reset copies from. */
  const VECTORS: nat := 0x10

  /** The areas of memory a command reads or writes. */
  function Area(m: Machine, k: nat): (nat, nat) {
    match k
    case 0 => (m.acquisition, 4)
    case 1 => (m.reset, 4)
    case 2 => (m.security, 4)
    case 3 => (m.buffers.0, 16)
    case 4 => (m.buffers.1, 16)
    case 5 => (m.base, m.size)
    case 6 => (m.cdb, 12)
    case 7 => (m.engine, 1)
    case 8 => (m.floor, if m.floor <= m.top then m.top - m.floor else 0)
    case 9 => (VECTORS, 16)
    case 10 => (m.vidStatus, 1)
    case 11 => (m.vidSource, 16)
    case 12 => (m.pointer, 4)
    case 13 => (m.vidSlot, 4)
    case _ => (m.writePointer, 4)
  }

  /** Everything lies apart, the OEM routines are different ones, and there is room for sixteen long
      words of stack. */
  ghost predicate Placed(m: Machine) {
    && m.floor + 64 <= m.top < 0x1_0000_0000 && m.cdb < 0x1_0000_0000
    && m.delay != m.dispatcher && m.helper !in {m.delay, m.dispatcher}
    && m.invalid !in {m.delay, m.dispatcher, m.helper}
    && forall i: nat, j: nat {:trigger Area(m, i), Area(m, j)} :: i < j < 15 ==>
         Apart(Area(m, i).0, Area(m, i).1, Area(m, j).0, Area(m, j).1)
  }

  /** The calling convention: SP and ER3-ER6 survive a call, and so do the caller's frame, the payload,
      the CDB, the vectors, the reset and security slots, the pointer slots and the write path. Only the
      dispatcher may touch the acquisition slot and the two buffers. The rejecting routine, called after
      ER2 is restored, keeps ER2 as well. */
  ghost predicate Conventional(m: Machine) {
    forall target: nat, s: Cpu {:trigger m.callee(target, s)} ::
      m.floor + 4 <= s.regs.r7 <= m.top ==> KeptByCall(m, target, s, m.callee(target, s))
  }

  ghost predicate KeptByCall(m: Machine, target: nat, s: Cpu, r: Cpu) {
    var v, w := Seen(m, s.mem), Seen(m, r.mem);
    && r.regs == r.regs.(r3 := s.regs.r3, r4 := s.regs.r4, r5 := s.regs.r5, r6 := s.regs.r6, r7 := s.regs.r7)
    && (target == m.invalid ==> r.regs.r2 == s.regs.r2)
    && Stack(r.mem, s.regs.r7, m.top) == Stack(s.mem, s.regs.r7, m.top)
    && w == (if target == m.dispatcher then v.(acquisition := w.acquisition, buffers := w.buffers, live := w.live)
             else v.(live := w.live))
  }

  // ----- what the instructions do to the abstraction -----

  lemma {:induction false} StackSame(mem: Ram, mem': Ram, sp: nat, top: nat)
    requires forall a: nat :: sp <= a < top ==> Get(mem', a) == Get(mem, a)
    ensures Stack(mem', sp, top) == Stack(mem, sp, top)
    decreases top - sp
  {
    if sp + 4 <= top {
      LoadSame(mem, mem', sp);
      StackSame(mem, mem', sp + 4, top);
    }
  }

  predicate AreaEqual(m: Machine, mem: Ram, mem': Ram, j: nat) {
    forall a: nat :: Area(m, j).0 <= a < Area(m, j).0 + Area(m, j).1 ==> Get(mem', a) == Get(mem, a)
  }

  /** A write inside area `k` leaves the bytes of every other area alone. */
  lemma AreaSame(m: Machine, mem: Ram, k: nat, at: nat, bytes: seq<byte>, j: nat)
    requires Placed(m) && k < 15 && j < 15 && j != k
    requires Area(m, k).0 <= at && at + |bytes| <= Area(m, k).0 + Area(m, k).1
    ensures AreaEqual(m, mem, Put(mem, at, bytes), j)
  {
    assert Apart(Area(m, j).0, Area(m, j).1, Area(m, k).0, Area(m, k).1);
  }

  lemma SlotsEqual(m: Machine, mem: Ram, mem': Ram)
    ensures AreaEqual(m, mem, mem', 0) ==> Load(mem', m.acquisition) == Load(mem, m.acquisition)
    ensures AreaEqual(m, mem, mem', 1) ==> Load(mem', m.reset) == Load(mem, m.reset)
    ensures AreaEqual(m, mem, mem', 2) ==> Load(mem', m.security) == Load(mem, m.security)
    ensures AreaEqual(m, mem, mem', 7) ==> Get(mem', m.engine) == Get(mem, m.engine)
    ensures AreaEqual(m, mem, mem', 10) ==> Get(mem', m.vidStatus) == Get(mem, m.vidStatus)
  {
  }

  lemma RangeEqual(m: Machine, mem: Ram, mem': Ram, j: nat)
    requires AreaEqual(m, mem, mem', j)
    ensures ReadAt(mem', Area(m, j).0, Area(m, j).1) == ReadAt(mem, Area(m, j).0, Area(m, j).1)
  {
  }

  /** What is seen changes only where area `k` is seen. */
  lemma SeenElsewhere(m: Machine, mem: Ram, k: nat, at: nat, bytes: seq<byte>)
    requires Placed(m) && k < 15
    requires Area(m, k).0 <= at && at + |bytes| <= Area(m, k).0 + Area(m, k).1
    ensures var v, w := Seen(m, mem), Seen(m, Put(mem, at, bytes));
      && (k != 0 ==> w.acquisition == v.acquisition) && (k != 1 ==> w.reset == v.reset)
      && (k != 2 ==> w.security == v.security)
      && (k != 3 ==> w.buffers.0 == v.buffers.0) && (k != 4 ==> w.buffers.1 == v.buffers.1)
      && (k != 5 ==> w.payload == v.payload) && (k != 6 ==> w.cdb == v.cdb)
      && (k != 7 ==> w.live.engine == v.live.engine) && (k != 9 ==> w.vectors == v.vectors)
      && (k != 10 ==> w.live.status == v.live.status) && (k != 11 ==> w.live.vid == v.live.vid)
      && (k < 12 ==> w.hook == v.hook)
    ensures k != 8 ==> forall sp: nat :: m.floor <= sp ==>
        Stack(Put(mem, at, bytes), sp, m.top) == Stack(mem, sp, m.top)
  {
    hide Get; hide ReadAt; hide Load; hide Stack; hide Placed; hide Put; hide AreaEqual;
    var r := Put(mem, at, bytes);
    forall j: nat | j < 15 && j != k ensures AreaEqual(m, mem, r, j) { AreaSame(m, mem, k, at, bytes, j); }
    SlotsEqual(m, mem, r);
    if k != 3 { RangeEqual(m, mem, r, 3); }
    if k != 4 { RangeEqual(m, mem, r, 4); }
    if k != 5 { RangeEqual(m, mem, r, 5); }
    if k != 6 { RangeEqual(m, mem, r, 6); }
    if k != 9 { RangeEqual(m, mem, r, 9); }
    if k != 11 { RangeEqual(m, mem, r, 11); }
    if k < 12 { RangeEqual(m, mem, r, 12); RangeEqual(m, mem, r, 13); RangeEqual(m, mem, r, 14); }
    if k != 8 {
      forall sp: nat | m.floor <= sp ensures Stack(r, sp, m.top) == Stack(mem, sp, m.top) { FrameEqual(m, mem, r, sp); }
    }
  }

  lemma FrameEqual(m: Machine, mem: Ram, mem': Ram, sp: nat)
    requires AreaEqual(m, mem, mem', 8) && m.floor <= sp
    ensures Stack(mem', sp, m.top) == Stack(mem, sp, m.top)
  {
    StackSame(mem, mem', sp, m.top);
  }

  lemma PushSeen(m: Machine, mem: Ram, sp: nat, v: Word)
    requires Placed(m) && m.floor + 4 <= sp <= m.top
    ensures Seen(m, Store(mem, sp - 4, v)) == Seen(m, mem)
    ensures Stack(Store(mem, sp - 4, v), sp - 4, m.top) == Top(v, Stack(mem, sp, m.top))
  {
    SeenElsewhere(m, mem, 8, sp - 4, LongBytes(v));
    LoadStore(mem, sp - 4, v);
    StackSame(mem, Store(mem, sp - 4, v), sp, m.top);
  }

  lemma SlotSeen(m: Machine, mem: Ram, k: nat, v: Word)
    requires Placed(m) && k < 3
    ensures var at, w := Area(m, k).0, Seen(m, mem);
      Seen(m, Store(mem, at, v)) ==
        if k == 0 then w.(acquisition := v) else if k == 1 then w.(reset := v) else w.(security := v)
    ensures forall sp: nat :: m.floor <= sp ==>
              Stack(Store(mem, Area(m, k).0, v), sp, m.top) == Stack(mem, sp, m.top)
  {
    SeenElsewhere(m, mem, k, Area(m, k).0, LongBytes(v));
    LoadStore(mem, Area(m, k).0, v);
  }
}
