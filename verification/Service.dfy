/** Why a served command leaves the hook alone: whatever serves it, one of the two emitted wrappers or
    the OEM routine behind it, keeps the pointer slots, the write path and the payload. */
module Service {
  import opened Bytes
  import opened Ram
  import opened H8s
  import R = Renesas
  import W = Wrapper
  import V = VidWrapper

  /** The machine the payload of `p` was built for. */
  predicate BuiltFor(p: R.Prepared, m: Machine) {
    && m.pointer == p.pointer && m.vidSlot == p.vidSlot && m.writePointer == p.writePointer
    && m.base == p.base && m.size == |p.payload|
  }

  /** RAM when the firmware is done: a wrapper that jumps to an OEM routine lets that one finish. */
  function Finished(m: Machine, e: Exit): (r: Ram)
    requires e.Tail? || e.Return?
  {
    match e
    case Return(t) => t.mem
    case Tail(target, t) => m.callee(target, t).mem
  }

  datatype Handler = ReadBuffer | ReadDiscStructure | Oem(target: nat)

  /** The firmware dispatches a command with its CDB in ER1 and an empty frame. The VID wrapper is
      reached only through a payload as built. */
  ghost predicate Dispatched(m: Machine, h: Handler, s0: Cpu) {
    && s0.regs.r1 == m.cdb && s0.regs.r7 == m.top && s0.shown == BLANK
    && (h.ReadDiscStructure? ==> V.Inside(m) && V.Pristine(m, Seen(m, s0.mem)))
  }

  /** The handler's exit; an OEM routine is jumped to. */
  function Handled(m: Machine, h: Handler, s0: Cpu, fuel: nat): Exit {
    match h
    case ReadBuffer => Run(m, W.From(m, 0), W.From(m, 0), s0, fuel)
    case ReadDiscStructure => Run(m, V.From(m, 0), V.From(m, 0), s0, fuel)
    case Oem(target) => Tail(target, s0)
  }

  lemma ViewHook(p: R.Prepared, m: Machine, r: Ram, r': Ram)
    requires BuiltFor(p, m) && Seen(m, r').hook == Seen(m, r).hook && Seen(m, r').payload == Seen(m, r).payload
    ensures R.SameHook(p, r, r')
  {
  }

  lemma CalleeHook(p: R.Prepared, m: Machine, target: nat, s: Cpu)
    requires BuiltFor(p, m) && Conventional(m) && m.floor + 4 <= s.regs.r7 <= m.top
    ensures R.SameHook(p, s.mem, m.callee(target, s).mem)
  {
    hide Seen; hide R.SameHook;
    assert KeptByCall(m, target, s, m.callee(target, s));
    ViewHook(p, m, s.mem, m.callee(target, s).mem);
  }

  lemma SameHookThrough(p: R.Prepared, a: Ram, b: Ram, c: Ram)
    requires R.SameHook(p, a, b) && R.SameHook(p, b, c)
    ensures R.SameHook(p, a, c)
  {
  }

  /** The READ BUFFER wrapper, for every CDB and every RAM. */
  lemma WrapperKeepsHook(p: R.Prepared, m: Machine, s0: Cpu, fuel: nat)
    requires BuiltFor(p, m) && Placed(m) && Conventional(m) && W.Inside(m) && fuel >= 511
    requires Dispatched(m, ReadBuffer, s0)
    ensures var e := Handled(m, ReadBuffer, s0, fuel);
      (e.Tail? || e.Return?) && R.SameHook(p, s0.mem, Finished(m, e))
  {
    hide Seen; hide R.SameHook; hide Run; hide Placed; hide Conventional; hide W.Inside;  hide BuiltFor;
    var t := W.WrapperRun(m, s0, fuel);
    W.SlotsSafe(m, s0, t);
    ViewHook(p, m, s0.mem, t.mem);
    if W.Requested(Seen(m, s0.mem).cdb).Foreign? {
      assert t.regs == s0.regs && m.floor + 4 <= m.top by { W.PlacedBounds(m); }
      CalleeHook(p, m, m.main, t);
      SameHookThrough(p, s0.mem, t.mem, m.callee(m.main, t).mem);
    }
  }

  /** The READ DISC STRUCTURE wrapper, for every CDB and every RAM whose payload is as built. */
  lemma VidKeepsHook(p: R.Prepared, m: Machine, s0: Cpu, fuel: nat)
    requires BuiltFor(p, m) && Placed(m) && Conventional(m) && V.Inside(m) && fuel >= 4
    requires Dispatched(m, ReadDiscStructure, s0)
    ensures var e := Handled(m, ReadDiscStructure, s0, fuel);
      (e.Tail? || e.Return?) && R.SameHook(p, s0.mem, Finished(m, e))
  {
    hide Seen; hide R.SameHook; hide Run; hide Placed; hide Conventional; hide V.Inside;  hide BuiltFor;
    hide V.Pristine;
    var t := V.VidRun(m, s0, fuel);
    V.ServedSame(m, s0, t);
    ViewHook(p, m, s0.mem, t.mem);
    if V.Requested(m, Seen(m, s0.mem)).Foreign? {
      assert t.regs == s0.regs && m.floor + 4 <= m.top by { W.PlacedBounds(m); }
      CalleeHook(p, m, m.vidMain, t);
      SameHookThrough(p, s0.mem, t.mem, m.callee(m.vidMain, t).mem);
    }
  }

  /** One served command: some frame, some handler, and the RAM that handler leaves. */
  ghost predicate Serving(p: R.Prepared, m: Machine, h: Handler, s0: Cpu, fuel: nat, after: Ram) {
    && BuiltFor(p, m) && Placed(m) && Conventional(m) && W.Inside(m) && V.Inside(m) && fuel >= 511
    && Dispatched(m, h, s0)
    && var e := Handled(m, h, s0, fuel); (e.Tail? || e.Return?) ==> after == Finished(m, e)
  }

  lemma ServingKeepsHook(p: R.Prepared, m: Machine, h: Handler, s0: Cpu, fuel: nat, after: Ram)
    requires Serving(p, m, h, s0, fuel, after)
    ensures R.SameHook(p, s0.mem, after)
  {
    hide Seen; hide R.SameHook; hide Run; hide Conventional; hide W.Inside; hide V.Inside; hide V.Pristine;
    match h
    case ReadBuffer => WrapperKeepsHook(p, m, s0, fuel);
    case ReadDiscStructure => VidKeepsHook(p, m, s0, fuel);
    case Oem(target) => CalleeHook(p, m, target, s0);
  }

  ghost predicate SomehowServed(p: R.Prepared, fuel: nat, ram: Ram, after: Ram) {
    exists m, h, s0: Cpu :: s0.mem == ram && Serving(p, m, h, s0, fuel, after)
  }

  lemma SomehowKeepsHook(p: R.Prepared, fuel: nat, ram: Ram, after: Ram)
    requires SomehowServed(p, fuel, ram, after)
    ensures R.SameHook(p, ram, after)
  {
    hide Serving; hide R.SameHook;
    var m, h, s0: Cpu :| s0.mem == ram && Serving(p, m, h, s0, fuel, after);
    ServingKeepsHook(p, m, h, s0, fuel, after);
  }

  /** A drive whose commands are served this way keeps the contract the transaction relies on. */
  lemma ServesHook(env: R.DriveEnv, p: R.Prepared, fuel: nat)
    requires forall i, ram {:trigger env.served(i, ram)} :: SomehowServed(p, fuel, ram, env.served(i, ram))
    ensures R.Serves(env, p)
  {
    hide SomehowServed; hide R.SameHook;
    forall i, ram {:trigger env.served(i, ram)} ensures R.SameHook(p, ram, env.served(i, ram)) {
      SomehowKeepsHook(p, fuel, ram, env.served(i, ram));
    }
  }
}
