/** The Pioneer runtime hook as a transaction on drive RAM: install, activation, verification, and
    either residence or an unwind, with a fault or a torn write possible at any command. */
module Renesas {
  import opened Wrappers
  import opened Bytes
  import opened Unlock
  import opened Ram
  import Scsi

  datatype Guard = Guard(at: nat, expected: seq<byte>)

  /** What `hook::prepare` hands to the transaction; pointers and tables are their four bytes. */
  datatype Prepared = Prepared(
    pointer: nat, originalTable: seq<byte>, installedPointer: seq<byte>,
    vidSlot: nat, vidTable: seq<byte>, vidInstalledPointer: seq<byte>,
    writePointer: nat, writeTable: seq<byte>,
    securitySlot: nat, securityTable: seq<byte>, policyTable: seq<byte>,
    base: nat, original: seq<byte>, payload: seq<byte>,
    guards: seq<Guard>, loaded: nat, checked: nat, result: nat)

  predicate WritableRam(at: nat, n: nat) {
    n != 0 && ((at > 0 && at + n <= 0x8000) || (at >= 0xa00000 && at + n <= 0xe00000))
  }

  /** The regions the host writes: the two pointer slots, the security slot, the allocation. */
  function Area(p: Prepared, i: nat): (nat, nat)
    requires i < 4
  {
    match i
    case 0 => (p.pointer, 4)
    case 1 => (p.vidSlot, 4)
    case 2 => (p.securitySlot, 4)
    case _ => (p.base, |p.payload|)
  }

  /** What preparation establishes: shapes, writable regions apart from each other, from the write
      pointer and from every guard, and installed values that differ from the OEM ones. */
  ghost predicate Layout(p: Prepared) {
    && |p.originalTable| == |p.installedPointer| == |p.vidTable| == |p.vidInstalledPointer| == 4
    && |p.writeTable| == |p.securityTable| == |p.policyTable| == 4
    && |p.original| == |p.payload| > 0
    && p.originalTable != p.installedPointer && p.vidTable != p.vidInstalledPointer
    && p.securityTable != p.policyTable
    && (forall i, j {:trigger Area(p, i), Area(p, j)} :: 0 <= i < j < 4 ==>
         Apart(Area(p, i).0, Area(p, i).1, Area(p, j).0, Area(p, j).1))
    && (forall i {:trigger Area(p, i)} :: 0 <= i < 4 ==>
         && WritableRam(Area(p, i).0, Area(p, i).1)
         && Apart(Area(p, i).0, Area(p, i).1, p.writePointer, 4)
         && (forall g <- p.guards :: Apart(Area(p, i).0, Area(p, i).1, g.at, |g.expected|)))
  }

  // ----- states of the RAM -----

  predicate PointerIs(p: Prepared, ram: Ram, v: seq<byte>) { ReadAt(ram, p.pointer, 4) == v }

  predicate VidIs(p: Prepared, ram: Ram, v: seq<byte>) { ReadAt(ram, p.vidSlot, 4) == v }

  predicate SecurityIs(p: Prepared, ram: Ram, v: seq<byte>) { ReadAt(ram, p.securitySlot, 4) == v }

  predicate AllocationIs(p: Prepared, ram: Ram, v: seq<byte>) { ReadAt(ram, p.base, |p.payload|) == v }

  predicate WritePathIs(p: Prepared, ram: Ram) { ReadAt(ram, p.writePointer, 4) == p.writeTable }

  predicate GuardHolds(g: Guard, ram: Ram) {
    0 < |g.expected| <= 4096 && ReadAt(ram, g.at, |g.expected|) == g.expected
  }

  predicate GuardsHold(p: Prepared, ram: Ram) {
    |p.guards| > 0 && forall i: nat :: i < |p.guards| ==> GuardHolds(p.guards[i], ram)
  }

  /** The invariant of every state of a fresh install: the READ BUFFER slot leaves its OEM value
      only while the VID slot holds ours, and the VID slot, the security slot and the guards leave
      theirs only while the allocation holds the payload. */
  predicate Recoverable(p: Prepared, ram: Ram) {
    && (PointerIs(p, ram, p.originalTable) || VidIs(p, ram, p.vidInstalledPointer))
    && (VidIs(p, ram, p.vidTable) || AllocationIs(p, ram, p.payload))
    && ((SecurityIs(p, ram, p.securityTable) && GuardsHold(p, ram)) || AllocationIs(p, ram, p.payload))
  }

  /** So no installed pointer ever leads to a wrapper that is not there, and the allocation differs
      from the payload only while every reference to it reads back as OEM. */
  lemma RecoverableMeaning(p: Prepared, ram: Ram)
    requires Layout(p) && Recoverable(p, ram)
    ensures PointerIs(p, ram, p.installedPointer) ==> VidIs(p, ram, p.vidInstalledPointer)
    ensures VidIs(p, ram, p.vidInstalledPointer) ==> AllocationIs(p, ram, p.payload)
    ensures !AllocationIs(p, ram, p.payload) ==>
              && PointerIs(p, ram, p.originalTable) && VidIs(p, ram, p.vidTable)
              && SecurityIs(p, ram, p.securityTable) && GuardsHold(p, ram)
  {
  }

  /** What `verify_resident` reads. */
  predicate Resident(p: Prepared, ram: Ram) {
    && SecurityIs(p, ram, p.policyTable) && GuardsHold(p, ram)
    && PointerIs(p, ram, p.installedPointer) && VidIs(p, ram, p.vidInstalledPointer)
    && WritePathIs(p, ram) && AllocationIs(p, ram, p.payload)
  }

  /** What `verify_state` reads: no software key loaded, cache checked, result zero. */
  predicate Activated(p: Prepared, ram: Ram) {
    ReadAt(ram, p.loaded, 1) == [0] && ReadAt(ram, p.checked, 1) == [1] && ReadAt(ram, p.result, 1) == [0]
  }

  /** What `check_prepared` asks for. */
  predicate Owned(p: Prepared, ram: Ram, existing: bool) {
    && GuardsHold(p, ram)
    && (SecurityIs(p, ram, p.securityTable) || (existing && SecurityIs(p, ram, p.policyTable)))
    && PointerIs(p, ram, if existing then p.installedPointer else p.originalTable)
    && WritePathIs(p, ram)
    && VidIs(p, ram, if existing then p.vidInstalledPointer else p.vidTable)
    && AllocationIs(p, ram, p.original)
  }

  /** What `cleanup` needs of the RAM it starts from, besides a drive that answers. */
  predicate Restorable(p: Prepared, ram: Ram) {
    && GuardsHold(p, ram) && WritePathIs(p, ram)
    && (SecurityIs(p, ram, p.securityTable) || SecurityIs(p, ram, p.policyTable))
  }

  /** A write into one region, whole or torn, touches nothing the other checks read. */
  lemma WriteRegion(p: Prepared, ram: Ram, i: nat, bytes: seq<byte>)
    requires Layout(p) && i < 4 && |bytes| <= Area(p, i).1
    ensures var r := Put(ram, Area(p, i).0, bytes);
      && (forall j {:trigger Area(p, j)} :: 0 <= j < 4 && j != i ==>
           ReadAt(r, Area(p, j).0, Area(p, j).1) == ReadAt(ram, Area(p, j).0, Area(p, j).1))
      && ReadAt(r, p.writePointer, 4) == ReadAt(ram, p.writePointer, 4)
      && (GuardsHold(p, r) <==> GuardsHold(p, ram))
      && (forall a: nat :: !(Area(p, i).0 <= a < Area(p, i).0 + Area(p, i).1) ==> Get(r, a) == Get(ram, a))
  {
    var at := Area(p, i).0;
    var r := Put(ram, at, bytes);
    forall j {:trigger Area(p, j)} | 0 <= j < 4 && j != i
      ensures ReadAt(r, Area(p, j).0, Area(p, j).1) == ReadAt(ram, Area(p, j).0, Area(p, j).1)
    {
      ReadElsewhere(ram, at, bytes, Area(p, j).0, Area(p, j).1);
    }
    ReadElsewhere(ram, at, bytes, p.writePointer, 4);
    forall k: nat | k < |p.guards| ensures GuardHolds(p.guards[k], r) <==> GuardHolds(p.guards[k], ram) {
      assert p.guards[k] in p.guards;
      ReadElsewhere(ram, at, bytes, p.guards[k].at, |p.guards[k].expected|);
    }
  }

  // ----- the drive -----

  datatype HookError = DeadTransport | Declined

  datatype Feature = Identity | Region | Speed | Unrestricted | Hrl | Encryption

  datatype ProbeReply = Runtime | Firmware | Foreign | Silent | ProbeDead

  /** Everything the drive may do, command by command: fault, land only part of a write, change its
      RAM while it serves a SET, a probe or a Volume ID read, and answer those anyhow. */
  datatype DriveEnv = DriveEnv(
    fault: nat -> Option<HookError>, landed: nat -> nat, served: (nat, Ram) -> Ram,
    setReply: nat -> Scsi.Reply, probeReply: nat -> ProbeReply,
    vidReply: nat -> Result<Option<seq<byte>>, UnlockError>, tuned: nat -> bool,
    stopBefore: bool, stopAfter: bool)

  /** The cells a served command leaves alone: the two pointer slots, the write path and the allocation. */
  predicate SameHook(p: Prepared, r: Ram, r': Ram) {
    && ReadAt(r, p.pointer, 4) == ReadAt(r', p.pointer, 4)
    && ReadAt(r, p.vidSlot, 4) == ReadAt(r', p.vidSlot, 4)
    && ReadAt(r, p.writePointer, 4) == ReadAt(r', p.writePointer, 4)
    && ReadAt(r, p.base, |p.payload|) == ReadAt(r', p.base, |p.payload|)
  }

  /** The contract of served commands. The emitted wrappers write no pointer slot and put back what
      they change of the payload; the security slot, the guards and all else may change. */
  ghost predicate Serves(env: DriveEnv, p: Prepared) {
    forall i, ram {:trigger env.served(i, ram)} :: SameHook(p, ram, env.served(i, ram))
  }

  predicate Quiet(env: DriveEnv, from: nat, to: nat) {
    forall i :: from <= i < to ==> env.fault(i).None?
  }

  ghost predicate AllRecoverable(p: Prepared, trace: seq<Ram>) {
    forall r <- trace :: Recoverable(p, r)
  }

  /** The RAM contents a write passes through when `k` of its bytes land. */
  function Torn(ram: Ram, at: nat, bytes: seq<byte>, k: nat): (s: seq<Ram>)
    requires k <= |bytes|
    ensures |s| == k + 1 && s[k] == Put(ram, at, bytes[..k])
  {
    seq(k + 1, i requires 0 <= i <= k => Put(ram, at, bytes[..i]))
  }

  // ----- histories of commands -----

  /** One command to the drive: a diagnostic transfer, or a command it serves itself. */
  datatype Command =
    | ReadRam(at: nat, n: nat) | WriteRam(at: nat, bytes: seq<byte>)
    | SetFeature(feature: Feature, state: byte) | Probe | ReadVid | Tune

  predicate IsServed(c: Command) { !c.ReadRam? && !c.WriteRam? }

  /** How many of n bytes land when the i-th command writes them: all unless it faults. */
  function Landing(env: DriveEnv, i: nat, n: nat): (k: nat)
    ensures k <= n && (env.fault(i).None? ==> k == n)
  {
    if env.fault(i).None? || env.landed(i) > n then n else env.landed(i)
  }

  /** The RAM after the i-th command. */
  function After(env: DriveEnv, i: nat, c: Command, ram: Ram): Ram {
    match c
    case ReadRam(_, _) => ram
    case WriteRam(at, bytes) => Put(ram, at, bytes[..Landing(env, i, |bytes|)])
    case _ => env.served(i, ram)
  }

  /** The RAM after a history of commands, from what the drive held before the first. */
  function RamAfter(env: DriveEnv, origin: Ram, log: seq<Command>): Ram {
    if log == [] then origin
    else var i := |log| - 1; After(env, i, log[i], RamAfter(env, origin, log[..i]))
  }

  predicate Written(log: seq<Command>) { exists c <- log :: c.WriteRam? }

  /** Every RAM content since the first host write of a history, those of torn writes included. */
  function TraceOf(env: DriveEnv, origin: Ram, log: seq<Command>): seq<Ram> {
    if log == [] then []
    else
      var i := |log| - 1;
      var before := RamAfter(env, origin, log[..i]);
      TraceOf(env, origin, log[..i]) +
      match log[i]
      case ReadRam(_, _) => []
      case WriteRam(at, bytes) => Torn(before, at, bytes, Landing(env, i, |bytes|))
      case _ => if Written(log[..i]) then [env.served(i, before)] else []
  }

  class Drive {
    const env: DriveEnv
    /** The RAM before the first command. */
    ghost const origin: Ram
    var ram: Ram
    /** Every command so far, in order. */
    var log: seq<Command>

    /** The RAM is what the commands made of it. */
    ghost predicate Valid()
      reads this
    {
      ram == RamAfter(env, origin, log)
    }

    ghost function Trace(): seq<Ram>
      reads this
    {
      TraceOf(env, origin, log)
    }

    constructor (env: DriveEnv, ram: Ram)
      ensures Valid() && this.env == env && this.ram == ram && log == []
    {
      this.env, this.origin, this.ram, log := env, ram, ram, [];
    }

    method Read(at: nat, n: nat) returns (r: Result<seq<byte>, HookError>)
      requires Valid()
      modifies this`log
      ensures Valid() && Trace() == old(Trace()) && Written(log) == old(Written(log))
      ensures log == old(log) + [ReadRam(at, n)]
      ensures r == match env.fault(|old(log)|) case None => Ok(ReadAt(ram, at, n)) case Some(e) => Err(e)
    {
      var f := env.fault(|log|);
      log := log + [ReadRam(at, n)];
      assert log[..|log| - 1] == old(log);
      match f
      case None => r := Ok(ReadAt(ram, at, n));
      case Some(e) => r := Err(e);
    }

    /** Any prefix may land; success means all of it did. */
    method Write(at: nat, bytes: seq<byte>) returns (r: Result<(), HookError>, ghost k: nat)
      requires Valid() && WritableRam(at, |bytes|)
      modifies this`ram, this`log
      ensures Valid() && log == old(log) + [WriteRam(at, bytes)]
      ensures r == match env.fault(|old(log)|) case None => Ok(()) case Some(e) => Err(e)
      ensures k <= |bytes| && (r.Ok? ==> k == |bytes|)
      ensures ram == Put(old(ram), at, bytes[..k]) && Trace() == old(Trace()) + Torn(old(ram), at, bytes, k)
    {
      var f := env.fault(|log|);
      var n := Landing(env, |log|, |bytes|);
      k := n;
      ram := Put(ram, at, bytes[..n]);
      log := log + [WriteRam(at, bytes)];
      assert log[..|log| - 1] == old(log);
      r := match f case None => Ok(()) case Some(e) => Err(e);
    }

    /** The drive serves a command of its own: it may change its RAM. */
    method Serve(c: Command)
      requires Valid() && IsServed(c)
      modifies this`ram, this`log
      ensures Valid() && log == old(log) + [c] && Written(log) == old(Written(log))
      ensures ram == env.served(|old(log)|, old(ram))
      ensures Trace() == if Written(old(log)) then old(Trace()) + [ram] else old(Trace())
    {
      ram := env.served(|log|, ram);
      log := log + [c];
      assert log[..|log| - 1] == old(log);
    }

    /** Write, read back, compare: the step every part of the transaction is made of. */
    method WriteVerified(ghost p: Prepared, ghost i: nat, at: nat, bytes: seq<byte>)
      returns (r: Result<(), HookError>)
      requires Valid() && Layout(p) && i < 4 && Area(p, i) == (at, |bytes|)
      modifies this`ram, this`log
      ensures Valid() && Follows(old(log), log, Verified(at, bytes), r.Ok?) && |log| > |old(log)|
      ensures log[|old(log)|] == WriteRam(at, bytes)
      ensures r.Ok? <==> Quiet(env, |old(log)|, |log|)
      ensures Frame(p, i, old(ram), ram)
      ensures r.Ok? ==> ReadAt(ram, at, |bytes|) == bytes
      ensures Safe(p, old(ram), i, bytes) && AllRecoverable(p, old(Trace())) ==>
                AllRecoverable(p, Trace()) && Recoverable(p, ram)
    {
      hide Frame; hide Safe; hide Recoverable; hide Layout; hide Valid; hide Trace; hide AllRecoverable; hide ReadAt;
      hide Torn; hide Put;
      ghost var before, past, c := ram, Trace(), |log|;
      RegionWritable(p, i);
      var outcome, k := Write(at, bytes);
      WriteFrames(p, before, i, bytes[..k]);
      StaysRecoverable(p, past, before, i, bytes, k);
      if outcome.Err? {
        assert env.fault(c).Some?;
        return outcome;
      }
      assert bytes[..k] == bytes;
      ReadBack(before, at, bytes);
      var back :- Read(at, |bytes|);
      assert log == old(log) + [WriteRam(at, bytes), ReadRam(at, |bytes|)];
      r := Need(back == bytes, Declined);
    }
  }

  /** The commands of one verified write. */
  function Verified(at: nat, bytes: seq<byte>): seq<Command> { [WriteRam(at, bytes), ReadRam(at, |bytes|)] }

  /** What was sent since `was` is the beginning of this plan, and all of it if `whole`. */
  predicate Follows(was: seq<Command>, log: seq<Command>, plan: seq<Command>, whole: bool) {
    was <= log && log[|was|..] <= plan && (whole ==> log == was + plan)
  }

  /** A plan is followed part by part. */
  lemma FollowsOn(was: seq<Command>, mid: seq<Command>, first: seq<Command>, rest: seq<Command>, plan: seq<Command>)
    requires Follows(was, mid, first, true) && plan == first + rest
    ensures forall log, whole {:trigger Follows(was, log, plan, whole)} ::
              Follows(mid, log, rest, whole) ==> Follows(was, log, plan, whole)
  {
    forall log, whole | Follows(mid, log, rest, whole) ensures Follows(was, log, plan, whole) {
      assert log[|was|..] == first + log[|mid|..];
      if whole { assert was + plan == mid + rest; }
    }
  }

  lemma FollowsPart(was: seq<Command>, log: seq<Command>, first: seq<Command>, rest: seq<Command>, plan: seq<Command>,
                    whole: bool)
    requires Follows(was, log, first, whole) && plan == first + rest
    ensures Follows(was, log, plan, false)
  {
  }

  /** Every cell outside the four regions is as it was. */
  ghost predicate Elsewhere(p: Prepared, before: Ram, after: Ram) {
    forall a: nat {:trigger Get(after, a)} ::
      (forall j: nat {:trigger Area(p, j)} :: j < 4 ==> !(Area(p, j).0 <= a < Area(p, j).0 + Area(p, j).1)) ==>
      Get(after, a) == Get(before, a)
  }

  /** What a write into region `i` leaves alone: the other regions, the write path, the guards and
      every cell beyond. */
  ghost predicate Frame(p: Prepared, i: nat, before: Ram, after: Ram) {
    && (i != 0 ==> ReadAt(after, p.pointer, 4) == ReadAt(before, p.pointer, 4))
    && (i != 1 ==> ReadAt(after, p.vidSlot, 4) == ReadAt(before, p.vidSlot, 4))
    && (i != 2 ==> ReadAt(after, p.securitySlot, 4) == ReadAt(before, p.securitySlot, 4))
    && (i != 3 ==> ReadAt(after, p.base, |p.payload|) == ReadAt(before, p.base, |p.payload|))
    && ReadAt(after, p.writePointer, 4) == ReadAt(before, p.writePointer, 4)
    && GuardsHold(p, after) == GuardsHold(p, before)
    && Elsewhere(p, before, after)
  }

  lemma WriteFrames(p: Prepared, ram: Ram, i: nat, bytes: seq<byte>)
    requires Layout(p) && i < 4 && |bytes| <= Area(p, i).1
    ensures Frame(p, i, ram, Put(ram, Area(p, i).0, bytes))
  {
    WriteRegion(p, ram, i, bytes);
    assert Area(p, 0) == (p.pointer, 4) && Area(p, 1) == (p.vidSlot, 4);
    assert Area(p, 2) == (p.securitySlot, 4) && Area(p, 3) == (p.base, |p.payload|);
  }

  /** When a write into region `i`, torn anywhere, keeps the RAM recoverable: the order of `stage`
      and `cleanup` in one predicate. */
  predicate Safe(p: Prepared, ram: Ram, i: nat, bytes: seq<byte>)
    requires i < 4
  {
    && Recoverable(p, ram)
    && match i
       case 0 => VidIs(p, ram, p.vidInstalledPointer) || bytes == p.originalTable
       case 1 => PointerIs(p, ram, p.originalTable) && (AllocationIs(p, ram, p.payload) || bytes == p.vidTable)
       case 2 => AllocationIs(p, ram, p.payload) || bytes == p.securityTable
       case _ => PointerIs(p, ram, p.originalTable) && VidIs(p, ram, p.vidTable)
                 && SecurityIs(p, ram, p.securityTable) && GuardsHold(p, ram)
  }

  lemma RegionWritable(p: Prepared, i: nat)
    requires Layout(p) && i < 4
    ensures WritableRam(Area(p, i).0, Area(p, i).1)
  {
  }

  lemma Shapes(p: Prepared)
    requires Layout(p)
    ensures |p.originalTable| == |p.installedPointer| == |p.vidTable| == |p.vidInstalledPointer| == 4
    ensures |p.writeTable| == |p.securityTable| == |p.policyTable| == 4 && |p.original| == |p.payload| > 0
  {
  }

  /** A safe write, torn or whole, keeps every state recoverable. */
  lemma StaysRecoverable(p: Prepared, past: seq<Ram>, ram: Ram, i: nat, bytes: seq<byte>, k: nat)
    requires Layout(p) && i < 4 && |bytes| == Area(p, i).1 && k <= |bytes|
    ensures Safe(p, ram, i, bytes) && AllRecoverable(p, past) ==>
              && AllRecoverable(p, past + Torn(ram, Area(p, i).0, bytes, k))
              && Recoverable(p, Put(ram, Area(p, i).0, bytes[..k]))
  {
    hide Safe; hide Recoverable; hide Layout; hide AllRecoverable;
    if Safe(p, ram, i, bytes) && AllRecoverable(p, past) {
      TornRecoverable(p, ram, i, bytes, k);
      Joined(p, past, Torn(ram, Area(p, i).0, bytes, k));
    }
  }

  lemma Joined(p: Prepared, past: seq<Ram>, more: seq<Ram>)
    requires AllRecoverable(p, past) && AllRecoverable(p, more) && |more| > 0
    ensures AllRecoverable(p, past + more) && Recoverable(p, more[|more| - 1])
  {
  }

  lemma TornRecoverable(p: Prepared, ram: Ram, i: nat, bytes: seq<byte>, k: nat)
    requires Layout(p) && i < 4 && |bytes| == Area(p, i).1 && k <= |bytes| && Safe(p, ram, i, bytes)
    ensures AllRecoverable(p, Torn(ram, Area(p, i).0, bytes, k))
  {
    forall n: nat | n <= k ensures Recoverable(p, Put(ram, Area(p, i).0, bytes[..n])) {
      WriteRegion(p, ram, i, bytes[..n]);
      assert Area(p, 0) == (p.pointer, 4) && Area(p, 1) == (p.vidSlot, 4);
      assert Area(p, 2) == (p.securitySlot, 4) && Area(p, 3) == (p.base, |p.payload|);
      if ReadAt(ram, Area(p, i).0, |bytes|) == bytes { WriteSame(ram, Area(p, i).0, bytes, n); }
    }
  }
}
