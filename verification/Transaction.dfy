/** The transaction itself: `hook::{check_prepared, stage, cleanup, restore_policy, verify_resident}`,
    the backend around them and the driver that activates through it. Every method follows a plan, the
    commands it sends when nothing fails, and stops somewhere along it when something does. */
module Transaction {
  import opened Wrappers
  import opened Bytes
  import opened Ram
  import opened Unlock
  import Scsi
  import opened Renesas

  lemma ElsewhereSteps(p: Prepared, r0: Ram, r1: Ram, r2: Ram)
    requires Elsewhere(p, r0, r1) && Elsewhere(p, r1, r2)
    ensures Elsewhere(p, r0, r2)
  {
  }

  // ----- plans -----

  function GuardPlan(p: Prepared): (s: seq<Command>)
    ensures |s| == |p.guards|
  {
    seq(|p.guards|, i requires 0 <= i < |p.guards| => ReadRam(p.guards[i].at, |p.guards[i].expected|))
  }

  function CheckPlan(p: Prepared): seq<Command> { GuardPlan(p) + SlotPlan(p) }

  function SlotPlan(p: Prepared): seq<Command> {
    [ReadRam(p.securitySlot, 4), ReadRam(p.pointer, 4), ReadRam(p.writePointer, 4), ReadRam(p.vidSlot, 4),
     ReadRam(p.base, |p.payload|)]
  }

  function StagePlan(p: Prepared): seq<Command> {
    Verified(p.base, p.payload) + Verified(p.vidSlot, p.vidInstalledPointer) + Verified(p.pointer, p.installedPointer)
  }

  function InstallPlan(p: Prepared, existing: bool): seq<Command> {
    CheckPlan(p) + if existing then [] else StagePlan(p)
  }

  const SETS: seq<Command> :=
    [SetFeature(Region, REGION_FREE), SetFeature(Unrestricted, STATE_ON), SetFeature(Encryption, STATE_OFF)]

  function StatePlan(p: Prepared): seq<Command> {
    [ReadRam(p.loaded, 1), ReadRam(p.checked, 1), ReadRam(p.result, 1)]
  }

  function ResidentPlan(p: Prepared): seq<Command> {
    [ReadRam(p.securitySlot, 4)] + GuardPlan(p) +
    [ReadRam(p.pointer, 4), ReadRam(p.vidSlot, 4), ReadRam(p.writePointer, 4), ReadRam(p.base, |p.payload|)]
  }

  /** Install, confirm that a fresh runtime answers, activate, verify, ask for the Volume ID. */
  function RunPlan(p: Prepared, existing: bool): seq<Command> {
    InstallPlan(p, existing) + (if existing then [] else [Probe]) + ActivatePlan(p)
  }

  function ActivatePlan(p: Prepared): seq<Command> { SETS + (StatePlan(p) + ResidentPlan(p)) + [ReadVid] }

  /** The whole critical span: the run, and the residence verified once more. */
  function SpanPlan(p: Prepared, existing: bool): seq<Command> { RunPlan(p, existing) + ResidentPlan(p) }

  function DetachPlan(p: Prepared): seq<Command> {
    Verified(p.pointer, p.originalTable) + Verified(p.vidSlot, p.vidTable)
  }

  function PolicyPlan(p: Prepared, policy: bool): seq<Command> {
    [ReadRam(p.securitySlot, 4)] + if policy then Verified(p.securitySlot, p.securityTable) else []
  }

  /** Pointers first, then the write path and the guards, then the policy, and last the allocation. */
  function UnwindPlan(p: Prepared, policy: bool): seq<Command> {
    DetachPlan(p) + ([ReadRam(p.writePointer, 4)] + GuardPlan(p)) + PolicyPlan(p, policy) + Verified(p.base, p.original)
  }

  // ----- hook -----

  method Guards(d: Drive, p: Prepared) returns (r: Result<(), HookError>)
    requires d.Valid()
    modifies d`log
    ensures d.Valid() && d.Trace() == old(d.Trace()) && Written(d.log) == old(Written(d.log))
    ensures Follows(old(d.log), d.log, GuardPlan(p), r.Ok?)
    ensures r.Ok? <==> Quiet(d.env, |old(d.log)|, |d.log|) && GuardsHold(p, d.ram)
    ensures r == Err(DeadTransport) <==> LastDead(d.env, |old(d.log)|, |d.log|)
  {
    hide d.Valid; hide d.Trace; hide Written; hide ReadAt;
    var _ :- Need(|p.guards| > 0, Declined);
    ghost var was := d.log;
    var i := 0;
    while i < |p.guards|
      invariant i <= |p.guards| && d.log == was + GuardPlan(p)[..i]
      invariant d.Valid() && d.Trace() == old(d.Trace()) && Written(d.log) == old(Written(d.log))
      invariant Quiet(d.env, |was|, |d.log|)
      invariant forall k: nat :: k < i ==> GuardHolds(p.guards[k], d.ram)
    {
      var g := p.guards[i];
      var _ :- Need(0 < |g.expected| <= 4096, Declined);
      var bytes :- d.Read(g.at, |g.expected|);
      var _ :- Need(bytes == g.expected, Declined);
      i := i + 1;
    }
    r := Ok(());
  }

  predicate LastDead(env: DriveEnv, from: nat, to: nat) {
    from < to && env.fault(to - 1) == Some(DeadTransport)
  }

  /** Every ownership check again, immediately before the first write. */
  method CheckPrepared(d: Drive, p: Prepared, existing: bool) returns (r: Result<(), HookError>)
    requires d.Valid()
    modifies d`log
    ensures d.Valid() && d.Trace() == old(d.Trace()) && Written(d.log) == old(Written(d.log))
    ensures Follows(old(d.log), d.log, CheckPlan(p), r.Ok?)
    ensures r.Ok? <==> Quiet(d.env, |old(d.log)|, |d.log|) && Owned(p, d.ram, existing)
    ensures r == Err(DeadTransport) <==> LastDead(d.env, |old(d.log)|, |d.log|)
  {
    hide GuardsHold; hide ReadAt; hide d.Valid; hide d.Trace; hide Written; hide GuardPlan; hide SlotPlan; hide Follows;
    ghost var was := d.log;
    r := Guards(d, p);
    FollowsPart(was, d.log, GuardPlan(p), SlotPlan(p), CheckPlan(p), r.Ok?);
    if r.Err? { return; }
    FollowsLength(was, d.log, GuardPlan(p), true);
    FollowsOn(was, d.log, GuardPlan(p), SlotPlan(p), CheckPlan(p));
    ghost var mid := d.log;
    r := CheckSlots(d, p, existing);
    FollowsLength(mid, d.log, SlotPlan(p), r.Ok?);
  }

  /** The part of the checks that follows the guards. */
  method CheckSlots(d: Drive, p: Prepared, existing: bool) returns (r: Result<(), HookError>)
    requires d.Valid() && GuardsHold(p, d.ram)
    modifies d`log
    ensures d.Valid() && d.Trace() == old(d.Trace()) && Written(d.log) == old(Written(d.log))
    ensures Follows(old(d.log), d.log, SlotPlan(p), r.Ok?) && |d.log| > |old(d.log)|
    ensures r.Ok? <==> Quiet(d.env, |old(d.log)|, |d.log|) && Owned(p, d.ram, existing)
    ensures r == Err(DeadTransport) <==> LastDead(d.env, |old(d.log)|, |d.log|)
  {
    hide GuardsHold; hide ReadAt; hide d.Valid; hide d.Trace; hide Written;
    var security :- d.Read(p.securitySlot, 4);
    var _ :- Need(security == p.securityTable || (existing && security == p.policyTable), Declined);
    var _ :- Holds(d, p.pointer, 4, if existing then p.installedPointer else p.originalTable);
    var _ :- Holds(d, p.writePointer, 4, p.writeTable);
    var _ :- Holds(d, p.vidSlot, 4, if existing then p.vidInstalledPointer else p.vidTable);
    r := Holds(d, p.base, |p.payload|, p.original);
  }

  /** So many bytes read as expected. */
  method Holds(d: Drive, at: nat, n: nat, value: seq<byte>) returns (r: Result<(), HookError>)
    requires d.Valid()
    modifies d`log
    ensures d.Valid() && d.Trace() == old(d.Trace()) && Written(d.log) == old(Written(d.log))
    ensures d.log == old(d.log) + [ReadRam(at, n)]
    ensures r.Ok? <==> d.env.fault(|old(d.log)|).None? && ReadAt(d.ram, at, n) == value
    ensures r == Err(DeadTransport) <==> d.env.fault(|old(d.log)|) == Some(DeadTransport)
  {
    hide d.Valid; hide d.Trace;
    var bytes :- d.Read(at, n);
    r := Need(bytes == value, Declined);
  }

  /** Payload first, then the VID slot, then the READ BUFFER slot, each read back before the next. */
  method Stage(d: Drive, p: Prepared) returns (r: Result<(), HookError>)
    requires d.Valid() && Layout(p) && Owned(p, d.ram, false) && AllRecoverable(p, d.Trace())
    modifies d`ram, d`log
    ensures d.Valid() && Follows(old(d.log), d.log, StagePlan(p), r.Ok?)
    ensures r.Ok? <==> Quiet(d.env, |old(d.log)|, |d.log|)
    ensures AllRecoverable(p, d.Trace()) && Recoverable(p, d.ram)
    ensures SecurityIs(p, d.ram, p.securityTable) && GuardsHold(p, d.ram) && WritePathIs(p, d.ram)
    ensures Elsewhere(p, old(d.ram), d.ram)
    ensures r.Ok? ==>
              && PointerIs(p, d.ram, p.installedPointer) && VidIs(p, d.ram, p.vidInstalledPointer)
              && AllocationIs(p, d.ram, p.payload)
  {
    hide Elsewhere; hide Layout; hide GuardsHold; hide AllRecoverable; hide ReadAt; hide d.Valid; hide d.Trace;
    hide Verified;
    Shapes(p);
    ghost var r0, was, plan := d.ram, d.log, StagePlan(p);
    ghost var tail := Verified(p.vidSlot, p.vidInstalledPointer) + Verified(p.pointer, p.installedPointer);
    assert plan == Verified(p.base, p.payload) + tail;
    r := d.WriteVerified(p, 3, p.base, p.payload);
    FollowsPart(was, d.log, Verified(p.base, p.payload), tail, plan, r.Ok?);
    if r.Err? { return; }
    FollowsOn(was, d.log, Verified(p.base, p.payload), tail, plan);
    ghost var r1, mid := d.ram, d.log;
    r := d.WriteVerified(p, 1, p.vidSlot, p.vidInstalledPointer);
    FollowsPart(mid, d.log, Verified(p.vidSlot, p.vidInstalledPointer), Verified(p.pointer, p.installedPointer), tail,
      r.Ok?);
    ElsewhereSteps(p, r0, r1, d.ram);
    if r.Err? { return; }
    FollowsOn(mid, d.log, Verified(p.vidSlot, p.vidInstalledPointer), Verified(p.pointer, p.installedPointer), tail);
    ghost var r2 := d.ram;
    r := d.WriteVerified(p, 0, p.pointer, p.installedPointer);
    ElsewhereSteps(p, r0, r2, d.ram);
    assert Follows(mid, d.log, tail, r.Ok?);
  }

  lemma FrameSame(p: Prepared, i: nat, r: Ram)
    ensures Frame(p, i, r, r)
  {
  }

  method RestorePolicy(d: Drive, p: Prepared) returns (r: Result<(), HookError>)
    requires d.Valid() && Layout(p) && Recoverable(p, d.ram) && AllRecoverable(p, d.Trace())
    modifies d`ram, d`log
    ensures d.Valid() && Follows(old(d.log), d.log, PolicyPlan(p, SecurityIs(p, old(d.ram), p.policyTable)), r.Ok?)
    ensures AllRecoverable(p, d.Trace()) && Recoverable(p, d.ram)
    ensures Frame(p, 2, old(d.ram), d.ram)
    ensures r.Ok? <==> && Quiet(d.env, |old(d.log)|, |d.log|)
                       && (SecurityIs(p, old(d.ram), p.securityTable) || SecurityIs(p, old(d.ram), p.policyTable))
    ensures r.Ok? ==> SecurityIs(p, d.ram, p.securityTable)
  {
    hide GuardsHold; hide AllRecoverable; hide ReadAt; hide d.Valid; hide d.Trace; hide Layout; hide Frame;
    hide Recoverable;
    FrameSame(p, 2, d.ram);
    Shapes(p);
    var current :- d.Read(p.securitySlot, 4);
    var _ :- Need(current == p.securityTable || current == p.policyTable, Declined);
    if current == p.policyTable {
      r := d.WriteVerified(p, 2, p.securitySlot, p.securityTable);
      return;
    }
    r := Ok(());
  }

  /** Both pointer slots back to their OEM values, the READ BUFFER slot first. */
  method Detach(d: Drive, p: Prepared) returns (r: Result<(), HookError>)
    requires d.Valid() && Layout(p) && Recoverable(p, d.ram) && AllRecoverable(p, d.Trace())
    modifies d`ram, d`log
    ensures d.Valid() && Follows(old(d.log), d.log, DetachPlan(p), r.Ok?) && |d.log| > |old(d.log)|
    ensures AllRecoverable(p, d.Trace()) && Recoverable(p, d.ram)
    ensures r.Ok? <==> Quiet(d.env, |old(d.log)|, |d.log|)
    ensures r.Ok? ==> PointerIs(p, d.ram, p.originalTable) && VidIs(p, d.ram, p.vidTable)
    ensures ReadAt(d.ram, p.securitySlot, 4) == old(ReadAt(d.ram, p.securitySlot, 4))
    ensures ReadAt(d.ram, p.writePointer, 4) == old(ReadAt(d.ram, p.writePointer, 4))
    ensures GuardsHold(p, d.ram) == old(GuardsHold(p, d.ram)) && Elsewhere(p, old(d.ram), d.ram)
  {
    hide Elsewhere; hide Layout; hide GuardsHold; hide AllRecoverable; hide ReadAt; hide d.Valid; hide d.Trace;
    hide Verified;
    Shapes(p);
    ghost var r0, was := d.ram, d.log;
    ghost var first, rest := Verified(p.pointer, p.originalTable), Verified(p.vidSlot, p.vidTable);
    r := d.WriteVerified(p, 0, p.pointer, p.originalTable);
    FollowsPart(was, d.log, first, rest, DetachPlan(p), r.Ok?);
    if r.Err? { return; }
    FollowsOn(was, d.log, first, rest, DetachPlan(p));
    ghost var r1 := d.ram;
    r := d.WriteVerified(p, 1, p.vidSlot, p.vidTable);
    ElsewhereSteps(p, r0, r1, d.ram);
  }

  /** The restoration path read back, and the guards. */
  method CheckPath(d: Drive, p: Prepared) returns (r: Result<(), HookError>)
    requires d.Valid()
    modifies d`log
    ensures d.Valid() && d.Trace() == old(d.Trace()) && Written(d.log) == old(Written(d.log))
    ensures Follows(old(d.log), d.log, [ReadRam(p.writePointer, 4)] + GuardPlan(p), r.Ok?)
    ensures r.Ok? <==> Quiet(d.env, |old(d.log)|, |d.log|) && WritePathIs(p, d.ram) && GuardsHold(p, d.ram)
  {
    hide GuardsHold; hide ReadAt; hide d.Valid; hide d.Trace; hide Written; hide GuardPlan;
    ghost var was, plan := d.log, [ReadRam(p.writePointer, 4)] + GuardPlan(p);
    var path :- d.Read(p.writePointer, 4);
    var _ :- Need(path == p.writeTable, Declined);
    FollowsOn(was, d.log, [ReadRam(p.writePointer, 4)], GuardPlan(p), plan);
    r := Guards(d, p);
  }

  /** Detach first, then the policy, and last the allocation. It succeeds exactly when no command of
      its own faults and the guards, the write path and the security slot are owned; then the four
      regions hold what they held before installation and nothing else moved. */
  method Cleanup(d: Drive, p: Prepared) returns (r: Result<(), HookError>)
    requires d.Valid() && Layout(p) && Recoverable(p, d.ram) && AllRecoverable(p, d.Trace())
    modifies d`ram, d`log
    ensures d.Valid() && |d.log| > |old(d.log)|
    ensures Follows(old(d.log), d.log, UnwindPlan(p, SecurityIs(p, old(d.ram), p.policyTable)), r.Ok?)
    ensures AllRecoverable(p, d.Trace()) && Recoverable(p, d.ram)
    ensures r.Ok? <==> Quiet(d.env, |old(d.log)|, |d.log|) && Restorable(p, old(d.ram))
    ensures r.Ok? ==> Restored(p, d.ram) && GuardsHold(p, d.ram) && WritePathIs(p, d.ram)
    ensures Elsewhere(p, old(d.ram), d.ram)
  {
    hide Elsewhere; hide Layout; hide GuardsHold; hide AllRecoverable; hide ReadAt; hide d.Valid; hide d.Trace;
    hide DetachPlan; hide PolicyPlan; hide Verified; hide Written; hide GuardPlan; hide Follows;
    Shapes(p);
    ghost var r0, was, policy := d.ram, d.log, SecurityIs(p, d.ram, p.policyTable);
    ghost var path, last := [ReadRam(p.writePointer, 4)] + GuardPlan(p), Verified(p.base, p.original);
    ghost var tail2 := PolicyPlan(p, policy) + last;
    ghost var tail1 := path + tail2;
    assert UnwindPlan(p, policy) == DetachPlan(p) + tail1;
    r := Detach(d, p);
    FollowsPart(was, d.log, DetachPlan(p), tail1, UnwindPlan(p, policy), r.Ok?);
    if r.Err? { return; }
    FollowsOn(was, d.log, DetachPlan(p), tail1, UnwindPlan(p, policy));
    ghost var mid1 := d.log;
    r := CheckPath(d, p);
    FollowsPart(mid1, d.log, path, tail2, tail1, r.Ok?);
    if r.Err? { return; }
    FollowsOn(mid1, d.log, path, tail2, tail1);
    ghost var r2, mid2 := d.ram, d.log;
    r := RestorePolicy(d, p);
    FollowsPart(mid2, d.log, PolicyPlan(p, policy), last, tail2, r.Ok?);
    ElsewhereSteps(p, r0, r2, d.ram);
    if r.Err? { return; }
    FollowsOn(mid2, d.log, PolicyPlan(p, policy), last, tail2);
    ghost var r3 := d.ram;
    r := d.WriteVerified(p, 3, p.base, p.original);
    ElsewhereSteps(p, r0, r3, d.ram);
  }

  /** The four regions as they were before installation. */
  predicate Restored(p: Prepared, ram: Ram) {
    && PointerIs(p, ram, p.originalTable) && VidIs(p, ram, p.vidTable)
    && SecurityIs(p, ram, p.securityTable) && AllocationIs(p, ram, p.original)
  }

  method VerifyResident(d: Drive, p: Prepared) returns (r: Result<(), HookError>)
    requires d.Valid()
    modifies d`log
    ensures d.Valid() && d.Trace() == old(d.Trace()) && Written(d.log) == old(Written(d.log))
    ensures Follows(old(d.log), d.log, ResidentPlan(p), r.Ok?)
    ensures r.Ok? <==> Quiet(d.env, |old(d.log)|, |d.log|) && Resident(p, d.ram)
  {
    hide GuardsHold; hide ReadAt; hide d.Valid; hide d.Trace; hide Written; hide GuardPlan;
    ghost var was, head := d.log, [ReadRam(p.securitySlot, 4)];
    ghost var rest := [ReadRam(p.pointer, 4), ReadRam(p.vidSlot, 4), ReadRam(p.writePointer, 4),
      ReadRam(p.base, |p.payload|)];
    assert ResidentPlan(p) == head + (GuardPlan(p) + rest);
    var security :- d.Read(p.securitySlot, 4);
    var _ :- Need(security == p.policyTable, Declined);
    FollowsOn(was, d.log, head, GuardPlan(p) + rest, ResidentPlan(p));
    ghost var mid := d.log;
    r := Guards(d, p);
    FollowsPart(mid, d.log, GuardPlan(p), rest, GuardPlan(p) + rest, r.Ok?);
    if r.Err? { return; }
    FollowsOn(mid, d.log, GuardPlan(p), rest, GuardPlan(p) + rest);
    r := VerifyHook(d, p);
    assert Follows(mid, d.log, GuardPlan(p) + rest, r.Ok?);
  }

  /** The part of the residence check that follows the guards. */
  method VerifyHook(d: Drive, p: Prepared) returns (r: Result<(), HookError>)
    requires d.Valid()
    modifies d`log
    ensures d.Valid() && d.Trace() == old(d.Trace()) && Written(d.log) == old(Written(d.log))
    ensures Follows(old(d.log), d.log, [ReadRam(p.pointer, 4), ReadRam(p.vidSlot, 4), ReadRam(p.writePointer, 4),
                                        ReadRam(p.base, |p.payload|)], r.Ok?)
    ensures r.Ok? <==> && Quiet(d.env, |old(d.log)|, |d.log|)
                       && PointerIs(p, d.ram, p.installedPointer) && VidIs(p, d.ram, p.vidInstalledPointer)
                       && WritePathIs(p, d.ram) && AllocationIs(p, d.ram, p.payload)
  {
    hide ReadAt; hide d.Valid; hide d.Trace; hide Written;
    var _ :- Holds(d, p.pointer, 4, p.installedPointer);
    var _ :- Holds(d, p.vidSlot, 4, p.vidInstalledPointer);
    var _ :- Holds(d, p.writePointer, 4, p.writeTable);
    r := Holds(d, p.base, |p.payload|, p.payload);
  }

  method VerifyState(d: Drive, p: Prepared) returns (r: Result<(), HookError>)
    requires d.Valid()
    modifies d`log
    ensures d.Valid() && d.Trace() == old(d.Trace()) && Written(d.log) == old(Written(d.log))
    ensures Follows(old(d.log), d.log, StatePlan(p), r.Ok?)
    ensures r.Ok? <==> Quiet(d.env, |old(d.log)|, |d.log|) && Activated(p, d.ram)
  {
    hide ReadAt; hide d.Valid; hide d.Trace; hide Written;
    var loaded :- d.Read(p.loaded, 1);
    var _ :- Need(loaded == [0], Declined);
    var checked :- d.Read(p.checked, 1);
    var _ :- Need(checked == [1], Declined);
    var result :- d.Read(p.result, 1);
    var _ :- Need(result == [0], Declined);
    r := Ok(());
  }

  // ----- activation -----

  /** Both slots hooked and the payload in place. */
  predicate Hooked(p: Prepared, ram: Ram) {
    PointerIs(p, ram, p.installedPointer) && VidIs(p, ram, p.vidInstalledPointer) && AllocationIs(p, ram, p.payload)
  }

  const REGION_FREE: byte := 1
  const SPEED_MAX: byte := 1
  const STATE_OFF: byte := 0
  const STATE_ON: byte := 1
  const STATE_PASSTHROUGH: byte := 0xff

  /** `Capabilities::supports_set` of the Pioneer runtime. */
  predicate SupportsSet(feature: Feature, state: byte) {
    feature != Speed && (feature == Encryption ==> state in {STATE_OFF, STATE_ON, STATE_PASSTHROUGH})
  }

  /** The drive took a SET: GOOD, with a whole reply of zeros. */
  predicate Confirms(reply: Scsi.Reply) {
    reply.Answered? && reply.status == 0 && reply.transferred == 64 && Scsi.Buffer(reply.data, 64) == Zeros(64)
  }

  /** It refused one, on a bus that is alive. */
  predicate Declines(reply: Scsi.Reply) {
    if reply.Answered? then reply.status != 0 else !(reply.failStatus == 0xFF && reply.failSense.None?)
  }

  method Serve(d: Drive, ghost p: Prepared, c: Command)
    requires d.Valid() && IsServed(c)
    requires Serves(d.env, p) && Hooked(p, d.ram) && AllRecoverable(p, d.Trace())
    modifies d`ram, d`log
    ensures d.Valid() && d.log == old(d.log) + [c] && Written(d.log) == old(Written(d.log))
    ensures Hooked(p, d.ram) && AllRecoverable(p, d.Trace())
    ensures d.ram == d.env.served(|old(d.log)|, old(d.ram))
  {
    hide d.Valid; hide d.Trace; hide Written;
    d.Serve(c);
    assert SameHook(p, old(d.ram), d.ram);
  }

  method SetChecked(d: Drive, ghost p: Prepared, feature: Feature, state: byte) returns (r: Result<(), UnlockError>)
    requires d.Valid() && Serves(d.env, p) && Hooked(p, d.ram) && AllRecoverable(p, d.Trace())
    modifies d`ram, d`log
    ensures d.Valid() && d.log == old(d.log) + [SetFeature(feature, state)] && Written(d.log) == old(Written(d.log))
    ensures Hooked(p, d.ram) && AllRecoverable(p, d.Trace())
    ensures r.Ok? <==> Confirms(d.env.setReply(|old(d.log)|))
    ensures r == Err(NotApplicable) <==> Declines(d.env.setReply(|old(d.log)|))
    ensures r.Err? ==> r.error in {UnlockError.Transport, NotApplicable}
  {
    hide d.Valid; hide d.Trace; hide Written; hide Hooked; hide Serves;
    var reply := d.env.setReply(|d.log|);
    Serve(d, p, SetFeature(feature, state));
    match reply
    case Answered(status, transferred, _, data) =>
      r := if status != 0 then Err(NotApplicable) else ValidateSetReply(transferred, Scsi.Buffer(data, 64));
    case Failed(_, _) => r := Err(if Scsi.IsDeadBus(reply) then UnlockError.Transport else NotApplicable);
  }

  function ValidateSetReply(transferred: nat, data: seq<byte>): Result<(), UnlockError> {
    if transferred == 64 && data == Zeros(64) then Ok(()) else Err(UnlockError.Transport)
  }

  /** Region and the restriction switch are optional, speed is not offered, encryption off is not
      optional: only a dead transport stops the first two. */
  method Activate(d: Drive, ghost p: Prepared) returns (r: Result<(), UnlockError>)
    requires d.Valid() && Serves(d.env, p) && Hooked(p, d.ram) && AllRecoverable(p, d.Trace())
    modifies d`ram, d`log
    ensures d.Valid() && Follows(old(d.log), d.log, SETS, r.Ok?) && Written(d.log) == old(Written(d.log))
    ensures Hooked(p, d.ram) && AllRecoverable(p, d.Trace())
    ensures r.Err? ==> r.error in {UnlockError.Transport, VidUnavailable}
    ensures r.Ok? <==> Accepted(d.env, |old(d.log)|)
  {
    hide d.Valid; hide d.Trace; hide Written; hide Hooked; hide Serves;
    var optional := [(Region, REGION_FREE), (Speed, SPEED_MAX), (Unrestricted, STATE_ON)];
    var i := 0;
    while i < 3
      invariant i <= 3 && d.Valid() && Hooked(p, d.ram) && AllRecoverable(p, d.Trace())
      invariant d.log == old(d.log) + SETS[..Sent(i)] && Written(d.log) == old(Written(d.log))
      invariant i > 0 ==> Survived(d.env.setReply(|old(d.log)|))
      invariant i == 3 ==> Survived(d.env.setReply(|old(d.log)| + 1))
    {
      var (feature, state) := optional[i];
      if SupportsSet(feature, state) {
        var outcome := SetChecked(d, p, feature, state);
        if outcome == Err(UnlockError.Transport) { return Err(UnlockError.Transport); }
      }
      i := i + 1;
    }
    if !SupportsSet(Encryption, STATE_OFF) { return Err(NotApplicable); }
    r := SetChecked(d, p, Encryption, STATE_OFF);
    if r.Err? && r.error != UnlockError.Transport { r := Err(VidUnavailable); }
  }

  function Sent(i: nat): nat { if i <= 1 then i else if i == 2 then 1 else 2 }

  /** An optional SET may be refused. */
  predicate Survived(reply: Scsi.Reply) { Confirms(reply) || Declines(reply) }

  /** How the drive answers the three SETs from the i-th command on. */
  predicate Accepted(env: DriveEnv, i: nat) {
    Survived(env.setReply(i)) && Survived(env.setReply(i + 1)) && Confirms(env.setReply(i + 2))
  }

  function Probed(reply: ProbeReply): Result<Option<bool>, UnlockError> {
    match reply
    case Runtime => Ok(Some(true))
    case Firmware => Ok(Some(false))
    case Foreign => Err(NotApplicable)
    case Silent => Ok(None)
    case ProbeDead => Err(UnlockError.Transport)
  }

  // ----- backend -----

  class Backend {
    var prepared: Option<Prepared>
    var existing: bool
    var touched: bool

    /** What `prepare` leaves behind; a resident payload was compared with ours byte by byte. */
    ghost predicate Ready(env: DriveEnv)
      reads this
    {
      prepared.Some? ==>
        && Layout(prepared.value) && Serves(env, prepared.value)
        && (existing ==> prepared.value.original == prepared.value.payload)
    }

    constructor (prepared: Option<Prepared>, existing: bool)
      ensures this.prepared == prepared && this.existing == existing && !touched
    {
      this.prepared, this.existing, touched := prepared, existing, false;
    }

    /** The ownership checks, and for a fresh runtime the staging. */
    method Install(d: Drive) returns (r: Result<(), UnlockError>)
      requires Ready(d.env) && !touched && d.Valid() && d.log == []
      modifies this`touched, d`ram, d`log
      ensures d.Valid()
      ensures touched <==> && prepared.Some? && Owned(prepared.value, old(d.ram), existing)
                           && Quiet(d.env, 0, |CheckPlan(prepared.value)|)
      ensures r.Ok? <==> touched && Quiet(d.env, 0, |d.log|)
      ensures prepared.Some? ==> Follows([], d.log, InstallPlan(prepared.value, existing), r.Ok?)
      ensures prepared.None? ==> d.log == []
      ensures !touched ==> Unwritten(d.log)
      ensures existing || !touched ==> !Written(d.log) && d.Trace() == [] && d.ram == old(d.ram)
      ensures touched ==> Recoverable(prepared.value, d.ram) && AllRecoverable(prepared.value, d.Trace())
      ensures r.Ok? ==> Hooked(prepared.value, d.ram)
      ensures r.Err? ==> r.error == if touched || (prepared.Some? && (existing || LastDead(d.env, 0, |d.log|)))
                                    then UnlockError.Transport else NotApplicable
    {
      hide d.Valid; hide Owned; hide AllRecoverable; hide Layout; hide CheckPlan; hide StagePlan; hide Written;
      hide Recoverable; hide Follows;
      NothingYet(d.env, d.origin);
      if prepared.None? { return Err(NotApplicable); }
      var p := prepared.value;
      var check := CheckPrepared(d, p, existing);
      ghost var log := d.log;
      ghost var rest := if existing then [] else StagePlan(p);
      FollowsPart([], d.log, CheckPlan(p), rest, InstallPlan(p, existing), check.Ok?);
      FollowsLength([], d.log, CheckPlan(p), check.Ok?);
      ChecksOnlyRead(p, d.log, check.Ok?);
      if check.Err? {
        return Err(if existing || check.error.DeadTransport? then UnlockError.Transport else NotApplicable);
      }
      touched := true;
      FollowsOn([], d.log, CheckPlan(p), rest, InstallPlan(p, existing));
      OwnedRecoverable(p, d.ram, existing);
      NoneRecoverable(p);
      if !existing {
        var staged := Stage(d, p);
        FollowsLength(log, d.log, StagePlan(p), staged.Ok?);
        if staged.Err? { return Err(UnlockError.Transport); }
      } else {
        FollowsNone(d.log);
      }
      r := Ok(());
    }

    method Verify(d: Drive) returns (r: Result<(), UnlockError>)
      requires d.Valid()
      modifies d`log
      ensures d.Valid() && d.Trace() == old(d.Trace()) && Written(d.log) == old(Written(d.log))
      ensures prepared.Some? ==>
                && Follows(old(d.log), d.log, StatePlan(prepared.value) + ResidentPlan(prepared.value), r.Ok?)
                && (r.Ok? <==> && Quiet(d.env, |old(d.log)|, |d.log|)
                               && Activated(prepared.value, d.ram) && Resident(prepared.value, d.ram))
      ensures r.Err? ==> r.error == if prepared.Some? then UnlockError.Transport else NotApplicable
    {
      hide d.Valid; hide d.Trace; hide Written; hide Activated; hide Resident; hide StatePlan; hide ResidentPlan;
      hide Follows;
      if prepared.None? { return Err(NotApplicable); }
      var p := prepared.value;
      ghost var was, plan := d.log, StatePlan(p) + ResidentPlan(p);
      var state := VerifyState(d, p);
      FollowsPart(was, d.log, StatePlan(p), ResidentPlan(p), plan, state.Ok?);
      FollowsLength(was, d.log, StatePlan(p), state.Ok?);
      if state.Err? { return Err(UnlockError.Transport); }
      FollowsOn(was, d.log, StatePlan(p), ResidentPlan(p), plan);
      ghost var mid := d.log;
      var resident := VerifyResident(d, p);
      FollowsLength(mid, d.log, ResidentPlan(p), resident.Ok?);
      if resident.Err? { return Err(UnlockError.Transport); }
      r := Ok(());
    }

    /** Leaves a runtime that verifies once more, unwinds a fresh one that does not, and lets nothing
        that was touched end in anything but success or `Transport`. `mid` is the history when the
        unwinding begins. */
    method Finish(d: Drive, success: bool) returns (r: Result<(), UnlockError>, ghost mid: seq<Command>)
      requires Ready(d.env) && d.Valid()
      requires touched ==> && prepared.Some? && Recoverable(prepared.value, d.ram)
                           && AllRecoverable(prepared.value, d.Trace())
      modifies d`ram, d`log
      ensures d.Valid() && old(d.log) <= mid <= d.log && RamAfter(d.env, d.origin, mid) == old(d.ram)
      ensures !touched ==> r.Ok? && d.ram == old(d.ram) && d.log == old(d.log)
      ensures r.Err? ==> r.error == UnlockError.Transport
      ensures touched ==>
                && Follows(old(d.log), mid, if success then ResidentPlan(prepared.value) else [], r.Ok?)
                && (r.Ok? <==> success && Quiet(d.env, |old(d.log)|, |mid|) && Resident(prepared.value, old(d.ram)))
                && AllRecoverable(prepared.value, d.Trace()) && Recoverable(prepared.value, d.ram)
      ensures existing || r.Ok? ==> d.log == mid && d.ram == old(d.ram) && Written(d.log) == old(Written(d.log))
      ensures touched && !existing && r.Err? ==> Unwinds(d.env, prepared.value, mid, old(d.ram), d.log, d.ram)
    {
      hide Layout; hide AllRecoverable; hide Recoverable; hide ResidentPlan; hide UnwindPlan; hide Resident;
      hide Serves;
      hide Follows; hide d.Valid; hide d.Trace; hide Written; hide Restored; hide Elsewhere; hide RamAfter;
      ghost var was := d.log;
      ValidMeans(d);
      FollowsNone(was);
      mid := d.log;
      if !touched { return Ok(()), mid; }
      var p := prepared.value;
      var verified := false;
      if success {
        var resident := VerifyResident(d, p);
        verified := resident.Ok?;
        FollowsLength(was, d.log, ResidentPlan(p), verified);
        FollowsPart(was, d.log, ResidentPlan(p), [], ResidentPlan(p), verified);
      }
      mid := d.log;
      ValidMeans(d);
      if !verified {
        if !existing {
          var cleaned := Cleanup(d, p);
          UnwindsAfter(d.env, p, mid, old(d.ram), d.log, d.ram, cleaned.Ok?);
        }
        return Err(UnlockError.Transport), mid;
      }
      r := Ok(());
    }
  }

  /** The unwinding from `mid` on: detached first, in the order of the plan, and complete whenever the
      drive lets it. */
  ghost predicate Unwinds(env: DriveEnv, p: Prepared, mid: seq<Command>, before: Ram, log: seq<Command>, after: Ram) {
    var plan := UnwindPlan(p, SecurityIs(p, before, p.policyTable));
    && mid < log && log[|mid|] == WriteRam(p.pointer, p.originalTable) && Follows(mid, log, plan, false)
    && (Quiet(env, |mid|, |log|) && Restorable(p, before) ==>
          log == mid + plan && Restored(p, after) && Elsewhere(p, before, after))
  }

  lemma UnwindsAfter(env: DriveEnv, p: Prepared, mid: seq<Command>, before: Ram, log: seq<Command>, after: Ram,
      ok: bool)
    requires Follows(mid, log, UnwindPlan(p, SecurityIs(p, before, p.policyTable)), ok) && |log| > |mid|
    requires ok <==> Quiet(env, |mid|, |log|) && Restorable(p, before)
    requires ok ==> Restored(p, after)
    requires Elsewhere(p, before, after)
    ensures Unwinds(env, p, mid, before, log, after)
  {
    hide Restored; hide Restorable; hide Elsewhere;
    assert log[|mid|] == log[|mid|..][0];
  }

  lemma ValidMeans(d: Drive)
    requires d.Valid()
    ensures RamAfter(d.env, d.origin, d.log) == d.ram && d.Trace() == TraceOf(d.env, d.origin, d.log)
  {
  }

  /** Before the first command. */
  lemma NothingYet(env: DriveEnv, origin: Ram)
    ensures RamAfter(env, origin, []) == origin && TraceOf(env, origin, []) == [] && !Written([]) && Unwritten([])
  {
  }

  lemma NoneRecoverable(p: Prepared)
    ensures AllRecoverable(p, [])
  {
  }

  lemma OwnedRecoverable(p: Prepared, ram: Ram, existing: bool)
    requires Owned(p, ram, existing) && (existing ==> p.original == p.payload)
    ensures Recoverable(p, ram)
    ensures existing ==> Hooked(p, ram)
  {
  }

  /** Only reads. */
  predicate Unwritten(log: seq<Command>) { forall c <- log :: c.ReadRam? }

  lemma ChecksOnlyRead(p: Prepared, log: seq<Command>, whole: bool)
    requires Follows([], log, CheckPlan(p), whole)
    ensures Unwritten(log) && !Written(log)
  {
    forall c <- log ensures c.ReadRam? {
      var i :| 0 <= i < |log| && log[i] == c;
      assert log[0..] == log;
      assert c == CheckPlan(p)[i];
    }
  }

  lemma FollowsNone(log: seq<Command>)
    ensures Follows(log, log, [], true) && Follows(log, log, [], false)
  {
  }

  lemma FollowsLength(was: seq<Command>, log: seq<Command>, plan: seq<Command>, whole: bool)
    requires Follows(was, log, plan, whole)
    ensures was <= log && |was| <= |log| <= |was| + |plan| && (whole ==> |log| == |was| + |plan|)
  {
  }

  // ----- driver -----

  /** When activation goes through, read off the drive from the history at its start: the SETs are
      accepted, the RAM they leave verifies without a fault, and the Volume ID read is answered. */
  ghost predicate Activates(env: DriveEnv, p: Prepared, origin: Ram, log: seq<Command>) {
    var ram := RamAfter(env, origin, log + SETS);
    && Accepted(env, |log|) && Quiet(env, |log| + 3, VidAt(p, log))
    && Activated(p, ram) && Resident(p, ram) && env.vidReply(VidAt(p, log)).Ok?
  }

  /** The position of the Volume ID read in an activation that starts after `log`. */
  function VidAt(p: Prepared, log: seq<Command>): nat { |log| + 3 + |StatePlan(p) + ResidentPlan(p)| }

  /** When the closure in the critical span goes through. */
  ghost predicate RunSucceeds(env: DriveEnv, p: Prepared, existing: bool, origin: Ram) {
    && Owned(p, origin, existing) && Quiet(env, 0, |InstallPlan(p, existing)|)
    && (!existing ==> env.probeReply(|InstallPlan(p, existing)|).Runtime?)
    && Activates(env, p, origin, BeforeSets(p, existing))
  }

  /** The commands before the SETs of a run that gets that far. */
  function BeforeSets(p: Prepared, existing: bool): seq<Command> {
    InstallPlan(p, existing) + if existing then [] else [Probe]
  }

  /** When the whole critical span goes through: the run, and the residence verified at its end. */
  ghost predicate SpanSucceeds(env: DriveEnv, p: Prepared, existing: bool, origin: Ram) {
    && RunSucceeds(env, p, existing, origin)
    && Quiet(env, |RunPlan(p, existing)|, |SpanPlan(p, existing)|)
    && Resident(p, RamAfter(env, origin, RunPlan(p, existing)))
  }

  method ActivateBackend(d: Drive, b: Backend) returns (r: Result<Unlocked, UnlockError>)
    requires d.Valid() && b.prepared.Some? && b.Ready(d.env)
    requires Hooked(b.prepared.value, d.ram) && AllRecoverable(b.prepared.value, d.Trace())
    modifies d`ram, d`log
    ensures d.Valid() && Follows(old(d.log), d.log, ActivatePlan(b.prepared.value), r.Ok?)
    ensures Hooked(b.prepared.value, d.ram) && AllRecoverable(b.prepared.value, d.Trace())
    ensures Written(d.log) == old(Written(d.log))
    ensures r.Ok? <==> Activates(d.env, b.prepared.value, d.origin, old(d.log))
    ensures r.Ok? ==> d.env.vidReply(VidAt(b.prepared.value, old(d.log))) == Ok(r.value.vid) && r.value.busKey == None
  {
    hide d.Valid; hide d.Trace; hide Written; hide Hooked; hide Serves; hide Layout; hide AllRecoverable;
    hide StatePlan;
    hide ResidentPlan; hide Follows; hide Resident; hide Activated; hide Accepted; hide RamAfter;
    ghost var p, was := b.prepared.value, d.log;
    ghost var checks := StatePlan(p) + ResidentPlan(p);
    ghost var tail := checks + [ReadVid];
    assert ActivatePlan(p) == SETS + tail;
    var activated := Activate(d, p);
    FollowsPart(was, d.log, SETS, tail, ActivatePlan(p), activated.Ok?);
    if activated.Err? { return Err(activated.error); }
    FollowsOn(was, d.log, SETS, tail, ActivatePlan(p));
    FollowsWhole(was, d.log, SETS);
    ValidMeans(d);
    ghost var mid := d.log;
    var verified := b.Verify(d);
    FollowsPart(mid, d.log, checks, [ReadVid], tail, verified.Ok?);
    FollowsLength(mid, d.log, checks, verified.Ok?);
    if verified.Err? { return Err(verified.error); }
    FollowsOn(mid, d.log, checks, [ReadVid], tail);
    ghost var end := d.log;
    var vid := d.env.vidReply(|d.log|);
    Serve(d, p, ReadVid);
    FollowsOne(end, d.log, ReadVid);
    assert Follows(mid, d.log, tail, true);
    FollowsPart(was, d.log, ActivatePlan(p), [], ActivatePlan(p), true);
    if vid.Err? { return Err(vid.error); }
    r := Ok(Unlocked(vid.value, None));
  }

  lemma FollowsOne(was: seq<Command>, log: seq<Command>, c: Command)
    requires log == was + [c]
    ensures Follows(was, log, [c], true)
  {
  }

  lemma FollowsWhole(was: seq<Command>, log: seq<Command>, plan: seq<Command>)
    requires Follows(was, log, plan, true)
    ensures log == was + plan
  {
  }

  /** The closure run inside the critical span: install, confirm a fresh runtime answers, activate. */
  method InstallAndActivate(d: Drive, b: Backend) returns (r: Result<Unlocked, UnlockError>)
    requires d.Valid() && d.log == [] && b.Ready(d.env) && !b.touched
    modifies b`touched, d`ram, d`log
    ensures d.Valid()
    ensures b.touched <==> && b.prepared.Some? && Owned(b.prepared.value, old(d.ram), b.existing)
                           && Quiet(d.env, 0, |CheckPlan(b.prepared.value)|)
    ensures b.touched ==> Recoverable(b.prepared.value, d.ram) && AllRecoverable(b.prepared.value, d.Trace())
    ensures b.prepared.Some? ==> Follows([], d.log, RunPlan(b.prepared.value, b.existing), r.Ok?)
    ensures b.existing ==> !Written(d.log)
    ensures !b.touched ==> Unwritten(d.log) && d.Trace() == [] && d.ram == old(d.ram)
    ensures r.Ok? <==> b.prepared.Some? && RunSucceeds(d.env, b.prepared.value, b.existing, old(d.ram))
    ensures !b.touched ==> r == Err(if b.prepared.Some? && (b.existing || LastDead(d.env, 0, |d.log|))
                                    then UnlockError.Transport else NotApplicable)
    ensures r.Ok? ==>
              && d.env.vidReply(VidAt(b.prepared.value, BeforeSets(b.prepared.value, b.existing))) == Ok(r.value.vid)
              && r.value.busKey == None
  {
    hide d.Valid; hide d.Trace; hide Written; hide Hooked; hide Serves; hide Layout; hide AllRecoverable;
    hide Recoverable;
    hide Owned; hide Activates; hide InstallPlan; hide ActivatePlan; hide Follows; hide RamAfter; hide CheckPlan;
    hide Unwritten; hide VidAt;
    NothingYet(d.env, d.origin);
    ValidMeans(d);
    var installed := b.Install(d);
    if b.prepared.None? { return Err(installed.error); }
    ghost var p := b.prepared.value;
    ghost var install, probe := InstallPlan(p, b.existing), if b.existing then [] else [Probe];
    ghost var run, tail := RunPlan(p, b.existing), probe + ActivatePlan(p);
    assert run == install + tail;
    FollowsPart([], d.log, install, tail, run, installed.Ok?);
    FollowsLength([], d.log, install, installed.Ok?);
    InstallCovers(p, b.existing);
    if installed.Err? { return Err(installed.error); }
    FollowsWhole([], d.log, install);
    FollowsOn([], d.log, install, tail, run);
    ghost var mid := d.log;
    assert mid == install;
    if !b.existing {
      var reply := d.env.probeReply(|d.log|);
      Serve(d, b.prepared.value, Probe);
      FollowsOne(mid, d.log, Probe);
      FollowsPart(mid, d.log, [Probe], ActivatePlan(p), tail, true);
      HookedRecoverable(b.prepared.value, d.ram);
      var id := Probed(reply);
      if id.Err? { return Err(id.error); }
      if id.value != Some(true) { return Err(NotApplicable); }
    } else {
      FollowsNone(mid);
    }
    ghost var start := d.log;
    assert start == BeforeSets(p, b.existing);
    FollowsOn(mid, start, probe, ActivatePlan(p), tail);
    r := ActivateBackend(d, b);
    assert Follows(mid, d.log, tail, r.Ok?);
    HookedRecoverable(b.prepared.value, d.ram);
  }

  lemma InstallCovers(p: Prepared, existing: bool)
    ensures |CheckPlan(p)| <= |InstallPlan(p, existing)|
  {
  }

  lemma HookedRecoverable(p: Prepared, ram: Ram)
    requires Hooked(p, ram)
    ensures Recoverable(p, ram)
  {
  }

  /** One run of `unlock_backend`, from a drive nothing was sent to yet. It succeeds exactly when the
      host is not stopped, the span goes through, and the tuning after it is not refused; then the
      commands sent are the plan. Every RAM content since the first write is recoverable, and a resident
      runtime is never written. Anything touched fails as `Transport`: after a span that ended verified,
      or unwound from `mid` on. */
  method UnlockBackend(d: Drive, b: Backend) returns (r: Result<Unlocked, UnlockError>, ghost mid: seq<Command>)
    requires d.Valid() && d.log == [] && b.Ready(d.env) && !b.touched
    modifies b`touched, d`ram, d`log
    ensures d.Valid()
    ensures b.prepared.Some? ==> AllRecoverable(b.prepared.value, d.Trace())
    ensures b.existing ==> !Written(d.log)
    ensures r.Ok? <==> && !d.env.stopBefore && !d.env.stopAfter && b.prepared.Some?
                       && SpanSucceeds(d.env, b.prepared.value, b.existing, old(d.ram))
                       && d.env.tuned(|SpanPlan(b.prepared.value, b.existing)|)
    ensures r.Ok? ==>
              var p := b.prepared.value;
              && d.log == SpanPlan(p, b.existing) + [Tune] && r.value.busKey == None
              && d.env.vidReply(VidAt(p, BeforeSets(p, b.existing))) == Ok(r.value.vid)
    ensures !b.touched ==> Unwritten(d.log) && d.ram == old(d.ram)
    ensures r.Err? ==> r.error == if d.env.stopBefore || d.env.stopAfter || b.touched
                                     || (b.prepared.Some? && (b.existing || LastDead(d.env, 0, |d.log|)))
                                  then UnlockError.Transport else NotApplicable
    ensures b.touched <==> && !d.env.stopBefore && b.prepared.Some? && Owned(b.prepared.value, old(d.ram), b.existing)
                           && Quiet(d.env, 0, |CheckPlan(b.prepared.value)|)
    ensures b.prepared.Some? && (b.existing || !b.touched) ==>
              d.log <= SpanPlan(b.prepared.value, b.existing) + [Tune]
    ensures b.touched && !b.existing && r.Err? ==>
              var p := b.prepared.value;
              if SpanSucceeds(d.env, p, false, old(d.ram))
                then d.log in {SpanPlan(p, false), SpanPlan(p, false) + [Tune]}
              else
                && mid <= SpanPlan(p, false)
                && Unwinds(d.env, p, mid, RamAfter(d.env, old(d.ram), mid), d.log, d.ram)
                && (Restored(p, d.ram) ==> RegionsSame(p, old(d.ram), d.ram))
  {
    hide d.Valid; hide d.Trace; hide Written; hide Hooked; hide Serves; hide Layout; hide AllRecoverable;
    hide Recoverable;
    hide Owned; hide RunSucceeds; hide RunPlan; hide ResidentPlan; hide Follows; hide RamAfter; hide CheckPlan;
    hide Unwritten; hide Resident; hide VidAt; hide Unwinds; hide Restored; hide BeforeSets; hide RegionsSame;
    NothingYet(d.env, d.origin);
    ValidMeans(d);
    mid := [];
    if b.prepared.Some? { NoneRecoverable(b.prepared.value); }
    if d.env.stopBefore { return Err(UnlockError.Transport), mid; }
    var result := InstallAndActivate(d, b);
    ghost var ran := d.log;
    ValidMeans(d);
    var finished;
    finished, mid := b.Finish(d, result.Ok?);
    if b.prepared.Some? { RunFollowed(b.prepared.value, b.existing, ran, result.Ok?); }
    if b.touched { SpanFollowed(b.prepared.value, b.existing, ran, mid, result.Ok?, finished.Ok?); }
    if b.touched && !b.existing { RestoredMeans(b.prepared.value, old(d.ram), d.ram); }
    if finished.Err? { return Err(finished.error), mid; }
    if d.env.stopAfter { return Err(UnlockError.Transport), mid; }
    if result.Ok? {
      ResidentHooked(b.prepared.value, d.ram);
      var tuned := d.env.tuned(|d.log|);
      Serve(d, b.prepared.value, Tune);
      if !tuned { return Err(UnlockError.Transport), mid; }
    }
    r := result;
  }

  /** What the host wrote holds what it held before. */
  predicate RegionsSame(p: Prepared, before: Ram, after: Ram) {
    forall i {:trigger Area(p, i)} :: 0 <= i < 4 ==>
      ReadAt(after, Area(p, i).0, Area(p, i).1) == ReadAt(before, Area(p, i).0, Area(p, i).1)
  }

  /** Restored is what was there before a fresh installation. */
  lemma RestoredMeans(p: Prepared, before: Ram, after: Ram)
    requires Owned(p, before, false)
    ensures Restored(p, after) ==> RegionsSame(p, before, after)
  {
    hide ReadAt;
  }

  lemma ResidentHooked(p: Prepared, ram: Ram)
    requires Resident(p, ram)
    ensures Hooked(p, ram)
  {
  }

  lemma RunFollowed(p: Prepared, existing: bool, ran: seq<Command>, ranOk: bool)
    requires Follows([], ran, RunPlan(p, existing), ranOk)
    ensures ran <= SpanPlan(p, existing)
  {
    hide RunPlan; hide ResidentPlan;
    assert ran[0..] == ran;
  }

  /** The run and the last verification follow the plan of the span. */
  lemma SpanFollowed(p: Prepared, existing: bool, ran: seq<Command>, mid: seq<Command>, ranOk: bool, ok: bool)
    requires Follows([], ran, RunPlan(p, existing), ranOk)
    requires Follows(ran, mid, if ranOk then ResidentPlan(p) else [], ok) && (ok ==> ranOk)
    ensures mid <= SpanPlan(p, existing) && |mid| <= |SpanPlan(p, existing)|
    ensures ok ==> mid == SpanPlan(p, existing)
    ensures ranOk ==> ran == RunPlan(p, existing)
  {
    hide RunPlan; hide ResidentPlan;
    var run := RunPlan(p, existing);
    assert ran[0..] == ran;
    if ranOk {
      FollowsOn([], ran, run, ResidentPlan(p), SpanPlan(p, existing));
      assert Follows([], mid, SpanPlan(p, existing), ok);
      assert mid[0..] == mid;
    }
  }
}
