/** The transport every unlocker issues commands through, over an arbitrary drive and an arbitrary
    moment of cancellation, and the guards that close a critical span or release an AGID. */
module Scsi {
  import opened Wrappers
  import opened Bytes

  type Cdb = seq<byte>

  datatype Sense = Sense(key: byte, asc: byte, ascq: byte)

  /** `Answered` is the contract's Ok (inspect the status), `Failed` its Err. */
  datatype Reply =
    | Answered(status: byte, transferred: nat, sense: Sense, data: seq<byte>)
    | Failed(failStatus: byte, failSense: Option<Sense>)

  /** One call on the transport, with the answer of a command that reached the drive. */
  datatype Event =
    | Exec(cdb: Cdb, out: seq<byte>, reply: Reply)
    | Refused(cdb: Cdb)
    | Cleanup(cdb: Cdb, reply: Reply)
    | Pause(ms: nat)
    | PauseRefused(ms: nat)
    | Begin
    | BeginRefused
    | End

  /** The drive may answer anything, given everything sent so far; the host may cancel after any
      event. Both are functions of the history, so every behaviour of either is one environment. */
  datatype Env = Env(drive: (seq<Event>, Cdb, seq<byte>) -> Reply, stop: seq<Event> -> bool)

  datatype World = World(log: seq<Event>, cancelled: bool, critical: nat)

  const TRANSPORT_FAILURE: byte := 0xFF

  const DEAD := Failed(TRANSPORT_FAILURE, None)

  predicate IsDeadBus(r: Reply) {
    r == DEAD
  }

  function Add(w: World, e: Event): World {
    w.(log := w.log + [e])
  }

  /** Where a cancellation takes effect: before a call, never inside a command. */
  function Poll(env: Env, w: World): World {
    w.(cancelled := w.cancelled || env.stop(w.log))
  }

  function Executed(env: Env, w: World, cdb: Cdb, out: seq<byte>): (Reply, World) {
    var w := Poll(env, w);
    if w.cancelled && w.critical == 0 then (DEAD, Add(w, Refused(cdb)))
    else
      var reply := env.drive(w.log, cdb, out);
      (reply, Add(w, Exec(cdb, out, reply)))
  }

  /** Once a host is stopped it stays stopped, and outside a critical span nothing reaches the drive any
      more; inside one, and before the stop, everything does, and the answer is the drive's. */
  lemma ExecutedMeaning(env: Env, w: World, cdb: Cdb, out: seq<byte>)
    ensures var (reply, w') := Executed(env, w, cdb, out);
      && w'.critical == w.critical && (w'.cancelled <==> w.cancelled || env.stop(w.log))
      && |w'.log| == |w.log| + 1 && w.log <= w'.log
      && (w'.log[|w.log|] == Refused(cdb) <==> w'.cancelled && w.critical == 0)
      && (w'.log[|w.log|] != Refused(cdb) ==>
            w'.log[|w.log|] == Exec(cdb, out, reply) && reply == env.drive(w.log, cdb, out))
      && (w'.log[|w.log|] == Refused(cdb) ==> reply == DEAD)
  {
  }

  /** True: the wait ran to its end. */
  function Paused(env: Env, w: World, ms: nat): (bool, World) {
    var w := Poll(env, w);
    if w.cancelled then (false, Add(w, PauseRefused(ms))) else (true, Add(w, Pause(ms)))
  }

  /** True: the span is open. */
  function Begun(env: Env, w: World): (bool, World) {
    var w := Poll(env, w);
    if w.cancelled then (false, Add(w, BeginRefused))
    else (true, Add(w.(critical := w.critical + 1), Begin))
  }

  function Ended(w: World): World
    requires w.critical > 0
  {
    Add(w.(critical := w.critical - 1), End)
  }

  /** Reaches the drive even after a cancel. */
  function CleanedUp(env: Env, w: World, cdb: Cdb): World {
    Add(w, Cleanup(cdb, env.drive(w.log, cdb, [])))
  }

  /** The caller's zeroed buffer of `len` bytes after the drive filled it. */
  function Buffer(data: seq<byte>, len: nat): (b: seq<byte>)
    ensures |b| == len
  {
    if |data| >= len then data[..len] else data + Zeros(len - |data|)
  }

  class Transport {
    const env: Env
    var world: World

    constructor (env: Env)
      ensures this.env == env && world == World([], false, 0)
    {
      this.env := env;
      world := World([], false, 0);
    }

    method Execute(cdb: Cdb, out: seq<byte>) returns (reply: Reply)
      modifies this
      ensures (reply, world) == Executed(env, old(world), cdb, out)
    {
      world := Poll(env, world);
      if world.cancelled && world.critical == 0 {
        reply := DEAD;
        world := Add(world, Refused(cdb));
      } else {
        reply := env.drive(world.log, cdb, out);
        world := Add(world, Exec(cdb, out, reply));
      }
    }

    method Pause(ms: nat) returns (ok: bool)
      modifies this
      ensures (ok, world) == Paused(env, old(world), ms)
    {
      world := Poll(env, world);
      ok := !world.cancelled;
      world := Add(world, if ok then Event.Pause(ms) else PauseRefused(ms));
    }

    method BeginCritical() returns (ok: bool)
      modifies this
      ensures (ok, world) == Begun(env, old(world))
    {
      world := Poll(env, world);
      ok := !world.cancelled;
      if ok {
        world := Add(world.(critical := world.critical + 1), Begin);
      } else {
        world := Add(world, BeginRefused);
      }
    }

    method EndCritical()
      requires world.critical > 0
      modifies this
      ensures world == Ended(old(world))
    {
      world := Add(world.(critical := world.critical - 1), End);
    }

    method ExecuteCleanup(cdb: Cdb)
      modifies this
      ensures world == CleanedUp(env, old(world), cdb)
    {
      world := Add(world, Cleanup(cdb, env.drive(world.log, cdb, [])));
    }
  }

  // ----- AGIDs -----

  const REPORT_KEY: byte := 0xA4

  predicate IsAgidRelease(cdb: Cdb) { |cdb| > 10 && cdb[0] == REPORT_KEY && cdb[10] % 64 == 0x3F }

  predicate IsAgidAlloc(cdb: Cdb) { |cdb| > 10 && cdb[0] == REPORT_KEY && cdb[10] % 64 == 0 }

  /** The AGID a release CDB names. */
  function NamedAgid(cdb: Cdb): byte
    requires IsAgidRelease(cdb)
  {
    cdb[10] / 64
  }

  /** An allocated AGID on a transport; the guard is its only releaser. */
  class AgidGuard {
    const t: Transport
    const agid: byte
    const release: Cdb
    var armed: bool

    constructor (t: Transport, agid: byte, release: Cdb)
      requires agid < 4 && IsAgidRelease(release) && NamedAgid(release) == agid
      ensures this.t == t && this.agid == agid && this.release == release && armed
    {
      this.t := t;
      this.agid := agid;
      this.release := release;
      armed := true;
    }

    /** Hand the AGID over, still allocated. */
    method Defuse() returns (a: byte)
      modifies this
      ensures a == agid && !armed
    {
      armed := false;
      a := agid;
    }

    /** Release on leaving the scope, even after a cancel; a second drop does nothing. */
    method Drop()
      modifies this, t
      ensures t.world == (if old(armed) then CleanedUp(t.env, old(t.world), release) else old(t.world))
      ensures !armed
    {
      if armed {
        t.ExecuteCleanup(release);
        armed := false;
      }
    }
  }

  // ----- histories -----

  /** w' continues w. */
  ghost predicate Continues(w: World, w': World) {
    w.log <= w'.log
  }

  /** What was appended between w and w'. */
  function Since(w: World, w': World): seq<Event> {
    if |w.log| <= |w'.log| then w'.log[|w.log|..] else []
  }

  lemma SinceCompose(w: World, w1: World, w2: World)
    requires Continues(w, w1) && Continues(w1, w2)
    ensures Continues(w, w2) && Since(w, w2) == Since(w, w1) + Since(w1, w2)
  {
  }
}
