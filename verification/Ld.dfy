/** The MT1959 unlock state machine: the unlock read, the firmware uploads, the settle and re-confirm
    discipline after them, the readiness poll, and the unlocker around it. */
module Ld {
  import opened Wrappers
  import opened Bytes
  import opened Scsi
  import opened Unlock

  datatype LdError = UnlockFailed | SignatureMismatch | ScsiFailure(status: byte, sense: Option<Sense>)

  predicate IsTransportFailure(e: LdError) { e == ScsiFailure(TRANSPORT_FAILURE, None) }

  /** A fault without sense data: a dead bus, or a host that was stopped. */
  predicate Senseless(e: LdError) { e.ScsiFailure? && e.sense.None? }

  /** UNIT ATTENTION, or LOGICAL UNIT NOT READY other than 04/02 and 04/03. */
  predicate IsRestartSense(e: LdError) {
    e.ScsiFailure? && e.sense.Some? &&
    var s := e.sense.value;
    s.key == 6 || (s.key == 2 && s.asc == 4 && s.ascq != 2 && s.ascq != 3)
  }

  /** `UnlockError::from(ld::Error)`. */
  function Outward(e: LdError): UnlockError { if IsTransportFailure(e) then UnlockError.Transport else NotApplicable }

  datatype Variant = A | B

  datatype Profile = Profile(
    variant: Variant, signature: seq<byte>, firmware: seq<byte>, verifyCdb: Cdb, readVid: Option<Cdb>)

  function Mode(v: Variant): byte { if v.A? then 1 else 2 }

  function BufferId(v: Variant): byte { if v.A? then 0x44 else 0x77 }

  /** READ BUFFER with a sub-command, an address and a one-byte length. */
  function SubCdb(v: Variant, sub: byte, address: nat, length: byte): Cdb
    requires address < 0x10000
  {
    [0x3C, Mode(v), BufferId(v), sub, address / 256, address % 256, 0, 0, length, 0]
  }

  function UnlockCdb(v: Variant): Cdb { SubCdb(v, 0, 0, 64) }

  function UploadCdb(p: Profile): Cdb {
    var n := |p.firmware|;
    if p.variant.A? then [0x3B, 6, 0, 0, 0, 0, n / 0x10000 % 256, n / 256 % 256, n % 256, 0]
    else [0x55, 0x10, 0, 0, 0, 0, n / 0x10000 % 256, n / 256 % 256, n % 256, 0]
  }

  const ACTIVE: seq<byte> := [0x4D, 0x4D, 0x6B, 0x76]
  const EXTENDED: seq<byte> := [0x4C, 0x62, 0x44, 0x72]

  /** A GOOD unlock response of this drive, long enough, with the primary marker. */
  predicate Accepted(p: Profile, r: Reply) {
    r.Answered? && r.status == 0 && r.transferred >= 20 &&
    var b := Buffer(r.data, 64);
    b[0..4] == p.signature && b[12..16] == ACTIVE
  }

  /** The secondary marker as well: the extended-access state. */
  predicate Extended(r: Reply) { r.Answered? && Buffer(r.data, 64)[16..20] == EXTENDED }

  /** How `do_unlock` judges an answer. */
  function Judged(p: Profile, r: Reply): Result<(), LdError> {
    match r
    case Failed(status, sense) => Err(ScsiFailure(status, sense))
    case Answered(status, transferred, sense, data) =>
      if status != 0 then Err(ScsiFailure(status, Some(sense)))
      else if transferred < 20 then Err(UnlockFailed)
      else if Buffer(data, 64)[0..4] != p.signature then Err(SignatureMismatch)
      else if Buffer(data, 64)[12..16] != ACTIVE then Err(UnlockFailed)
      else Ok(())
  }

  /** The verdict is acceptance exactly for an accepted answer, the wrong drive exactly for a GOOD long
      answer with another signature, and a transport failure exactly for a dead bus. */
  lemma JudgedMeaning(p: Profile, r: Reply)
    ensures Judged(p, r).Ok? <==> Accepted(p, r)
    ensures Judged(p, r) == Err(SignatureMismatch) <==>
              r.Answered? && r.status == 0 && r.transferred >= 20 && Buffer(r.data, 64)[0..4] != p.signature
    ensures Judged(p, r).Err? && IsTransportFailure(Judged(p, r).error) <==> r == DEAD
  {
  }

  /** Which senses tell of a restart: every UNIT ATTENTION, and of the others exactly LOGICAL UNIT NOT
      READY with a qualifier a new read may clear. */
  lemma RestartMeaning(status: byte, s: Sense)
    ensures IsRestartSense(ScsiFailure(status, Some(s))) <==>
              s.key == 6 || (s in {Sense(2, 4, 0), Sense(2, 4, 1)} || (s.key == 2 && s.asc == 4 && s.ascq >= 4))
    ensures !IsRestartSense(ScsiFailure(status, None)) && !IsRestartSense(UnlockFailed)
    ensures !IsRestartSense(SignatureMismatch)
  {
  }

  // ----- histories -----

  /** How often a command reached the drive, and its last answer. */
  function Count(log: seq<Event>, cdb: Cdb): nat {
    if log == [] then 0
    else Count(log[..|log| - 1], cdb) + (var e := log[|log| - 1]; if e.Exec? && e.cdb == cdb then 1 else 0)
  }

  function Last(log: seq<Event>, cdb: Cdb): Option<Reply> {
    if log == [] then None else
      var e := log[|log| - 1];
      if e.Exec? && e.cdb == cdb then Some(e.reply) else Last(log[..|log| - 1], cdb)
  }

  /** The host's clock: the time a history takes. A wait that runs to its end takes at least its length. */
  type Clock = seq<Event> -> nat

  ghost predicate Runs(clock: Clock) {
    forall log: seq<Event>, e: Event {:trigger clock(log + [e])} ::
      clock(log + [e]) >= clock(log) + if e.Pause? then e.ms else 0
  }

  /** One command was issued: it reached the drive and was answered, or a cancelled host refused it. */
  ghost predicate Sent(was: seq<Event>, log: seq<Event>, cdb: Cdb, out: seq<byte>, reply: Reply) {
    log == was + [Exec(cdb, out, reply)] || (log == was + [Event.Refused(cdb)] && reply == DEAD)
  }

  /** Commands other than `cdb` were neither counted nor answered in between. */
  ghost predicate Others(was: seq<Event>, log: seq<Event>, cdb: Cdb) {
    forall u :: u != cdb ==> Count(log, u) == Count(was, u) && Last(log, u) == Last(was, u)
  }

  lemma SentCounts(was: seq<Event>, log: seq<Event>, cdb: Cdb, out: seq<byte>, reply: Reply)
    requires Sent(was, log, cdb, out, reply)
    ensures Others(was, log, cdb) && Count(was, cdb) <= Count(log, cdb) <= Count(was, cdb) + 1
    ensures log[|was|].Exec? ==> Last(log, cdb) == Some(reply)
    ensures log[|was|] == Event.Refused(cdb) ==> Last(log, cdb) == Last(was, cdb)
  {
    assert log[..|log| - 1] == was;
  }

  method Send(t: Transport, cdb: Cdb, out: seq<byte>) returns (reply: Reply)
    modifies t
    ensures Sent(old(t.world.log), t.world.log, cdb, out, reply) && t.world.critical == old(t.world.critical)
    ensures old(t.world.critical) > 0 ==> t.world.log == old(t.world.log) + [Exec(cdb, out, reply)]
  {
    reply := t.Execute(cdb, out);
  }

  /** Any other call on the transport leaves counts and answers alone. */
  lemma NoCommand(log: seq<Event>, e: Event)
    requires !e.Exec?
    ensures forall u :: Count(log + [e], u) == Count(log, u) && Last(log + [e], u) == Last(log, u)
  {
    assert (log + [e])[..|log|] == log;
  }

  method Wait(t: Transport, ms: nat) returns (r: Result<(), LdError>)
    modifies t
    ensures t.world.log == old(t.world.log) + [if r.Ok? then Pause(ms) else PauseRefused(ms)]
    ensures t.world.critical == old(t.world.critical)
    ensures r.Err? ==> IsTransportFailure(r.error)
  {
    var ok := t.Pause(ms);
    r := if ok then Ok(()) else Err(ScsiFailure(TRANSPORT_FAILURE, None));
  }

  const READY_STALL: nat := 60000
  const RECONFIRM_PAUSE: nat := 1000
  const UPLOAD_SETTLE: nat := 10000
  const READY_POLL: nat := 500

  /** One `load_firmware`: the stretch of history it covers, how many commands its critical span sent,
      the unlock read that decided it, and what it returned. */
  datatype Load = Load(start: nat, end: nat, span: nat, deciding: nat, result: Result<(), LdError>)

  /** The upload was confirmed, or it left the drive restarting. */
  predicate Went(r: Result<(), LdError>) { r.Ok? || IsRestartSense(r.error) }

  /** No command between a load that went through and the settle, nor between the settle and the
      unlock read. */
  predicate Settles(log: seq<Event>, v: Variant, load: Load) {
    Went(load.result) ==>
      && load.end < |log|
      && (log[load.end] == PauseRefused(UPLOAD_SETTLE) ==> |log| == load.end + 1)
      && (log[load.end] != PauseRefused(UPLOAD_SETTLE) ==>
            && log[load.end] == Pause(UPLOAD_SETTLE) && load.end + 1 < |log|
            && IsCommand(log[load.end + 1], UnlockCdb(v)))
  }

  class Mt1959 {
    const p: Profile
    var initComplete: bool
    var unlocked: bool
    var probed: bool

    constructor (p: Profile)
      ensures this.p == p && !initComplete && !unlocked && !probed
    {
      this.p := p;
      initComplete, unlocked, probed := false, false, false;
    }

    /** The 64-byte unlock read. Accepted answers settle both flags; a rejected one leaves them. */
    method DoUnlock(t: Transport) returns (r: Result<(), LdError>, ghost reply: Reply)
      modifies this`initComplete, this`unlocked, t
      ensures Sent(old(t.world.log), t.world.log, UnlockCdb(p.variant), [], reply)
      ensures t.world.critical == old(t.world.critical)
      ensures r == Judged(p, reply)
      ensures r.Ok? ==> Confirmed(t.world.log)
      ensures r.Err? ==> unlocked == old(unlocked) && initComplete == old(initComplete)
      ensures r == Err(SignatureMismatch) ==> Foreign(t.world.log)
    {
      var answer := Send(t, UnlockCdb(p.variant), []);
      reply := answer;
      r := Judged(p, answer);
      if r.Ok? {
        unlocked := Buffer(answer.data, 64)[16..20] == EXTENDED;
        initComplete := true;
      }
      SentCounts(old(t.world.log), t.world.log, UnlockCdb(p.variant), [], reply);
    }

    /** The last unlock answer came from another drive's firmware. */
    ghost predicate Foreign(log: seq<Event>) {
      var last := Last(log, UnlockCdb(p.variant));
      last.Some? && Judged(p, last.value) == Err(SignatureMismatch)
    }

    /** The last unlock read was accepted and the flags say what it said. */
    ghost predicate Confirmed(log: seq<Event>)
      reads this
    {
      var last := Last(log, UnlockCdb(p.variant));
      last.Some? && Accepted(p, last.value) && unlocked == Extended(last.value) && initComplete
    }

    /** The re-confirm read after a settle: a restarting drive is read again, once a second, for at
        most a minute. */
    method UnlockRead(t: Transport, clock: Clock) returns (r: Result<(), LdError>)
      requires Runs(clock)
      modifies this`initComplete, this`unlocked, t
      ensures Reading(old(t.world.log), t.world.log, UnlockCdb(p.variant))
      ensures t.world.critical == old(t.world.critical)
      ensures r.Ok? ==> Confirmed(t.world.log)
      ensures r == Err(SignatureMismatch) ==> Foreign(t.world.log)
      ensures ReadsUnlock(p, t.world.log, |old(t.world.log)|, |t.world.log|, true)
      ensures r == LastWord(p, t.world.log)
      ensures r.Err? && IsRestartSense(r.error) ==> clock(t.world.log) >= clock(old(t.world.log)) + READY_STALL
    {
      hide Judged; hide Confirmed; hide Foreign; hide Reading; hide IsRestartSense; hide UnlockCdb;
      ghost var cdb, was := UnlockCdb(p.variant), t.world.log;
      var start := clock(t.world.log);
      while true
        invariant t.world.critical == old(t.world.critical) && clock(t.world.log) >= start
        invariant t.world.log == was || Reading(was, t.world.log, cdb)
        invariant was <= t.world.log && forall i :: |was| <= i < |t.world.log| ==> Rereads(p, t.world.log[i])
        decreases start + READY_STALL - clock(t.world.log)
      {
        ghost var before, reply := t.world.log, DEAD;
        r, reply := DoUnlock(t);
        ReadingRead(was, before, t.world.log, cdb, reply);
        ghost var read := t.world.log;
        if r.Err? && clock(t.world.log) - start < READY_STALL && IsRestartSense(r.error) {
          var w := Wait(t, RECONFIRM_PAUSE);
          ReadingWait(was, read, t.world.log, cdb);
          if w.Err? {
            NoRestart(w.error);
            JudgedFailure(p, DEAD);
            return w;
          }
        } else {
          return;
        }
      }
    }
  
    /** Upload the firmware inside a critical span, then read the unlock. */
    method LoadFirmware(t: Transport) returns (r: Result<(), LdError>, ghost load: Load)
      requires WellFormed(p)
      modifies this`initComplete, this`unlocked, t
      ensures old(t.world.log) <= t.world.log && t.world.critical == old(t.world.critical)
      ensures Count(t.world.log, UploadCdb(p)) <= Count(old(t.world.log), UploadCdb(p)) + 1
      ensures load.start == |old(t.world.log)| && load.end == |t.world.log| && load.result == r
      ensures Loaded(p, t.world.log, load)
    {
      hide UnlockCdb; hide UploadCdb; hide Count; hide Last; hide Judged; hide Confirmed; hide Steps; hide Spanning;
      hide Spanned; hide Reads; hide Loaded;
      ghost var was, at, cdb := t.world.log, |t.world.log|, UploadCdb(p);
      if Unsendable(p) {
        r := Err(UnlockFailed);
        load := Load(at, at, 0, 0, r);
        LoadedNot(p, was, load);
        return;
      }
      var begun := t.BeginCritical();
      NoCommand(was, t.world.log[at]);
      if !begun {
        r := Err(ScsiFailure(TRANSPORT_FAILURE, None));
        load := Load(at, at + 1, 0, 0, r);
        LoadedNot(p, t.world.log, load);
        return;
      }
      ghost var log := t.world.log;
      var upload := Send(t, UploadCdb(p), p.firmware);
      ghost var n, reply := 1, upload;
      SentCounts(log, t.world.log, cdb, p.firmware, upload);
      SpanningFirst(p, was, t.world.log, upload);
      r := if upload.Failed? then Err(ScsiFailure(upload.failStatus, upload.failSense)) else Ok(());
      JudgedFailure(p, upload);
      var steps := Steps(p);
      var i := 0;
      while i < |steps| && r.Ok?
        invariant i <= |steps| && n == 1 + i && t.world.critical == old(t.world.critical) + 1
        invariant was <= t.world.log && |t.world.log| == at + n + 1 && Spanning(p, t.world.log, at, n, reply)
        invariant Count(t.world.log, cdb) <= Count(was, cdb) + 1
        invariant r.Err? <==> Breaks(n, reply)
        invariant r.Err? ==> r == Judged(p, reply)
      {
        log := t.world.log;
        assert steps[i].0 != cdb by { StepsDiffer(p, i); }
        var step := Send(t, steps[i].0, steps[i].1);
        SentCounts(log, t.world.log, steps[i].0, steps[i].1, step);
        SpanningNext(p, log, t.world.log, at, n, reply, step);
        n, reply := n + 1, step;
        if step == DEAD { r := Err(ScsiFailure(TRANSPORT_FAILURE, None)); }
        JudgedFailure(p, step);
        i := i + 1;
      }
      log := t.world.log;
      t.EndCritical();
      NoCommand(log, End);
      SpanningEnd(p, log, t.world.log, at, n, reply);
      if r.Err? {
        load := Load(at, |t.world.log|, n, 0, r);
        LoadedBroken(p, t.world.log, load, reply);
        return;
      }
      log := t.world.log;
      ghost var deciding;
      r, deciding := ReadAfterUpload(t);
      load := Load(at, |t.world.log|, n, deciding, r);
      LoadedWhole(p, log, t.world.log, load, reply);
    }

    /** The unlock reads after an upload. Variant A reads once and B up to six times; the read after a
        success is only a confirmation, and its answer is ignored. */
    method ReadAfterUpload(t: Transport) returns (r: Result<(), LdError>, ghost deciding: nat)
      modifies this`initComplete, this`unlocked, t
      ensures old(t.world.log) <= t.world.log && t.world.critical == old(t.world.critical)
      ensures Count(t.world.log, UploadCdb(p)) == Count(old(t.world.log), UploadCdb(p))
      ensures Reads(p, t.world.log, |old(t.world.log)|, |t.world.log|, deciding, r)
    {
      hide UnlockCdb; hide UploadCdb; hide Count; hide Judged;
      ghost var log := t.world.log;
      var retries := if p.variant.A? then 0 else 5;
      ghost var reply;
      while retries > 0
        invariant 0 <= retries <= LastTry(p.variant) && t.world.critical == old(t.world.critical)
        invariant log <= t.world.log && |t.world.log| == |log| + LastTry(p.variant) - retries
        invariant Count(t.world.log, UploadCdb(p)) == Count(log, UploadCdb(p))
        invariant forall i :: |log| <= i < |t.world.log| ==> TryAgain(p, t.world.log[i])
      {
        deciding := |t.world.log|;
        r, reply := Attempt(t);
        if r.Ok? {
          var again;
          again, reply := Attempt(t);
          return;
        }
        if IsTransportFailure(r.error) { return; }
        retries := retries - 1;
      }
      deciding := |t.world.log|;
      r, reply := Attempt(t);
      if p.variant.A? && r.Ok? {
        var again;
        again, reply := Attempt(t);
      }
    }

    /** An unlock read that leaves the count of uploads alone. */
    method Attempt(t: Transport) returns (r: Result<(), LdError>, ghost reply: Reply)
      modifies this`initComplete, this`unlocked, t
      ensures Sent(old(t.world.log), t.world.log, UnlockCdb(p.variant), [], reply) && r == Judged(p, reply)
      ensures old(t.world.log) <= t.world.log && t.world.critical == old(t.world.critical)
      ensures Count(t.world.log, UploadCdb(p)) == Count(old(t.world.log), UploadCdb(p))
    {
      r, reply := DoUnlock(t);
      SentCounts(old(t.world.log), t.world.log, UnlockCdb(p.variant), [], reply);
    }

    /** The unlock read of an attempt: the tolerant re-confirm after a settle, else a single read. */
    method ReadUnlock(t: Transport, clock: Clock, settled: bool, ghost loads: seq<Load>, ghost done: seq<Load>)
      returns (r: Result<(), LdError>)
      requires Runs(clock) && Settled(t.world.log, p.variant, done)
      requires if settled then Settling(t.world.log, loads, done) else loads == done
      modifies this`initComplete, this`unlocked, t
      ensures old(t.world.log) <= t.world.log && t.world.critical == old(t.world.critical)
      ensures Count(t.world.log, UploadCdb(p)) == Count(old(t.world.log), UploadCdb(p))
      ensures Settled(t.world.log, p.variant, loads)
      ensures ReadsUnlock(p, t.world.log, |old(t.world.log)|, |t.world.log|, settled) && r == LastWord(p, t.world.log)
      ensures r.Ok? ==> Confirmed(t.world.log)
      ensures r == Err(SignatureMismatch) ==> Foreign(t.world.log)
    {
      hide UnlockCdb; hide UploadCdb; hide Count; hide Last; hide Judged; hide Confirmed; hide Foreign; hide Settles;
      hide Settled; hide Reading;
      ghost var log := t.world.log;
      if settled {
        r := UnlockRead(t, clock);
        ReadingCounts(log, t.world.log, p);
        Resettled(log, t.world.log, p.variant, loads, done);
      } else {
        ghost var reply;
        r, reply := DoUnlock(t);
        SentCounts(log, t.world.log, UnlockCdb(p.variant), [], reply);
        DifferentCommands(p);
        SettledMore(log, t.world.log, p.variant, done);
      }
    }

    /** Hand the drive back once the media is ready: no outcome loses the unlock, only a dead bus or a
        cancelled host fails. */
    method HandBack(t: Transport, clock: Clock, ghost loads: seq<Load>) returns (r: Result<(), LdError>)
      requires Runs(clock) && Settled(t.world.log, p.variant, loads) && Confirmed(t.world.log)
      modifies t
      ensures old(t.world.log) <= t.world.log && t.world.critical == old(t.world.critical)
      ensures Count(t.world.log, UploadCdb(p)) == Count(old(t.world.log), UploadCdb(p))
      ensures Settled(t.world.log, p.variant, loads) && Confirmed(t.world.log)
      ensures HandsBack(clock, old(t.world.log), t.world.log, r) && (r.Err? ==> Senseless(r.error))
    {
      hide UnlockCdb; hide UploadCdb; hide Count; hide Last; hide Confirmed; hide Settles; hide Settled; hide Polling;
      ghost var log := t.world.log;
      var ready;
      ghost var answers, since;
      ready, answers, since := AwaitMediaReady(t, clock);
      PollingKeeps(log, t.world.log, p);
      SettledMore(log, t.world.log, p.variant, loads);
      ConfirmedMore(log, t.world.log);
      r := if ready.Err? then Err(ready.error) else Ok(());
    }

    /** One upload, and the silence after it if it went through or left the drive restarting: `Ok(true)`
        is a drive left to settle, `Ok(false)` a failed upload worth another attempt. */
    method Reload(t: Transport, ghost from: nat, ghost done: seq<Load>)
      returns (r: Result<(bool, LdError), LdError>, ghost loads: seq<Load>)
      requires WellFormed(p) && LoadsOf(p, from, t.world.log, done) && Settled(t.world.log, p.variant, done)
      requires from <= |t.world.log|
      modifies this`initComplete, this`unlocked, t
      ensures old(t.world.log) <= t.world.log && t.world.critical == old(t.world.critical)
      ensures Count(t.world.log, UploadCdb(p)) <= Count(old(t.world.log), UploadCdb(p)) + 1
      ensures |loads| == |done| + 1 && LoadsOf(p, from, t.world.log, loads)
      ensures r.Ok? && r.value.0 ==> Settled(t.world.log, p.variant, done) && Settling(t.world.log, loads, done)
      ensures r.Ok? && !r.value.0 ==> Settled(t.world.log, p.variant, loads)
      ensures r.Err? ==> AllSettle(t.world.log, p.variant, loads) && Senseless(r.error)
      ensures loads[..|done|] == done && |old(t.world.log)| == loads[|done|].start <= loads[|done|].end <= |t.world.log|
      ensures if r.Err? then LoadEnds(t.world.log, loads[|done|], false, Err(r.error))
              else LoadStands(t.world.log, loads[|done|], r.value.0)
                   && (!r.value.0 ==> loads[|done|].result == Err(r.value.1))
    {
      hide UnlockCdb; hide UploadCdb; hide Count; hide Settles; hide Settled; hide IsRestartSense; hide AllSettle;
      hide Loaded; hide LoadsOf;
      ghost var was := t.world.log;
      var loaded;
      ghost var load;
      loaded, load := LoadFirmware(t);
      LoadsAdd(p, from, was, t.world.log, done, load);
      SettledMore(was, t.world.log, p.variant, done);
      loads := done + [load];
      if loaded.Err? && IsTransportFailure(loaded.error) {
        NoRestart(loaded.error);
        NotGone(t.world.log, p.variant, done, load);
        SettledAll(t.world.log, p.variant, loads);
        return Err(loaded.error), loads;
      }
      if loaded.Err? && !IsRestartSense(loaded.error) {
        NotGone(t.world.log, p.variant, done, load);
        return Ok((false, loaded.error)), loads;
      }
      ghost var log := t.world.log;
      var quiet := Wait(t, UPLOAD_SETTLE);
      WaitCounts(log, t.world.log, UploadCdb(p));
      LoadsMore(p, from, log, t.world.log, loads);
      SettledMore(log, t.world.log, p.variant, done);
      if quiet.Err? {
        SettleRefused(t.world.log, p.variant, done, load);
        return Err(quiet.error), loads;
      }
      r := Ok((true, UnlockFailed));
    }

    /** Up to three uploads, each that went through followed by the settle and a re-confirm read. */
    method RunInit(t: Transport, clock: Clock) returns (r: Result<(), LdError>, ghost loads: seq<Load>)
      requires WellFormed(p) && Runs(clock)
      modifies this`initComplete, this`unlocked, t
      ensures old(t.world.log) <= t.world.log && t.world.critical == old(t.world.critical)
      ensures |loads| <= 3 && Count(t.world.log, UploadCdb(p)) <= Count(old(t.world.log), UploadCdb(p)) + |loads|
      ensures LoadsOf(p, |old(t.world.log)|, t.world.log, loads) && AllSettle(t.world.log, p.variant, loads)
      ensures r.Ok? ==> Confirmed(t.world.log) && Settled(t.world.log, p.variant, loads)
      ensures r.Err? ==> |loads| == 3 || Senseless(r.error) || Foreign(t.world.log)
      ensures InitShows(p, clock, |old(t.world.log)|, t.world.log, loads, r)
    {
      hide UnlockCdb; hide UploadCdb; hide Count; hide Last; hide Judged; hide Confirmed; hide Foreign; hide Settles;
      hide Settled; hide IsRestartSense; hide AllSettle; hide Settling; hide Loaded; hide LoadsOf; hide InitSoFar;
      hide ReadsUnlock; hide Reading; hide Polling; hide InitShows; hide LastWord; hide LoadEnds; hide LoadStands;
      hide ReadEnds;
      hide HandsBack;
      ghost var was, up := t.world.log, UploadCdb(p);
      var lastErr := UnlockFailed;
      var settled := false;
      loads := [];
      ghost var done: seq<Load> := [];
      SettledNone(was, p.variant);
      LoadsNone(p, was);
      InitNone(p, |was|, was);
      var attempt := 0;
      while true
        invariant attempt <= 3 && was <= t.world.log && t.world.critical == old(t.world.critical)
        invariant Count(t.world.log, up) <= Count(was, up) + |loads|
        invariant |loads| == attempt && LoadsOf(p, |was|, t.world.log, loads)
        invariant Settled(t.world.log, p.variant, done)
        invariant if settled then Settling(t.world.log, loads, done) else loads == done
        invariant InitSoFar(p, |was|, t.world.log, loads, settled)
        invariant attempt > 0 && !settled ==> loads[attempt - 1].result == Err(lastErr)
        decreases 3 - attempt
      {
        if attempt == 3 && !settled {
          SettledAll(t.world.log, p.variant, loads);
          InitSpent(p, clock, |was|, t.world.log, loads, lastErr);
          return Err(lastErr), loads;
        }
        ghost var log := t.world.log;
        var read := ReadUnlock(t, clock, settled, loads, done);
        LoadsMore(p, |was|, log, t.world.log, loads);
        ghost var before, mid := log, t.world.log;
        ReadsLonger(p, mid, |before|, |mid|, settled);
        done := loads;
        if read.Ok? {
          log := t.world.log;
          if settled { read := HandBack(t, clock, loads); }
          LoadsMore(p, |was|, log, t.world.log, loads);
          SettledAll(t.world.log, p.variant, loads);
          ReadEnded(p, clock, mid, t.world.log, settled, |loads| == 3, read);
          InitRead(p, clock, |was|, before, mid, t.world.log, loads, settled, read);
          return read, loads;
        }
        SettledAll(t.world.log, p.variant, loads);
        if read.error.SignatureMismatch? {
          ReadEnded(p, clock, mid, mid, settled, |loads| == 3, Err(UnlockFailed));
          InitRead(p, clock, |was|, before, mid, mid, loads, settled, Err(UnlockFailed));
          return Err(UnlockFailed), loads;
        }
        if IsTransportFailure(read.error) || attempt == 3 {
          ReadEnded(p, clock, mid, mid, settled, |loads| == 3, Err(read.error));
          InitRead(p, clock, |was|, before, mid, mid, loads, settled, Err(read.error));
          return Err(read.error), loads;
        }
        var reloaded;
        reloaded, loads := Reload(t, |was|, done);
        InitLoad(p, clock, |was|, before, mid, t.world.log, loads, settled, reloaded);
        if reloaded.Err? { return Err(reloaded.error), loads; }
        settled := reloaded.value.0;
        if !settled {
          done := loads;
          lastErr := reloaded.value.1;
        }
        attempt := attempt + 1;
      }
    }

    // ----- calibration and re-confirmation -----

    method ReadBufferProbe(t: Transport, sub: byte, address: nat) returns (r: Result<(), LdError>, ghost reply: Reply)
      requires address < 0x10000 && sub in {0x12, 0x14}
      modifies t
      ensures Sent(old(t.world.log), t.world.log, SubCdb(p.variant, sub, address, 4), [], reply)
      ensures t.world.critical == old(t.world.critical)
      ensures r.Ok? <==> GivesFour(reply)
      ensures r.Err? ==> (IsTransportFailure(r.error) <==> reply == DEAD)
    {
      var answer := Send(t, SubCdb(p.variant, sub, address, 4), []);
      reply := answer;
      r := if answer.Failed? then Err(ScsiFailure(answer.failStatus, answer.failSense))
           else if answer.status != 0 || answer.transferred != 4
             then Err(ScsiFailure(answer.status, Some(answer.sense)))
           else Ok(());
    }

    /** Five chances for the short unlock read to be GOOD; a failing bus is not retried. */
    method Validate(t: Transport, ghost was: seq<Event>) returns (r: Result<(), LdError>)
      requires Calibrating(p, was, t.world.log, Checking(0))
      modifies t
      ensures t.world.critical == old(t.world.critical)
      ensures Calibrating(p, was, t.world.log, if r.Ok? then Coarse(0) else Over(r))
    {
      hide Calibrating; hide SubCdb;
      for attempt := 0 to 5
        invariant Calibrating(p, was, t.world.log, if attempt < 5 then Checking(attempt) else Over(Err(UnlockFailed)))
        invariant t.world.critical == old(t.world.critical)
      {
        ghost var log := t.world.log;
        var reply := Send(t, SubCdb(p.variant, 0, 0, 4), []);
        CalibratingStep(p, was, log, t.world.log, Checking(attempt), reply);
        if reply.Failed? { return Err(ScsiFailure(reply.failStatus, reply.failSense)); }
        if reply.status == 0 { return Ok(()); }
      }
      r := Err(UnlockFailed);
    }

    /** The calibration; before an unlock was accepted the unlock read comes first, and must be. */
    method RunProbe(t: Transport) returns (r: Result<(), LdError>)
      modifies this, t
      ensures t.world.critical == old(t.world.critical)
      ensures var log, n := t.world.log, |old(t.world.log)| + if old(initComplete) then 0 else 1;
              && n <= |log| && old(t.world.log) <= log[..n]
              && (!old(initComplete) ==> IsCommand(log[n - 1], UnlockCdb(p.variant)))
              && if !old(initComplete) && Judged(p, ReplyOf(log[n - 1])).Err?
                 then |log| == n && r == Judged(p, ReplyOf(log[n - 1]))
                 else Calibrating(p, log[..n], log, Over(r))
      ensures old(initComplete) ==> unlocked == old(unlocked)
      ensures if r.Ok? then probed && initComplete else probed == old(probed)
      ensures old(initComplete) ==> initComplete
    {
      hide Calibrating; hide UnlockCdb; hide Judged;
      if !initComplete {
        ghost var reply;
        r, reply := DoUnlock(t);
        assert t.world.log[..|t.world.log|] == t.world.log;
        if r.Err? { return; }
      }
      ghost var was := t.world.log;
      assert was[..|was|] == was;
      r := Calibrate(t);
      CalibratingGrows(p, was, t.world.log, Over(r));
      if r.Ok? { probed := true; }
    }

    /** The two passes over the surface, then the maximum speed. */
    method Calibrate(t: Transport) returns (r: Result<(), LdError>)
      modifies t
      ensures Calibrating(p, old(t.world.log), t.world.log, Over(r)) && t.world.critical == old(t.world.critical)
    {
      hide Calibrating; hide SubCdb;
      ghost var was, log, reply := t.world.log, t.world.log, DEAD;
      CalibratingStart(p, was);
      var capacity := Send(t, [0x25, 0, 0, 0, 0, 0, 0, 0, 0, 0], []);
      CalibratingStep(p, was, log, t.world.log, Capacity, capacity);
      if capacity.Failed? { return Err(ScsiFailure(capacity.failStatus, capacity.failSense)); }
      var b := Buffer(capacity.data, 8);
      var lastLba := FromBytes(b[..4]);
      var sectors := if capacity.status != 0 || capacity.transferred < 4 then 0
                     else if lastLba == 0xFFFF_FFFF then lastLba else lastLba + 1;
      log := t.world.log;
      var address := if sectors > 25_000_000 then 0x0200 else 0x0100;
      var init;
      init, reply := ReadBufferProbe(t, 0x12, address);
      CalibratingStep(p, was, log, t.world.log, Start(address == 0x0200), reply);
      if init.Err? && IsTransportFailure(init.error) { return init; }
      r := Validate(t, was);
      if r.Err? { return; }
      address := 0;
      while address < 0x5800
        invariant address <= 0x5800 && address % 0x100 == 0 && t.world.critical == old(t.world.critical)
        invariant Calibrating(p, was, t.world.log, if address < 0x5800 then Coarse(address) else Fine(0x5800))
      {
        log := t.world.log;
        var coarse;
        coarse, reply := ReadBufferProbe(t, 0x14, address);
        CalibratingStep(p, was, log, t.world.log, Coarse(address), reply);
        if coarse.Err? { return if IsTransportFailure(coarse.error) then coarse else Err(UnlockFailed); }
        address := address + 0x100;
      }
      var sweeping := true;
      while address < 0x10000 && sweeping
        invariant 0x5800 <= address <= 0x10000 && address % 0x100 == 0 && t.world.critical == old(t.world.critical)
        invariant Calibrating(p, was, t.world.log, if address < 0x10000 && sweeping then Fine(address) else Speed)
        decreases 0x10000 - address, sweeping
      {
        log := t.world.log;
        var fine;
        fine, reply := ReadBufferProbe(t, 0x14, address);
        CalibratingStep(p, was, log, t.world.log, Fine(address), reply);
        if fine.Err? && IsTransportFailure(fine.error) { return fine; }
        if fine.Err? { sweeping := false; } else { address := address + 0x100; }
      }
      log := t.world.log;
      var speed := Send(t, SPEED_MAX, []);
      CalibratingStep(p, was, log, t.world.log, Speed, speed);
      r := Ok(());
    }

    /** A no-op before `init` or once probed. */
    method ProbeDisc(t: Transport) returns (r: Result<(), LdError>)
      modifies this, t
      ensures Undisturbed(p, old(t.world.log), t.world.log) && t.world.critical == old(t.world.critical)
      ensures initComplete == old(initComplete) && unlocked == old(unlocked)
      ensures if !old(initComplete) || old(probed) then r.Ok? && t.world == old(t.world) && probed == old(probed)
              else Calibrating(p, old(t.world.log), t.world.log, Over(r)) && probed == r.Ok?
    {
      UndisturbedStart(p, t.world.log);
      if !initComplete || probed { return Ok(()); }
      ghost var was := t.world.log;
      r := RunProbe(t);
      assert t.world.log[..|was|] == was;
    }

    method Init(t: Transport, clock: Clock) returns (r: Result<(), LdError>, ghost loads: seq<Load>)
      requires WellFormed(p) && Runs(clock)
      modifies this`initComplete, this`unlocked, t
      ensures old(t.world.log) <= t.world.log && t.world.critical == old(t.world.critical)
      ensures |loads| <= 3 && Count(t.world.log, UploadCdb(p)) <= Count(old(t.world.log), UploadCdb(p)) + |loads|
      ensures LoadsOf(p, |old(t.world.log)|, t.world.log, loads) && AllSettle(t.world.log, p.variant, loads)
      ensures old(initComplete) ==> r.Ok? && t.world == old(t.world) && unlocked == old(unlocked)
      ensures !old(initComplete) && r.Ok? ==> Confirmed(t.world.log)
      ensures r.Ok? ==> Settled(t.world.log, p.variant, loads)
      ensures r.Err? ==> |loads| == 3 || Senseless(r.error) || Foreign(t.world.log)
      ensures !old(initComplete) ==> InitShows(p, clock, |old(t.world.log)|, t.world.log, loads, r)
    {
      if initComplete {
        SettledNone(t.world.log, p.variant);
        LoadsNone(p, t.world.log);
        return Ok(()), [];
      }
      r, loads := RunInit(t, clock);
    }

    /** `Ok(true)` only if the read that was just made found the extended-access state. */
    method ReconfirmUnlock(t: Transport, clock: Clock) returns (r: Result<bool, LdError>)
      requires Runs(clock)
      modifies this`initComplete, this`unlocked, t
      ensures Reading(old(t.world.log), t.world.log, UnlockCdb(p.variant)) && t.world.critical == old(t.world.critical)
      ensures ReadsUnlock(p, t.world.log, |old(t.world.log)|, |t.world.log|, true)
      ensures var word := LastWord(p, t.world.log); if word.Err? then r == Err(word.error) else r.Ok?
      ensures r.Ok? ==> Confirmed(t.world.log)
      ensures r.Ok? ==> r.value == unlocked == Extended(ReplyOf(t.world.log[|t.world.log| - 1]))
    {
      hide UnlockCdb; hide Judged; hide Accepted; hide Extended;
      unlocked := false;
      var read := UnlockRead(t, clock);
      JudgedFailure(p, DEAD);
      LastAtEnd(t.world.log, UnlockCdb(p.variant));
      r := if read.Err? then Err(read.error) else Ok(unlocked);
    }

    /** After a calibration fault: nothing is sent for the settle, then the unlock is re-confirmed. */
    method ReconfirmAfterFault(t: Transport, clock: Clock, settle: nat) returns (r: Result<(), UnlockError>)
      requires Runs(clock)
      modifies this`initComplete, this`unlocked, t
      ensures old(t.world.log) < t.world.log
      ensures Reconfirms(p, t.world.log, |old(t.world.log)|, settle, r)
      ensures Count(t.world.log, UploadCdb(p)) == Count(old(t.world.log), UploadCdb(p))
      ensures r.Ok? ==> Confirmed(t.world.log) && unlocked
      ensures r.Err? ==> r.error in {NotApplicable, UnlockError.Transport}
    {
      hide Count; hide UnlockCdb; hide UploadCdb; hide ReadsUnlock; hide LastWord; hide Last;
      ghost var was := t.world.log;
      var quiet := Wait(t, settle);
      WaitCounts(was, t.world.log, UploadCdb(p));
      if quiet.Err? { return Err(Outward(quiet.error)); }
      ghost var log := t.world.log;
      var still := ReconfirmUnlock(t, clock);
      ReadingCounts(log, t.world.log, p);
      r := match still case Err(e) => Err(Outward(e)) case Ok(b) => if b then Ok(()) else Err(NotApplicable);
      assert t.world.log[..|t.world.log|] == t.world.log;
    }

    lemma ConfirmedExtends(log: seq<Event>)
      requires Confirmed(log)
      ensures if unlocked then Unlocks(p, log) else !Extends(p, log)
    {
    }

    lemma ConfirmedMore(log: seq<Event>, log': seq<Event>)
      requires Confirmed(log) && Last(log', UnlockCdb(p.variant)) == Last(log, UnlockCdb(p.variant))
      ensures Confirmed(log')
    {
    }
  }

  ghost predicate AllSettle(log: seq<Event>, v: Variant, loads: seq<Load>) {
    forall l <- loads :: l.end <= |log| && Settles(log, v, l)
  }

  /** Every load of a history has settled, and no wait of theirs was cut short. */
  ghost predicate Settled(log: seq<Event>, v: Variant, loads: seq<Load>) {
    forall l <- loads ::
      l.end <= |log| && Settles(log, v, l) && (Went(l.result) ==> log[l.end] == Pause(UPLOAD_SETTLE))
  }

  lemma LastAtEnd(log: seq<Event>, cdb: Cdb)
    ensures log != [] && log[|log| - 1].Exec? && log[|log| - 1].cdb == cdb ==>
              Last(log, cdb) == Some(ReplyOf(log[|log| - 1]))
  {
  }

  // ----- the history of an initialisation -----

  /** What an event of the re-confirm read leaves room for: another read after a restart sense, each
      after a pause. */
  predicate Rereads(p: Profile, e: Event) {
    e == Pause(RECONFIRM_PAUSE) ||
    (IsCommand(e, UnlockCdb(p.variant)) && var r := Judged(p, ReplyOf(e)); r.Err? && IsRestartSense(r.error))
  }

  /** From `from` to `to` the unlock was read: once, or after a settle until the drive has restarted. */
  ghost predicate ReadsUnlock(p: Profile, log: seq<Event>, from: nat, to: nat, settled: bool) {
    && from < to <= |log| && IsCommand(log[from], UnlockCdb(p.variant)) && (!settled ==> to == from + 1)
    && (forall i :: from <= i < to - 1 ==> Rereads(p, log[i]))
    && (IsCommand(log[to - 1], UnlockCdb(p.variant)) || log[to - 1] == PauseRefused(RECONFIRM_PAUSE))
  }

  /** The verdict on the last event of such a read. */
  function LastWord(p: Profile, log: seq<Event>): Result<(), LdError>
    requires log != []
  {
    Judged(p, ReplyOf(log[|log| - 1]))
  }

  /** A load after which the initialisation goes on, settled or not. */
  predicate LoadStands(log: seq<Event>, l: Load, settled: bool) {
    if settled
    then Went(l.result) && |log| == l.end + 1 && log[l.end] == Pause(UPLOAD_SETTLE)
    else !Went(l.result) && |log| == l.end && !IsTransportFailure(l.result.error)
  }

  /** A load that ends it: on a dead bus, stopped while it settles, or as the last one rejected. */
  predicate LoadEnds(log: seq<Event>, l: Load, last: bool, r: Result<(), LdError>) {
    || (l.result.Err? && IsTransportFailure(l.result.error) && |log| == l.end && r == l.result)
    || (Went(l.result) && |log| == l.end + 1 && log[l.end] == PauseRefused(UPLOAD_SETTLE)
        && r == Err(ScsiFailure(TRANSPORT_FAILURE, None)))
    || (last && !Went(l.result) && |log| == l.end && r == l.result)
  }

  /** The rounds so far: each read of the unlock was rejected, and a load followed. */
  ghost predicate InitSoFar(p: Profile, from: nat, log: seq<Event>, loads: seq<Load>, settled: bool)
    decreases |loads|, 1
  {
    if loads == [] then |log| == from && !settled
    else
      var n := |loads| - 1; var l := loads[n];
      l.end <= |log| && LoadStands(log, l, settled) && ReadRejected(p, from, log, loads)
  }

  /** The read before the last of these loads, and the rounds before it. */
  ghost predicate ReadRejected(p: Profile, from: nat, log: seq<Event>, loads: seq<Load>)
    requires loads != []
    decreases |loads|, 0
  {
    var n := |loads| - 1; var l := loads[n];
    && l.start <= |log|
    && exists at: nat, settled ::
         && at < l.start && ReadsUnlock(p, log, at, l.start, settled)
         && InitSoFar(p, from, log[..at], loads[..n], settled) && Rejects(LastWord(p, log[..l.start]))
  }

  /** A rejection worth a load: not from a dead bus, and not by another drive. */
  predicate Rejects(word: Result<(), LdError>) {
    word.Err? && !IsTransportFailure(word.error) && word.error != SignatureMismatch
  }

  /** A whole initialisation and its result: it ends with a load or with a read of the unlock. */
  ghost predicate InitShows(p: Profile, clock: Clock, from: nat, log: seq<Event>, loads: seq<Load>,
                            r: Result<(), LdError>)
  {
    || (loads != [] && ReadRejected(p, from, log, loads) && LoadEnds(log, loads[|loads| - 1], |loads| == 3, r))
    || exists at: nat, to: nat, settled :: ReadsUnlock(p, log, at, to, settled)
         && InitSoFar(p, from, log[..at], loads, settled)
         && ReadEnds(p, clock, log[..to], log, settled, |loads| == 3, r)
  }

  /** The media was polled to the end, and only a poll that broke off is an error. */
  ghost predicate HandsBack(clock: Clock, mid: seq<Event>, log: seq<Event>, r: Result<(), LdError>) {
    var due := PollOf(clock, mid, log).due;
    due.Ended? && if due.result.Err? then r == Err(due.result.error) else r.Ok?
  }

  /** An accepted read hands the drive back, after a settle once the media is ready; a rejected one ends
      it if the drive is another one, the bus is dead, or no load is left. */
  ghost predicate ReadEnds(p: Profile, clock: Clock, mid: seq<Event>, log: seq<Event>, settled: bool, last: bool,
                           r: Result<(), LdError>)
    requires mid != []
  {
    var word := LastWord(p, mid);
    if word.Ok? then
      if settled then HandsBack(clock, mid, log, r) else mid == log && r.Ok?
    else
      && mid == log
      && if word.error == SignatureMismatch then r == Err(UnlockFailed)
         else r == word && (last || IsTransportFailure(word.error))
  }

  lemma InitNone(p: Profile, from: nat, log: seq<Event>)
    requires |log| == from
    ensures InitSoFar(p, from, log, [], false)
  {
  }

  lemma InitSpent(p: Profile, clock: Clock, from: nat, log: seq<Event>, loads: seq<Load>, e: LdError)
    requires |loads| == 3 && InitSoFar(p, from, log, loads, false) && loads[2].result == Err(e)
    ensures InitShows(p, clock, from, log, loads, Err(e))
  {
    hide ReadRejected;
  }

  lemma InitRead(p: Profile, clock: Clock, from: nat, before: seq<Event>, mid: seq<Event>, log: seq<Event>,
                 loads: seq<Load>,
                 settled: bool, r: Result<(), LdError>)
    requires before <= mid <= log && InitSoFar(p, from, before, loads, settled)
    requires ReadsUnlock(p, mid, |before|, |mid|, settled) && ReadEnds(p, clock, mid, log, settled, |loads| == 3, r)
    ensures InitShows(p, clock, from, log, loads, r)
  {
    hide InitSoFar; hide ReadEnds; hide ReadRejected; hide LoadEnds;
    assert log[..|before|] == before && log[..|mid|] == mid;
    assert ReadsUnlock(p, log, |before|, |mid|, settled);
  }

  lemma ReadsLonger(p: Profile, log: seq<Event>, from: nat, to: nat, settled: bool)
    requires ReadsUnlock(p, log, from, to, settled)
    ensures from < to
  {
  }

  lemma ReadEnded(p: Profile, clock: Clock, mid: seq<Event>, log: seq<Event>, settled: bool, last: bool,
                  r: Result<(), LdError>)
    requires mid != []
    requires LastWord(p, mid).Ok? && settled ==> HandsBack(clock, mid, log, r)
    requires LastWord(p, mid).Ok? && !settled ==> mid == log && r.Ok?
    requires LastWord(p, mid).Err? ==> mid == log
    requires LastWord(p, mid) == Err(SignatureMismatch) ==> r == Err(UnlockFailed)
    requires LastWord(p, mid).Err? && LastWord(p, mid).error != SignatureMismatch ==>
               r == LastWord(p, mid) && (last || IsTransportFailure(r.error))
    ensures ReadEnds(p, clock, mid, log, settled, last, r)
  {
  }

  lemma InitLoad(p: Profile, clock: Clock, from: nat, before: seq<Event>, mid: seq<Event>, log: seq<Event>,
                 loads: seq<Load>,
                 settled: bool, r: Result<(bool, LdError), LdError>)
    requires before <= mid <= log && |before| < |mid| && loads != [] && loads[|loads| - 1].start == |mid|
    requires InitSoFar(p, from, before, loads[..|loads| - 1], settled)
    requires ReadsUnlock(p, mid, |before|, |mid|, settled) && loads[|loads| - 1].end <= |log|
    requires Rejects(LastWord(p, mid))
    requires if r.Err? then LoadEnds(log, loads[|loads| - 1], false, Err(r.error))
             else LoadStands(log, loads[|loads| - 1], r.value.0)
    ensures if r.Err? then InitShows(p, clock, from, log, loads, Err(r.error))
            else InitSoFar(p, from, log, loads, r.value.0)
  {
    hide LastWord;
    assert log[..|before|] == before && log[..|mid|] == mid;
    assert ReadsUnlock(p, log, |before|, |mid|, settled);
    assert ReadRejected(p, from, log, loads);
  }

  /** The last load has just been left to settle. */
  ghost predicate Settling(log: seq<Event>, loads: seq<Load>, done: seq<Load>) {
    && |log| > 0 && log[|log| - 1] == Pause(UPLOAD_SETTLE) && |loads| == |done| + 1
    && loads[..|done|] == done && loads[|done|].end == |log| - 1
  }

  lemma SettledNone(log: seq<Event>, v: Variant)
    ensures Settled(log, v, [])
  {
  }

  lemma SettledMore(log: seq<Event>, log': seq<Event>, v: Variant, loads: seq<Load>)
    requires log <= log' && Settled(log, v, loads)
    ensures Settled(log', v, loads)
  {
  }

  lemma SettledAll(log: seq<Event>, v: Variant, loads: seq<Load>)
    requires Settled(log, v, loads)
    ensures AllSettle(log, v, loads)
  {
  }

  /** The read that follows a settle completes it. */
  lemma Resettled(log: seq<Event>, log': seq<Event>, v: Variant, loads: seq<Load>, done: seq<Load>)
    requires Settled(log, v, done) && Settling(log, loads, done) && Reading(log, log', UnlockCdb(v))
    ensures Settled(log', v, loads)
  {
    SettledMore(log, log', v, done);
    forall l <- loads
      ensures l.end <= |log'| && Settles(log', v, l) && (Went(l.result) ==> log'[l.end] == Pause(UPLOAD_SETTLE))
    {
      if l !in done { assert l.end == |log| - 1 && IsCommand(log'[l.end + 1], UnlockCdb(v)); }
    }
  }

  lemma SettleRefused(log: seq<Event>, v: Variant, done: seq<Load>, load: Load)
    requires Settled(log, v, done) && |log| > 0 && log[|log| - 1] == PauseRefused(UPLOAD_SETTLE)
    requires load.end == |log| - 1
    ensures AllSettle(log, v, done + [load])
  {
  }

  lemma NotGone(log: seq<Event>, v: Variant, done: seq<Load>, load: Load)
    requires Settled(log, v, done) && load.end <= |log| && !Went(load.result)
    ensures Settled(log, v, done + [load])
  {
  }

  // ----- what a load did -----

  /** No single command carries this blob: nothing is sent. */
  predicate Unsendable(p: Profile) {
    p.firmware == [] || |p.firmware| > (if p.variant.A? then 0xFFFFFF else 0xFFFF)
  }

  /** The answer a command got; one a stopped host refused counts as a dead bus. */
  function ReplyOf(e: Event): Reply { if e.Exec? then e.reply else DEAD }

  /** The n-th answer of a span ends it: any failure of the upload, a dead bus later. */
  predicate Breaks(n: nat, r: Reply) { if n == 1 then r.Failed? else r == DEAD }

  /** The commands of a whole span, with their data. */
  function SpanCommands(p: Profile): seq<(Cdb, seq<byte>)> { [(UploadCdb(p), p.firmware)] + Steps(p) }

  /** From `at` on the history holds a span with n commands so far, the last answered by `reply`: all
      reached the drive, in order, and none before the last broke the span. */
  ghost predicate Spanning(p: Profile, log: seq<Event>, at: nat, n: nat, reply: Reply) {
    && 0 < n <= |SpanCommands(p)| && at + n < |log| && log[at] == Begin
    && (forall i :: at < i <= at + n ==> log[i].Exec? && (log[i].cdb, log[i].out) == SpanCommands(p)[i - at - 1])
    && (forall i :: at < i < at + n ==> !Breaks(i - at, log[i].reply))
    && log[at + n].reply == reply
  }

  /** A whole span: it ends when all its commands are sent or one broke it. */
  ghost predicate Spanned(p: Profile, log: seq<Event>, at: nat, n: nat, reply: Reply) {
    && Spanning(p, log, at, n, reply) && at + n + 1 < |log| && log[at + n + 1] == End
    && (n == |SpanCommands(p)| || Breaks(n, reply))
  }

  /** The index of the last unlock read after an upload, counted from zero. */
  function LastTry(v: Variant): nat { if v.A? then 0 else 5 }

  /** An unlock read whose failure is worth another. */
  predicate TryAgain(p: Profile, e: Event) {
    && IsCommand(e, UnlockCdb(p.variant))
    && var r := Judged(p, ReplyOf(e)); r.Err? && !IsTransportFailure(r.error)
  }

  /** The unlock reads from `from` to `to`: they go on until one succeeds, the bus dies or the last try
      is spent; a success before the last try, or of variant A, is read once more. */
  ghost predicate Reads(p: Profile, log: seq<Event>, from: nat, to: nat, deciding: nat, r: Result<(), LdError>) {
    && from <= deciding < to <= |log| && deciding - from <= LastTry(p.variant)
    && (forall i :: from <= i < to ==> IsCommand(log[i], UnlockCdb(p.variant)))
    && (forall i :: from <= i < deciding ==> TryAgain(p, log[i]))
    && r == Judged(p, ReplyOf(log[deciding]))
    && (deciding - from == LastTry(p.variant) || r.Ok? || IsTransportFailure(r.error))
    && to == deciding + 1 + if r.Ok? && (p.variant.A? || deciding - from < LastTry(p.variant)) then 1 else 0
  }

  /** What a load did and returned, read off the history: nothing was sent, the host was stopped before
      the span, a broken span, or a whole span with the unlock reads after it. */
  ghost predicate Loaded(p: Profile, log: seq<Event>, l: Load) {
    l.start <= l.end <= |log| &&
    if Unsendable(p) then l.end == l.start && l.result == Err(UnlockFailed)
    else if l.span == 0 then
      && l.end == l.start + 1 && log[l.start] == BeginRefused
      && l.result == Err(ScsiFailure(TRANSPORT_FAILURE, None))
    else
      && l.start + l.span + 2 <= l.end
      && var reply := ReplyOf(log[l.start + l.span]);
         Spanned(p, log, l.start, l.span, reply) &&
         if Breaks(l.span, reply) then l.end == l.start + l.span + 2 && l.result == Judged(p, reply)
         else Reads(p, log, l.start + l.span + 2, l.end, l.deciding, l.result)
  }

  /** The loads of a history from `from` on: one after the other, and no upload outside them. */
  ghost predicate LoadsOf(p: Profile, from: nat, log: seq<Event>, loads: seq<Load>) {
    && (forall l <- loads :: from <= l.start && Loaded(p, log, l))
    && (forall i, j :: 0 <= i < j < |loads| ==> loads[i].end <= loads[j].start)
    && (forall i :: from <= i < |log| && log[i].Exec? && log[i].cdb == UploadCdb(p) ==>
          exists l <- loads :: l.start <= i < l.end)
  }

  lemma SpanningFirst(p: Profile, was: seq<Event>, log: seq<Event>, reply: Reply)
    requires log == was + [Begin] + [Exec(UploadCdb(p), p.firmware, reply)]
    ensures Spanning(p, log, |was|, 1, reply)
  {
  }

  lemma SpanningNext(p: Profile, log: seq<Event>, log': seq<Event>, at: nat, n: nat, reply: Reply, next: Reply)
    requires Spanning(p, log, at, n, reply) && !Breaks(n, reply) && |log| == at + n + 1 && n <= |Steps(p)|
    requires log' == log + [Exec(Steps(p)[n - 1].0, Steps(p)[n - 1].1, next)]
    ensures Spanning(p, log', at, n + 1, next)
  {
    hide Steps;
    assert SpanCommands(p)[n] == Steps(p)[n - 1];
  }

  lemma SpanningEnd(p: Profile, log: seq<Event>, log': seq<Event>, at: nat, n: nat, reply: Reply)
    requires Spanning(p, log, at, n, reply) && |log| == at + n + 1 && log' == log + [End]
    requires n == |SpanCommands(p)| || Breaks(n, reply)
    ensures Spanned(p, log', at, n, reply)
  {
    hide SpanCommands;
  }

  lemma JudgedFailure(p: Profile, reply: Reply)
    ensures reply.Failed? ==> Judged(p, reply) == Err(ScsiFailure(reply.failStatus, reply.failSense))
  {
  }

  lemma LoadedNot(p: Profile, log: seq<Event>, l: Load)
    requires l.start <= l.end == |log| && l.span == 0
    requires if Unsendable(p) then l.end == l.start && l.result == Err(UnlockFailed)
             else l.end == l.start + 1 && log[l.start] == BeginRefused
                  && l.result == Err(ScsiFailure(TRANSPORT_FAILURE, None))
    ensures Loaded(p, log, l)
  {
  }

  lemma LoadedBroken(p: Profile, log: seq<Event>, l: Load, reply: Reply)
    requires !Unsendable(p) && l.span > 0 && l.end == |log| == l.start + l.span + 2
    requires Spanned(p, log, l.start, l.span, reply) && Breaks(l.span, reply) && l.result == Judged(p, reply)
    ensures Loaded(p, log, l)
  {
  }

  lemma LoadedWhole(p: Profile, log: seq<Event>, log': seq<Event>, l: Load, reply: Reply)
    requires !Unsendable(p) && l.span > 0 && |log| == l.start + l.span + 2 && log <= log' && l.end == |log'|
    requires Spanned(p, log, l.start, l.span, reply) && !Breaks(l.span, reply)
    requires Reads(p, log', |log|, l.end, l.deciding, l.result)
    ensures Loaded(p, log', l)
  {
    SpannedMore(p, log, log', l.start, l.span, reply);
    hide Reads;
  }

  lemma SpannedMore(p: Profile, log: seq<Event>, log': seq<Event>, at: nat, n: nat, reply: Reply)
    requires Spanned(p, log, at, n, reply) && log <= log'
    ensures Spanned(p, log', at, n, reply)
  {
    hide SpanCommands;
  }

  lemma LoadedMore(p: Profile, log: seq<Event>, log': seq<Event>, l: Load)
    requires Loaded(p, log, l) && log <= log'
    ensures Loaded(p, log', l)
  {
    if !Unsendable(p) && l.span > 0 { SpannedMore(p, log, log', l.start, l.span, ReplyOf(log[l.start + l.span])); }
    hide Spanned;
  }

  lemma LoadsNone(p: Profile, log: seq<Event>)
    ensures LoadsOf(p, |log|, log, [])
  {
  }

  /** Where the count of a command stands still, the command was not sent. */
  lemma {:induction false} CountStill(was: seq<Event>, log: seq<Event>, cdb: Cdb)
    requires was <= log
    ensures Count(log, cdb) >= Count(was, cdb)
    ensures Count(log, cdb) == Count(was, cdb) ==>
              forall i :: |was| <= i < |log| ==> !(log[i].Exec? && log[i].cdb == cdb)
  {
    if |was| < |log| {
      CountStill(was, log[..|log| - 1], cdb);
      forall i | |was| <= i < |log| - 1 ensures log[i] == log[..|log| - 1][i] {}
    } else {
      assert was == log;
    }
  }

  lemma LoadsMore(p: Profile, from: nat, log: seq<Event>, log': seq<Event>, loads: seq<Load>)
    requires from <= |log| && log <= log' && LoadsOf(p, from, log, loads)
    requires Count(log', UploadCdb(p)) == Count(log, UploadCdb(p))
    ensures LoadsOf(p, from, log', loads)
  {
    CountStill(log, log', UploadCdb(p));
    hide Loaded;
    forall l <- loads ensures Loaded(p, log', l) { LoadedMore(p, log, log', l); }
  }

  lemma LoadsAdd(p: Profile, from: nat, log: seq<Event>, log': seq<Event>, loads: seq<Load>, l: Load)
    requires from <= |log| && log <= log' && LoadsOf(p, from, log, loads)
    requires l.start == |log| && l.end == |log'| && Loaded(p, log', l)
    ensures LoadsOf(p, from, log', loads + [l])
  {
    LoadedInside(p, log, loads);
    hide Loaded;
    forall l <- loads ensures Loaded(p, log', l) { LoadedMore(p, log, log', l); }
    forall i | from <= i < |log'| && log'[i].Exec? && log'[i].cdb == UploadCdb(p)
      ensures exists l' <- loads + [l] :: l'.start <= i < l'.end
    {
      if i >= |log| { assert l in loads + [l]; } else {
        assert log[i] == log'[i];
        var l' :| l' in loads && l'.start <= i < l'.end;
        assert l' in loads + [l];
      }
    }
  }

  lemma LoadedInside(p: Profile, log: seq<Event>, loads: seq<Load>)
    requires forall l <- loads :: Loaded(p, log, l)
    ensures forall l <- loads :: l.end <= |log|
  {
  }

  lemma DifferentCommands(p: Profile)
    ensures UnlockCdb(p.variant) != UploadCdb(p)
    ensures UploadCdb(p) !in {TUR, START_UNIT} && UnlockCdb(p.variant) !in {TUR, START_UNIT}
  {
    assert UnlockCdb(p.variant)[0] != UploadCdb(p)[0];
  }

  lemma ReadingCounts(was: seq<Event>, log: seq<Event>, p: Profile)
    requires Reading(was, log, UnlockCdb(p.variant))
    ensures was <= log && Count(log, UploadCdb(p)) == Count(was, UploadCdb(p))
  {
    DifferentCommands(p);
  }

  lemma PollingKeeps(was: seq<Event>, log: seq<Event>, p: Profile)
    requires Polling(was, log)
    ensures was <= log && Count(log, UploadCdb(p)) == Count(was, UploadCdb(p))
    ensures Last(log, UnlockCdb(p.variant)) == Last(was, UnlockCdb(p.variant))
  {
    DifferentCommands(p);
  }

  lemma WaitCounts(was: seq<Event>, log: seq<Event>, cdb: Cdb)
    requires |log| == |was| + 1 && was <= log && !log[|was|].Exec?
    ensures Count(log, cdb) == Count(was, cdb) && Last(log, cdb) == Last(was, cdb)
  {
    assert log == was + [log[|was|]];
    NoCommand(was, log[|was|]);
  }

  /** The commands after the upload inside the span, with their data: the verify read of variant A, or
      metadata read, extra write and vendor verify of variant B. Their answers are advisory. */
  function Steps(p: Profile): seq<(Cdb, seq<byte>)> {
    if p.variant.A? then [([0x3C, 1, 0x45, 0, 0, 0, 0, 0, 4, 0], [])]
    else [([0x3C, 6, 0, 0, 0x30, 0, 0, 0, 0x10, 0], []), ([0x3B, 6, 0, 0, 0, 0, 0, 0, 0x10, 0], Zeros(16)),
      (p.verifyCdb, [])]
  }

  /** The captured vendor commands are not the unlock read or the upload. */
  predicate WellFormed(p: Profile) {
    && |p.signature| == 4 && p.verifyCdb != UploadCdb(p)
    && (p.readVid.Some? ==> p.readVid.value !in {UnlockCdb(p.variant), UploadCdb(p)})
  }

  lemma StepsDiffer(p: Profile, i: nat)
    requires WellFormed(p) && i < |Steps(p)|
    ensures Steps(p)[i].0 != UploadCdb(p)
  {
    var cdb := Steps(p)[i].0;
    if p.variant.A? || i == 0 { assert cdb[0] != UploadCdb(p)[0]; }
    else if i == 1 { assert cdb[0] != UploadCdb(p)[0]; }
  }

  lemma NoRestart(e: LdError)
    requires IsTransportFailure(e)
    ensures !IsRestartSense(e) && e != SignatureMismatch
  {
  }

  /** The drive was only asked for the unlock read, first thing, with pauses of a second in between. */
  ghost predicate Reading(was: seq<Event>, log: seq<Event>, cdb: Cdb) {
    && was < log && IsCommand(log[|was|], cdb) && Others(was, log, cdb)
    && forall i :: |was| <= i < |log| ==>
       IsCommand(log[i], cdb) || log[i] in {Pause(RECONFIRM_PAUSE), PauseRefused(RECONFIRM_PAUSE)}
  }

  predicate IsCommand(e: Event, cdb: Cdb) { e == Event.Refused(cdb) || (e.Exec? && e.cdb == cdb) }

  lemma ReadingRead(was: seq<Event>, before: seq<Event>, log: seq<Event>, cdb: Cdb, reply: Reply)
    requires before == was || Reading(was, before, cdb)
    requires Sent(before, log, cdb, [], reply)
    ensures Reading(was, log, cdb)
  {
    SentCounts(before, log, cdb, [], reply);
  }

  lemma ReadingWait(was: seq<Event>, before: seq<Event>, log: seq<Event>, cdb: Cdb)
    requires Reading(was, before, cdb)
    requires log in {before + [Pause(RECONFIRM_PAUSE)], before + [PauseRefused(RECONFIRM_PAUSE)]}
    ensures Reading(was, log, cdb)
  {
    NoCommand(before, log[|before|]);
  }

  // ----- the readiness poll -----

  const TUR: Cdb := [0, 0, 0, 0, 0, 0]
  const START_UNIT: Cdb := [0x1B, 0, 0, 0, 1, 0]

  datatype MediaReady =
    | Ready | NoMedium | Incompatible(asc: byte, ascq: byte)
    | DriveError(key: byte, asc: byte, ascq: byte) | Stalled(key: byte, asc: byte, ascq: byte)

  /** The sense a reply carries, in either of the forms a transport delivers it. */
  function SenseOf(r: Reply): Option<Sense> {
    match r
    case Answered(_, _, sense, _) => Some(sense)
    case Failed(_, sense) => sense
  }

  predicate IsReady(r: Reply) { r.Answered? && r.status == 0 }

  /** The not-ready answers to the polls of a history, in order. */
  function Polled(log: seq<Event>): seq<Sense> {
    if log == [] then [] else
      var e := log[|log| - 1];
      Polled(log[..|log| - 1]) + if e.Exec? && e.cdb == TUR && !IsReady(e.reply) then AnswerOf(e) else []
  }

  /** The answer of one poll: the sense of a command that reached the drive. */
  function AnswerOf(e: Event): seq<Sense> {
    if e.Exec? && SenseOf(e.reply).Some? then [SenseOf(e.reply).value] else []
  }

  const BECOMING_READY: Sense := Sense(2, 4, 1)
  const INITIALIZE: Sense := Sense(2, 4, 2)

  predicate IsEmpty(s: Sense) { s.key == 2 && s.asc == 0x3A }

  /** The answers that end the poll at once, an empty drive's apart. */
  function Terminal(s: Sense): Option<MediaReady> {
    if s.key == 2 && s.asc == 0x30 then Some(Incompatible(0x30, s.ascq))
    else if 3 <= s.key <= 5 then Some(DriveError(s.key, s.asc, s.ascq))
    else None
  }

  /** How many answers at the end say that no medium is present. */
  function EmptyRun(answers: seq<Sense>): nat {
    if answers == [] || !IsEmpty(answers[|answers| - 1]) then 0 else EmptyRun(answers[..|answers| - 1]) + 1
  }

  lemma {:induction false} EmptyRunMeaning(answers: seq<Sense>, n: nat)
    requires n <= EmptyRun(answers)
    ensures n <= |answers| && forall i :: |answers| - n <= i < |answers| ==> IsEmpty(answers[i])
  {
    if n > 0 {
      EmptyRunMeaning(answers[..|answers| - 1], n - 1);
      assert forall i :: |answers| - n <= i < |answers| - 1 ==> answers[i] == answers[..|answers| - 1][i];
    }
  }

  ghost function AllSenses(): set<Sense> {
    set k: byte, a: byte, q: byte | 0 <= k < 256 && 0 <= a < 256 && 0 <= q < 256 :: Sense(k, a, q)
  }

  ghost function Unheard(seen: seq<Sense>): set<Sense> { AllSenses() - (set a | a in seen) }

  /** A new answer leaves fewer unheard ones. */
  lemma Shrinks(seen: seq<Sense>, a: Sense)
    requires a !in seen && a in AllSenses()
    ensures Unheard(seen + [a]) < Unheard(seen)
  {
    assert a in Unheard(seen) && a !in Unheard(seen + [a]);
  }

  /** Only polls, the one start and the pauses of half a second. */
  ghost predicate Polling(was: seq<Event>, log: seq<Event>) {
    && was <= log
    && (forall u :: u != TUR && u != START_UNIT ==> Count(log, u) == Count(was, u) && Last(log, u) == Last(was, u))
    && forall i :: |was| <= i < |log| ==>
         IsCommand(log[i], TUR) || IsCommand(log[i], START_UNIT)
           || log[i] in {Pause(READY_POLL), PauseRefused(READY_POLL)}
  }

  lemma PollCommandsDiffer()
    ensures TUR != START_UNIT
  {
    assert TUR[0] != START_UNIT[0];
  }

  lemma PollingSent(was: seq<Event>, before: seq<Event>, log: seq<Event>, cdb: Cdb, reply: Reply)
    requires Polling(was, before) && cdb in {TUR, START_UNIT} && Sent(before, log, cdb, [], reply)
    ensures before <= log && Polling(was, log)
    ensures Count(log, START_UNIT) <= Count(before, START_UNIT) + if cdb == TUR then 0 else 1
    ensures cdb == TUR ==> Count(log, START_UNIT) == Count(before, START_UNIT)
    ensures Polled(log) == Polled(before) + if cdb == TUR && !IsReady(reply) then AnswerOf(log[|before|]) else []
  {
    PollingFrame(was, before, log, cdb, reply);
    PolledSent(before, log, cdb, reply);
    SentCounts(before, log, cdb, [], reply);
    PollCommandsDiffer();
  }

  lemma PollingFrame(was: seq<Event>, before: seq<Event>, log: seq<Event>, cdb: Cdb, reply: Reply)
    requires Polling(was, before) && cdb in {TUR, START_UNIT} && Sent(before, log, cdb, [], reply)
    ensures Polling(was, log)
  {
    hide Count; hide Last;
    SentCounts(before, log, cdb, [], reply);
  }

  lemma PolledSent(before: seq<Event>, log: seq<Event>, cdb: Cdb, reply: Reply)
    requires cdb in {TUR, START_UNIT} && Sent(before, log, cdb, [], reply)
    ensures Polled(log) == Polled(before) + if cdb == TUR && !IsReady(reply) then AnswerOf(log[|before|]) else []
  {
    PollCommandsDiffer();
    assert log[..|log| - 1] == before;
  }

  lemma PollingWait(was: seq<Event>, before: seq<Event>, log: seq<Event>)
    requires Polling(was, before) && log in {before + [Pause(READY_POLL)], before + [PauseRefused(READY_POLL)]}
    ensures before <= log && Polling(was, log)
    ensures Count(log, START_UNIT) == Count(before, START_UNIT) && Polled(log) == Polled(before)
  {
    NoCommand(before, log[|before|]);
    assert log[..|log| - 1] == before;
  }

  /** The last thing that happened is a poll answered ready. */
  ghost predicate EndsReady(log: seq<Event>) {
    |log| > 0 && var e := log[|log| - 1]; e.Exec? && e.cdb == TUR && IsReady(e.reply)
  }

  /** Where the poll last made progress: how many answers had come by then, how long the history was,
      and what the clock said. */
  datatype Progress = Progress(answers: nat, events: nat, at: nat)

  /** The progress is a moment of this poll: the history had that length, the clock that reading, and
      exactly that many answers had come. */
  ghost predicate Happened(clock: Clock, was: seq<Event>, log: seq<Event>, answers: seq<Sense>, since: Progress) {
    && |was| <= since.events <= |log| && since.answers <= |answers|
    && since.at == clock(log[..since.events])
    && Polled(log[..since.events]) == Polled(was) + answers[..since.answers]
  }

  /** What each outcome means, over the answers the drive gave. */
  ghost predicate Explains(r: MediaReady, answers: seq<Sense>, now: nat, since: Progress) {
    var n := |answers|;
    match r
    case Ready => true
    case NoMedium => n >= 10 && (forall i :: n - 10 <= i < n ==> IsEmpty(answers[i])) && BECOMING_READY !in answers
    case Incompatible(asc, ascq) => n > 0 && answers[n - 1] == Sense(2, asc, ascq) && asc == 0x30
    case DriveError(key, asc, ascq) => n > 0 && answers[n - 1] == Sense(key, asc, ascq) && 3 <= key <= 5
    case Stalled(key, asc, ascq) =>
      && n > 0 && answers[n - 1] == Sense(key, asc, ascq)
      && now >= since.at + READY_STALL && since.answers < n
      && forall i :: since.answers <= i < n ==> answers[i] in answers[..since.answers]
  }

  // ----- the poll as an automaton -----

  /** What the poll does next: ask, start the unit, wait, or nothing more. */
  datatype Due = Asking | Starting | Resting | Ended(result: Result<MediaReady, LdError>) | Astray

  /** The answers heard, whether the unit was started, and where the last progress was made. */
  datatype PollState = PollState(answers: seq<Sense>, started: bool, since: Progress, due: Due)

  /** The answers that end the poll whenever they come: no medium ten times in a row in a drive that was
      never becoming ready, the wrong medium, or an error of the drive. */
  ghost function Verdict(answers: seq<Sense>): Option<MediaReady>
    requires answers != []
  {
    var n := |answers|;
    if n >= 10 && BECOMING_READY !in answers && forall i :: n - 10 <= i < n ==> IsEmpty(answers[i]) then Some(NoMedium)
    else Terminal(answers[n - 1])
  }

  /** After an answer without a verdict, `events` long into the history: an answer not heard before is
      progress; a minute without any ends the poll. */
  ghost function Heeded(s: PollState, events: nat, now: nat): PollState
    requires s.answers != []
  {
    var n := |s.answers| - 1; var a := s.answers[n];
    if a !in s.answers[..n] then s.(since := Progress(n + 1, events, now), due := Resting)
    else if now >= s.since.at + READY_STALL then s.(due := Ended(Ok(Stalled(a.key, a.asc, a.ascq))))
    else s.(due := Resting)
  }

  /** One poll, answered by `reply`. */
  ghost function Asked(s: PollState, reply: Reply, events: nat, now: nat): PollState {
    if IsReady(reply) then s.(due := Ended(Ok(Ready)))
    else if SenseOf(reply).None? then s.(due := Ended(Err(ScsiFailure(reply.failStatus, None))))
    else
      var a := SenseOf(reply).value;
      var t := s.(answers := s.answers + [a]);
      if Verdict(t.answers).Some? then t.(due := Ended(Ok(Verdict(t.answers).value)))
      else if a == INITIALIZE && !s.started
      then t.(due := Starting, since := Progress(|t.answers|, events, now))
      else Heeded(t, events, now)
  }

  /** The one START STOP UNIT: only a failure without a sense counts against it. */
  ghost function Started(s: PollState, reply: Reply, events: nat, now: nat): PollState
    requires s.answers != []
  {
    var t := s.(started := true);
    if reply.Failed? && reply.failSense.None? then t.(due := Ended(Err(ScsiFailure(reply.failStatus, None))))
    else Heeded(t, events, now)
  }

  /** The command without data was issued. */
  predicate Sends(e: Event, cdb: Cdb) { IsCommand(e, cdb) && (e.Exec? ==> e.out == []) }

  ghost function PollStep(s: PollState, e: Event, events: nat, now: nat): PollState {
    match s.due
    case Asking => if Sends(e, TUR) then Asked(s, ReplyOf(e), events, now) else s.(due := Astray)
    case Starting =>
      if Sends(e, START_UNIT) && s.answers != [] then Started(s, ReplyOf(e), events, now) else s.(due := Astray)
    case Resting =>
      if e == Pause(READY_POLL) then s.(due := Asking)
      else if e == PauseRefused(READY_POLL) then s.(due := Ended(Err(ScsiFailure(TRANSPORT_FAILURE, None))))
      else s.(due := Astray)
    case _ => s.(due := Astray)
  }

  /** The state the history since `was` has led to. */
  ghost function PollOf(clock: Clock, was: seq<Event>, log: seq<Event>): PollState
    decreases |log|
  {
    if |log| <= |was| then PollState([], false, Progress(0, |was|, clock(was)), Asking)
    else PollStep(PollOf(clock, was, log[..|log| - 1]), log[|log| - 1], |log|, clock(log))
  }

  lemma PollNone(clock: Clock, was: seq<Event>)
    ensures PollOf(clock, was, was) == PollState([], false, Progress(0, |was|, clock(was)), Asking)
  {
  }

  lemma PollSent(clock: Clock, was: seq<Event>, log: seq<Event>, log': seq<Event>, cdb: Cdb, reply: Reply)
    requires was <= log && Sent(log, log', cdb, [], reply)
    ensures var s := PollOf(clock, was, log);
      && (s.due.Asking? && cdb == TUR ==> PollOf(clock, was, log') == Asked(s, reply, |log'|, clock(log')))
      && (s.due.Starting? && cdb == START_UNIT && s.answers != [] ==>
            PollOf(clock, was, log') == Started(s, reply, |log'|, clock(log')))
  {
    hide Asked; hide Started;
    assert log'[..|log|] == log;
  }

  lemma PollRested(clock: Clock, was: seq<Event>, log: seq<Event>, log': seq<Event>)
    requires was <= log && PollOf(clock, was, log).due.Resting? && |log'| == |log| + 1 && log <= log'
    requires log'[|log|] in {Pause(READY_POLL), PauseRefused(READY_POLL)}
    ensures PollOf(clock, was, log') == PollOf(clock, was, log).(
      due := if log'[|log|] == Pause(READY_POLL) then Asking else Ended(Err(ScsiFailure(TRANSPORT_FAILURE, None))))
  {
    hide Asked; hide Started; hide IsCommand;
    assert log'[..|log|] == log;
  }

  /** What an answer comes to, as the loop decides it. */
  lemma AskedMeans(s: PollState, reply: Reply, events: nat, now: nat, emptyRun: nat)
    requires !IsReady(reply) && SenseOf(reply).Some?
    requires emptyRun == EmptyRun(s.answers + [SenseOf(reply).value])
    ensures var a := SenseOf(reply).value; var answers := s.answers + [a];
      Asked(s, reply, events, now) ==
        if BECOMING_READY !in answers && emptyRun >= 10
        then PollState(answers, s.started, s.since, Ended(Ok(NoMedium)))
        else if Terminal(a).Some? then PollState(answers, s.started, s.since, Ended(Ok(Terminal(a).value)))
        else if a == INITIALIZE && !s.started
        then PollState(answers, false, Progress(|answers|, events, now), Starting)
        else Heeded(PollState(answers, s.started, s.since, s.due), events, now)
  {
    hide Heeded;
    EmptyRunExact(s.answers + [SenseOf(reply).value], 10);
  }

  lemma AskedReady(s: PollState, reply: Reply, events: nat, now: nat)
    ensures IsReady(reply) ==> Asked(s, reply, events, now) == s.(due := Ended(Ok(Ready)))
    ensures !IsReady(reply) && SenseOf(reply).None? ==>
              Asked(s, reply, events, now) == s.(due := Ended(Err(ScsiFailure(reply.failStatus, None))))
  {
  }

  lemma StartedMeans(s: PollState, reply: Reply, events: nat, now: nat)
    requires s.answers != []
    ensures Started(s, reply, events, now) ==
      if reply.Failed? && reply.failSense.None?
      then s.(started := true, due := Ended(Err(ScsiFailure(reply.failStatus, None))))
      else Heeded(s.(started := true), events, now)
  {
  }

  /** The last answer is new exactly if it is not among those already seen. */
  lemma HeededMeans(s: PollState, seen: seq<Sense>, events: nat, now: nat)
    requires s.answers != [] && forall a :: a in seen <==> a in s.answers[..|s.answers| - 1]
    ensures var a := s.answers[|s.answers| - 1];
      Heeded(s, events, now) ==
        if a !in seen then s.(since := Progress(|s.answers|, events, now), due := Resting)
        else if now >= s.since.at + READY_STALL then s.(due := Ended(Ok(Stalled(a.key, a.asc, a.ascq))))
        else s.(due := Resting)
  {
  }

  // ----- what the loop relies on -----

  /** The poll has got this far. */
  ghost predicate At(clock: Clock, was: seq<Event>, log: seq<Event>, answers: seq<Sense>, started: bool,
                     since: Progress, due: Due)
  {
    was <= log && PollOf(clock, was, log) == PollState(answers, started, since, due)
  }

  /** The last answer has been heeded, `seen` holding those before it. */
  ghost predicate AtHeeded(clock: Clock, was: seq<Event>, log: seq<Event>, answers: seq<Sense>, started: bool,
                           since: Progress, seen: seq<Sense>)
    requires answers != []
  {
    var a := answers[|answers| - 1];
    if a !in seen
    then At(clock, was, log, answers, started, Progress(|answers|, |log|, clock(log)), Resting)
    else if clock(log) >= since.at + READY_STALL
    then At(clock, was, log, answers, started, since, Ended(Ok(Stalled(a.key, a.asc, a.ascq))))
    else At(clock, was, log, answers, started, since, Resting)
  }

  lemma AtStart(clock: Clock, was: seq<Event>)
    ensures At(clock, was, was, [], false, Progress(0, |was|, clock(was)), Asking)
  {
    PollNone(clock, was);
  }

  lemma AtReady(clock: Clock, was: seq<Event>, log: seq<Event>, log': seq<Event>, answers: seq<Sense>, started: bool,
                since: Progress, reply: Reply)
    requires At(clock, was, log, answers, started, since, Asking) && Sent(log, log', TUR, [], reply)
    ensures IsReady(reply) ==> At(clock, was, log', answers, started, since, Ended(Ok(Ready)))
    ensures !IsReady(reply) && SenseOf(reply).None? ==>
              At(clock, was, log', answers, started, since, Ended(Err(ScsiFailure(reply.failStatus, None))))
  {
    hide PollOf; hide Asked;
    PollSent(clock, was, log, log', TUR, reply);
    AskedReady(PollOf(clock, was, log), reply, |log'|, clock(log'));
  }

  lemma AtAnswer(clock: Clock, was: seq<Event>, log: seq<Event>, log': seq<Event>, answers: seq<Sense>, started: bool,
                 since: Progress, reply: Reply, a: Sense, emptyRun: nat, seen: seq<Sense>)
    requires At(clock, was, log, answers, started, since, Asking) && Sent(log, log', TUR, [], reply)
    requires !IsReady(reply) && SenseOf(reply) == Some(a) && emptyRun == EmptyRun(answers + [a])
    requires forall x :: x in seen <==> x in answers
    ensures
      if BECOMING_READY !in answers + [a] && emptyRun >= 10
      then At(clock, was, log', answers + [a], started, since, Ended(Ok(NoMedium)))
      else if Terminal(a).Some?
      then At(clock, was, log', answers + [a], started, since, Ended(Ok(Terminal(a).value)))
      else if a == INITIALIZE && !started
      then At(clock, was, log', answers + [a], false, Progress(|answers| + 1, |log'|, clock(log')), Starting)
      else AtHeeded(clock, was, log', answers + [a], started, since, seen)
  {
    hide PollOf; hide Asked; hide Heeded; hide Terminal; hide EmptyRun; hide IsReady;
    PollSent(clock, was, log, log', TUR, reply);
    AskedMeans(PollOf(clock, was, log), reply, |log'|, clock(log'), emptyRun);
    assert (answers + [a])[..|answers|] == answers;
    HeededMeans(PollState(answers + [a], started, since, Asking), seen, |log'|, clock(log'));
  }

  lemma AtStarted(clock: Clock, was: seq<Event>, log: seq<Event>, log': seq<Event>, answers: seq<Sense>,
                  since: Progress, reply: Reply, seen: seq<Sense>)
    requires At(clock, was, log, answers, false, since, Starting) && Sent(log, log', START_UNIT, [], reply)
    requires answers != [] && forall x :: x in seen <==> x in answers[..|answers| - 1]
    ensures if reply.Failed? && reply.failSense.None?
            then At(clock, was, log', answers, true, since, Ended(Err(ScsiFailure(reply.failStatus, None))))
            else AtHeeded(clock, was, log', answers, true, since, seen)
  {
    hide PollOf; hide Started; hide Heeded;
    PollSent(clock, was, log, log', START_UNIT, reply);
    StartedMeans(PollOf(clock, was, log), reply, |log'|, clock(log'));
    HeededMeans(PollState(answers, true, since, Starting), seen, |log'|, clock(log'));
  }

  lemma AtRest(clock: Clock, was: seq<Event>, log: seq<Event>, log': seq<Event>, answers: seq<Sense>, started: bool,
               since: Progress, r: Result<(), LdError>)
    requires At(clock, was, log, answers, started, since, Resting)
    requires log' == log + [if r.Ok? then Pause(READY_POLL) else PauseRefused(READY_POLL)]
    requires r.Err? ==> IsTransportFailure(r.error)
    ensures At(clock, was, log', answers, started, since, if r.Ok? then Asking else Ended(Err(r.error)))
  {
    hide PollOf;
    PollRested(clock, was, log, log');
  }

  lemma AtEnd(clock: Clock, was: seq<Event>, log: seq<Event>, answers: seq<Sense>, started: bool, since: Progress,
              r: Result<MediaReady, LdError>)
    requires At(clock, was, log, answers, started, since, Ended(r))
    ensures was <= log && PollEnds(clock, was, log, answers, since, r)
  {
  }

  /** Ten empty answers at the end, and only they, make the counter ten. */
  lemma {:induction false} EmptyRunExact(answers: seq<Sense>, n: nat)
    ensures EmptyRun(answers) >= n <==>
              n <= |answers| && forall i :: |answers| - n <= i < |answers| ==> IsEmpty(answers[i])
  {
    if n <= EmptyRun(answers) { EmptyRunMeaning(answers, n); }
    if n <= |answers| && forall i :: |answers| - n <= i < |answers| ==> IsEmpty(answers[i]) {
      EmptyRunLeast(answers, n);
    }
  }

  lemma {:induction false} EmptyRunLeast(answers: seq<Sense>, n: nat)
    requires n <= |answers| && forall i :: |answers| - n <= i < |answers| ==> IsEmpty(answers[i])
    ensures EmptyRun(answers) >= n
  {
    if n > 0 { EmptyRunLeast(answers[..|answers| - 1], n - 1); }
  }

  /** Poll until the drive is ready or will not be. There is no total cap: each round either hears an
      answer not heard before, spends the one START STOP UNIT, or uses up the minute of stall. */
  method AwaitMediaReady(t: Transport, clock: Clock)
    returns (r: Result<MediaReady, LdError>, ghost answers: seq<Sense>, ghost since: Progress)
    requires Runs(clock)
    modifies t
    ensures Polling(old(t.world.log), t.world.log) && t.world.critical == old(t.world.critical)
    ensures Count(t.world.log, START_UNIT) <= Count(old(t.world.log), START_UNIT) + 1
    ensures Polled(t.world.log) == Polled(old(t.world.log)) + answers
    ensures Happened(clock, old(t.world.log), t.world.log, answers, since)
    ensures r.Ok? ==> Explains(r.value, answers, clock(t.world.log), since)
    ensures r.Ok? ==> Count(t.world.log[..since.events], START_UNIT) == Count(t.world.log, START_UNIT)
    ensures r == Ok(Ready) ==> EndsReady(t.world.log)
    ensures r.Err? ==> Senseless(r.error)
    ensures PollEnds(clock, old(t.world.log), t.world.log, answers, since, r)
  {
    hide Count; hide Polled; hide Polling; hide AllSenses; hide Unheard; hide EmptyRun; hide Explains;
    hide Happened; hide Terminal; hide EndsReady; hide IsReady; hide Sound; hide At; hide PollEnds; hide PollOf;
    ghost var was := t.world.log;
    AtStart(clock, was);
    EmptyRunNone();
    var seen: seq<Sense> := [];
    var lastProgress := clock(t.world.log);
    var startSent, emptyRun, becomingReadySeen := false, 0, false;
    answers, since := [], Progress(0, |was|, lastProgress);
    while true
      invariant t.world.critical == old(t.world.critical) && since.at == lastProgress
      invariant At(clock, was, t.world.log, answers, startSent, since, Asking)
      invariant emptyRun == EmptyRun(answers) && (becomingReadySeen <==> BECOMING_READY in answers)
      invariant forall a :: a in seen <==> a in answers
      decreases Unheard(seen), !startSent,
                if lastProgress + READY_STALL > clock(t.world.log) then lastProgress + READY_STALL - clock(t.world.log)
                else 0
    {
      ghost var log := t.world.log;
      var reply := Send(t, TUR, []);
      AtReady(clock, was, log, t.world.log, answers, startSent, since, reply);
      if IsReady(reply) { r := Ok(Ready); break; }
      if SenseOf(reply).None? { r := Err(ScsiFailure(reply.failStatus, None)); break; }
      var answer := SenseOf(reply).value;
      EmptyRunStep(answers, answer);
      emptyRun := if IsEmpty(answer) then emptyRun + 1 else 0;
      becomingReadySeen := becomingReadySeen || answer == BECOMING_READY;
      AtAnswer(clock, was, log, t.world.log, answers, startSent, since, reply, answer, emptyRun, seen);
      assert (answers + [answer])[..|answers|] == answers;
      answers := answers + [answer];
      if !becomingReadySeen && emptyRun >= 10 { r := Ok(NoMedium); break; }
      if Terminal(answer).Some? { r := Ok(Terminal(answer).value); break; }
      if answer == INITIALIZE && !startSent {
        startSent := true;
        lastProgress := clock(t.world.log);
        since := Progress(|answers|, |t.world.log|, lastProgress);
        log := t.world.log;
        var unit := Send(t, START_UNIT, []);
        AtStarted(clock, was, log, t.world.log, answers, since, unit, seen);
        if unit.Failed? && unit.failSense.None? { r := Err(ScsiFailure(unit.failStatus, None)); break; }
      }
      if answer !in seen {
        SenseListed(answer);
        Shrinks(seen, answer);
        seen := seen + [answer];
        lastProgress := clock(t.world.log);
        since := Progress(|answers|, |t.world.log|, lastProgress);
      } else if clock(t.world.log) - lastProgress >= READY_STALL {
        r := Ok(Stalled(answer.key, answer.asc, answer.ascq));
        break;
      }
      log := t.world.log;
      var waited := Wait(t, READY_POLL);
      AtRest(clock, was, log, t.world.log, answers, startSent, since, waited);
      if waited.Err? { r := Err(waited.error); break; }
    }
    AtEnd(clock, was, t.world.log, answers, startSent, since, r);
    PollMeaning(clock, was, t.world.log);
    PollFinished(clock, was, t.world.log, answers, since, r);
  }

  lemma PollFinished(clock: Clock, was: seq<Event>, log: seq<Event>, answers: seq<Sense>, since: Progress,
                     r: Result<MediaReady, LdError>)
    requires Sound(clock, was, log, PollOf(clock, was, log)) && PollEnds(clock, was, log, answers, since, r)
    ensures Polling(was, log) && Polled(log) == Polled(was) + answers && Happened(clock, was, log, answers, since)
    ensures Count(log, START_UNIT) <= Count(was, START_UNIT) + 1
    ensures r.Ok? ==> Explains(r.value, answers, clock(log), since)
    ensures r.Ok? ==> since.events <= |log| && Count(log[..since.events], START_UNIT) == Count(log, START_UNIT)
    ensures r == Ok(Ready) ==> EndsReady(log)
    ensures r.Err? ==> Senseless(r.error)
  {
    hide Count; hide Polled; hide Polling; hide Happened; hide Explains; hide PollOf; hide EndsReady;
  }

  lemma HappenedNow(clock: Clock, was: seq<Event>, log: seq<Event>, answers: seq<Sense>)
    requires was <= log && Polled(log) == Polled(was) + answers
    ensures Happened(clock, was, log, answers, Progress(|answers|, |log|, clock(log)))
  {
    assert log[..|log|] == log && answers[..|answers|] == answers;
  }

  lemma HappenedLater(clock: Clock, was: seq<Event>, log: seq<Event>, log': seq<Event>, answers: seq<Sense>,
      since: Progress)
    requires Happened(clock, was, log, answers, since) && log <= log'
    ensures Happened(clock, was, log', answers, since) && log'[..since.events] == log[..since.events]
  {
    assert log'[..since.events] == log[..since.events];
  }

  lemma HappenedAnswer(clock: Clock, was: seq<Event>, log: seq<Event>, answers: seq<Sense>, a: Sense, since: Progress)
    requires Happened(clock, was, log, answers, since)
    ensures Happened(clock, was, log, answers + [a], since)
  {
    assert (answers + [a])[..since.answers] == answers[..since.answers];
  }

  /** The poll has come to its end with this result, these answers and that last progress. */
  ghost predicate PollEnds(clock: Clock, was: seq<Event>, log: seq<Event>, answers: seq<Sense>, since: Progress,
                           r: Result<MediaReady, LdError>)
  {
    var s := PollOf(clock, was, log);
    s.due == Ended(r) && s.answers == answers && s.since == since
  }

  /** Every answer since the last progress had been heard before it. */
  ghost predicate Repeats(answers: seq<Sense>, upTo: nat) {
    upTo <= |answers| && forall i :: upTo <= i < |answers| ==> answers[i] in answers[..upTo]
  }

  /** What holds of a poll on its way, and what its end means. */
  ghost predicate Sound(clock: Clock, was: seq<Event>, log: seq<Event>, s: PollState) {
    s.due == Astray ||
    (&& Polling(was, log) && Polled(log) == Polled(was) + s.answers && Happened(clock, was, log, s.answers, s.since)
     && Count(log, START_UNIT) <= Count(was, START_UNIT) + (if s.started then 1 else 0)
     && match s.due
        case Ended(r) =>
          if r.Ok? then Explains(r.value, s.answers, clock(log), s.since) && Unmoved(log, s.since)
                        && (r.value.Ready? ==> EndsReady(log))
          else Senseless(r.error)
        case Starting => !s.started && Initializes(s.answers)
        case _ =>
          Repeats(s.answers, s.since.answers) && Unmoved(log, s.since) && (INITIALIZE in s.answers ==> s.started))
  }

  /** The last answer asks for the unit to be started, and none before it did. */
  predicate Initializes(answers: seq<Sense>) {
    answers != [] && answers[|answers| - 1] == INITIALIZE && INITIALIZE !in answers[..|answers| - 1]
  }

  /** The unit was not started since the last progress. */
  ghost predicate Unmoved(log: seq<Event>, since: Progress) {
    since.events <= |log| && Count(log[..since.events], START_UNIT) == Count(log, START_UNIT)
  }

  lemma {:induction false} PollMeaning(clock: Clock, was: seq<Event>, log: seq<Event>)
    requires was <= log
    ensures Sound(clock, was, log, PollOf(clock, was, log))
    decreases |log|
  {
    hide Sound; hide PollStep;
    if |log| == |was| {
      assert log == was;
      SoundStart(clock, was);
    } else {
      var before := log[..|log| - 1];
      PollMeaning(clock, was, before);
      SoundStep(clock, was, before, log, PollOf(clock, was, before));
    }
  }

  lemma SoundStart(clock: Clock, was: seq<Event>)
    ensures Sound(clock, was, was, PollState([], false, Progress(0, |was|, clock(was)), Asking))
  {
    hide Count; hide Polled;
    PollingStart(was);
    HappenedNow(clock, was, was, []);
    assert was[..|was|] == was;
  }

  lemma SoundStep(clock: Clock, was: seq<Event>, before: seq<Event>, log: seq<Event>, s: PollState)
    requires Sound(clock, was, before, s) && |log| == |before| + 1 && before <= log
    ensures Sound(clock, was, log, PollStep(s, log[|before|], |log|, clock(log)))
  {
    hide Sound; hide Asked; hide Started;
    var e := log[|before|];
    assert log == before + [e];
    match s.due
    case Asking =>
      if Sends(e, TUR) { SoundAsked(clock, was, before, log, s, e); } else { SoundAstray(clock, was, log, s); }
    case Starting =>
      if Sends(e, START_UNIT) && s.answers != [] { SoundStarted(clock, was, before, log, s, e); }
      else { SoundAstray(clock, was, log, s); }
    case Resting =>
      if e in {Pause(READY_POLL), PauseRefused(READY_POLL)} { SoundRested(clock, was, before, log, s, e); }
      else { SoundAstray(clock, was, log, s); }
    case _ => SoundAstray(clock, was, log, s);
  }

  lemma SoundAstray(clock: Clock, was: seq<Event>, log: seq<Event>, s: PollState)
    ensures Sound(clock, was, log, s.(due := Astray))
  {
  }

  lemma SoundRested(clock: Clock, was: seq<Event>, before: seq<Event>, log: seq<Event>, s: PollState, e: Event)
    requires Sound(clock, was, before, s) && s.due.Resting? && log == before + [e]
    requires e in {Pause(READY_POLL), PauseRefused(READY_POLL)}
    ensures Sound(clock, was, log, PollStep(s, e, |log|, clock(log)))
  {
    hide Count; hide Polled; hide Polling; hide Happened; hide Repeats;
    PollingWait(was, before, log);
    HappenedLater(clock, was, before, log, s.answers, s.since);
  }

  lemma SoundAsked(clock: Clock, was: seq<Event>, before: seq<Event>, log: seq<Event>, s: PollState, e: Event)
    requires Sound(clock, was, before, s) && s.due.Asking? && log == before + [e] && Sends(e, TUR)
    ensures Sound(clock, was, log, Asked(s, ReplyOf(e), |log|, clock(log)))
  {
    hide Count; hide Polled; hide Polling; hide Happened; hide Repeats; hide Explains; hide Heeded; hide Terminal;
    hide Sound;
    var reply := ReplyOf(e);
    SoundParts(clock, was, before, s);
    PollingSent(was, before, log, TUR, reply);
    HappenedLater(clock, was, before, log, s.answers, s.since);
    if !IsReady(reply) && SenseOf(reply).Some? {
      var a := SenseOf(reply).value;
      var t := s.(answers := s.answers + [a]);
      HappenedAnswer(clock, was, log, s.answers, a, s.since);
      assert t.answers[..|s.answers|] == s.answers;
      if Verdict(t.answers).Some? {
        ExplainsOther(t.answers, clock(log), s.since);
        VerdictWaits(t.answers);
        SoundEnded(clock, was, log, t, Ok(Verdict(t.answers).value));
      } else if a == INITIALIZE && !s.started {
        HappenedNow(clock, was, log, t.answers);
        SoundStarting(clock, was, log, t.(since := Progress(|t.answers|, |log|, clock(log))));
      } else {
        SoundHeeded(clock, was, log, t);
      }
    } else if IsReady(reply) {
      ExplainsReady(s.answers, clock(log), s.since);
      ReadyEnds(log, e);
      SoundEnded(clock, was, log, s, Ok(Ready));
    } else {
      SoundEnded(clock, was, log, s, Err(ScsiFailure(reply.failStatus, None)));
    }
  }

  lemma VerdictWaits(answers: seq<Sense>)
    requires answers != [] && Verdict(answers).Some?
    ensures !Verdict(answers).value.Ready?
  {
  }

  lemma SoundStarted(clock: Clock, was: seq<Event>, before: seq<Event>, log: seq<Event>, s: PollState, e: Event)
    requires Sound(clock, was, before, s) && s.due.Starting? && s.answers != []
    requires log == before + [e] && Sends(e, START_UNIT)
    ensures Sound(clock, was, log, Started(s, ReplyOf(e), |log|, clock(log)))
  {
    hide Count; hide Polled; hide Polling; hide Happened; hide Repeats; hide Explains; hide Sound; hide Heeded;
    var reply, t := ReplyOf(e), s.(started := true);
    SoundParts(clock, was, before, s);
    PollCommandsDiffer();
    PollingSent(was, before, log, START_UNIT, reply);
    HappenedLater(clock, was, before, log, s.answers, s.since);
    if reply.Failed? && reply.failSense.None? {
      SoundEnded(clock, was, log, t, Err(ScsiFailure(reply.failStatus, None)));
    } else {
      SoundHeeded(clock, was, log, t);
    }
  }

  ghost predicate Parts(clock: Clock, was: seq<Event>, log: seq<Event>, s: PollState) {
    && Polling(was, log) && Polled(log) == Polled(was) + s.answers && Happened(clock, was, log, s.answers, s.since)
    && Count(log, START_UNIT) <= Count(was, START_UNIT) + if s.started then 1 else 0
  }

  lemma SoundParts(clock: Clock, was: seq<Event>, log: seq<Event>, s: PollState)
    requires Sound(clock, was, log, s) && !s.due.Astray?
    ensures Parts(clock, was, log, s)
    ensures s.due.Starting? ==> !s.started && Initializes(s.answers)
    ensures s.due.Asking? ==>
              Repeats(s.answers, s.since.answers) && Unmoved(log, s.since) && (INITIALIZE in s.answers ==> s.started)
  {
    hide Count; hide Polled; hide Polling; hide Happened; hide Repeats; hide Explains;
  }

  lemma SoundEnded(clock: Clock, was: seq<Event>, log: seq<Event>, s: PollState, r: Result<MediaReady, LdError>)
    requires Parts(clock, was, log, s)
    requires if r.Ok? then Explains(r.value, s.answers, clock(log), s.since) && Unmoved(log, s.since)
                           && (r.value.Ready? ==> EndsReady(log))
             else Senseless(r.error)
    ensures Sound(clock, was, log, s.(due := Ended(r)))
  {
    hide Count; hide Polled; hide Polling; hide Happened; hide Explains;
  }

  lemma SoundStarting(clock: Clock, was: seq<Event>, log: seq<Event>, s: PollState)
    requires Parts(clock, was, log, s) && !s.started && Initializes(s.answers)
    ensures Sound(clock, was, log, s.(due := Starting))
  {
    hide Count; hide Polled; hide Polling; hide Happened;
  }

  /** An answer without a verdict: new, or one more of those heard before the last progress. */
  lemma SoundHeeded(clock: Clock, was: seq<Event>, log: seq<Event>, s: PollState)
    requires Parts(clock, was, log, s) && s.answers != [] && (INITIALIZE in s.answers ==> s.started)
    requires s.answers[|s.answers| - 1] in s.answers[..|s.answers| - 1] ==>
               Repeats(s.answers[..|s.answers| - 1], s.since.answers) && Unmoved(log, s.since)
    ensures Sound(clock, was, log, Heeded(s, |log|, clock(log)))
  {
    hide Count; hide Polled; hide Polling; hide Explains;
    var n := |s.answers| - 1;
    var a := s.answers[n];
    if a !in s.answers[..n] {
      HappenedNow(clock, was, log, s.answers) by { PollingPrefix(was, log); }
      assert log[..|log|] == log;
      assert Repeats(s.answers, n + 1);
    } else {
      var upTo := s.since.answers;
      assert s.answers[..n][..upTo] == s.answers[..upTo];
      forall i | upTo <= i < |s.answers| ensures s.answers[i] in s.answers[..upTo] {
        if i < n { assert s.answers[..n][i] == s.answers[i]; } else { RepeatsLast(s.answers[..n], upTo, a); }
      }
      if clock(log) >= s.since.at + READY_STALL { ExplainsStalled(s.answers, clock(log), s.since); }
    }
  }

  lemma RepeatsLast(answers: seq<Sense>, upTo: nat, a: Sense)
    requires Repeats(answers, upTo) && a in answers
    ensures a in answers[..upTo]
  {
    var i :| 0 <= i < |answers| && answers[i] == a;
    if i < upTo { assert answers[..upTo][i] == a; }
  }

  lemma PollingPrefix(was: seq<Event>, log: seq<Event>)
    requires Polling(was, log)
    ensures was <= log
  {
  }

  lemma ReadyEnds(log: seq<Event>, e: Event)
    requires log != [] && log[|log| - 1] == e && IsCommand(e, TUR) && IsReady(ReplyOf(e))
    ensures EndsReady(log)
  {
  }

  lemma ExplainsStalled(answers: seq<Sense>, now: nat, since: Progress)
    requires Repeats(answers, since.answers) && since.answers < |answers| && now >= since.at + READY_STALL
    ensures var a := answers[|answers| - 1]; Explains(Stalled(a.key, a.asc, a.ascq), answers, now, since)
  {
  }

  lemma ExplainsOther(answers: seq<Sense>, now: nat, since: Progress)
    requires answers != []
    ensures && |answers| >= 10 && (forall i :: |answers| - 10 <= i < |answers| ==> IsEmpty(answers[i]))
            && BECOMING_READY !in answers ==>
              Explains(NoMedium, answers, now, since)
    ensures Terminal(answers[|answers| - 1]).Some? ==>
        Explains(Terminal(answers[|answers| - 1]).value, answers, now, since)
  {
  }

  lemma ExplainsReady(answers: seq<Sense>, now: nat, since: Progress)
    ensures Explains(Ready, answers, now, since)
  {
  }

  lemma EmptyRunNone()
    ensures EmptyRun([]) == 0
  {
  }

  lemma EmptyRunStep(answers: seq<Sense>, a: Sense)
    ensures EmptyRun(answers + [a]) == if IsEmpty(a) then EmptyRun(answers) + 1 else 0
  {
    assert (answers + [a])[..|answers|] == answers;
  }

  lemma PollingStart(log: seq<Event>)
    ensures Polling(log, log)
  {
  }

  lemma SenseListed(s: Sense)
    ensures s in AllSenses()
  {
  }

  // ----- the calibration as an automaton -----

  /** Where a calibration is: what it asks for next. Addresses go up in steps of 0x100, the coarse pass
      to 0x5800, the fine one from there to 0x10000. */
  datatype Stage =
    | Capacity | Start(uhd: bool) | Checking(attempt: nat) | Coarse(address: nat) | Fine(address: nat) | Speed
    | Over(result: Result<(), LdError>)

  const SPEED_MAX: Cdb := [0xBB, 0, 0xFF, 0xFF, 0xFF, 0xFF, 0, 0, 0, 0, 0, 0]

  function NextCdb(v: Variant, stage: Stage): Option<Cdb> {
    match stage
    case Capacity => Some([0x25, 0, 0, 0, 0, 0, 0, 0, 0, 0])
    case Start(uhd) => Some(SubCdb(v, 0x12, if uhd then 0x0200 else 0x0100, 4))
    case Checking(_) => Some(SubCdb(v, 0, 0, 4))
    case Coarse(address) => if address < 0x5800 then Some(SubCdb(v, 0x14, address, 4)) else None
    case Fine(address) => if address < 0x10000 then Some(SubCdb(v, 0x14, address, 4)) else None
    case Speed => Some(SPEED_MAX)
    case Over(_) => None
  }

  /** A disc of more than 25 million sectors: the address of the last one, if the drive gave it. */
  predicate IsLarge(r: Reply) {
    r.Answered? && r.status == 0 && r.transferred >= 4 &&
    var last := FromBytes(Buffer(r.data, 8)[..4]);
    (if last == 0xFFFF_FFFF then last else last + 1) > 25_000_000
  }

  predicate GivesFour(r: Reply) { r.Answered? && r.status == 0 && r.transferred == 4 }

  function Failing(r: Reply): Stage
    requires r.Failed?
  {
    Over(Err(ScsiFailure(r.failStatus, r.failSense)))
  }

  /** Only a dead bus stops the first command, any failure but a sense the check, and a rejection the
      coarse pass; the fine pass ends early, and the speed is set in any case. */
  function StageAfter(stage: Stage, r: Reply): Stage {
    match stage
    case Capacity => if r.Failed? then Failing(r) else Start(IsLarge(r))
    case Start(_) => if r == DEAD then Failing(r) else Checking(0)
    case Checking(n) =>
      if r.Failed? then Failing(r) else if r.status == 0 then Coarse(0)
      else if n < 4 then Checking(n + 1) else Over(Err(UnlockFailed))
    case Coarse(a) =>
      if r == DEAD then Failing(r) else if !GivesFour(r) then Over(Err(UnlockFailed))
      else if a + 0x100 < 0x5800 then Coarse(a + 0x100) else Fine(0x5800)
    case Fine(a) =>
      if r == DEAD then Failing(r) else if GivesFour(r) && a + 0x100 < 0x10000 then Fine(a + 0x100) else Speed
    case Speed => Over(Ok(()))
    case Over(result) => stage
  }

  /** The stage a stretch of history has led to; None if some command was not the one due. */
  function StageOf(v: Variant, seg: seq<Event>): Option<Stage> {
    if seg == [] then Some(Capacity) else
      var last, stage := seg[|seg| - 1], StageOf(v, seg[..|seg| - 1]);
      if stage.None? then None else
        var cdb := NextCdb(v, stage.value);
        if cdb.Some? && IsCommand(last, cdb.value) then Some(StageAfter(stage.value, ReplyOf(last))) else None
  }

  /** Since `was` there was a calibration and nothing else: no unlock read and no upload. */
  ghost predicate Calibrating(p: Profile, was: seq<Event>, log: seq<Event>, stage: Stage) {
    Undisturbed(p, was, log) && StageOf(p.variant, log[|was|..]) == Some(stage)
  }

  lemma StageGrows(v: Variant, seg: seq<Event>, e: Event, stage: Stage)
    requires StageOf(v, seg) == Some(stage) && NextCdb(v, stage).Some? && IsCommand(e, NextCdb(v, stage).value)
    ensures StageOf(v, seg + [e]) == Some(StageAfter(stage, ReplyOf(e)))
  {
    assert (seg + [e])[..|seg|] == seg;
  }

  lemma UndisturbedKeeps(p: Profile, was: seq<Event>, log: seq<Event>)
    requires Undisturbed(p, was, log)
    ensures was <= log && Count(log, UploadCdb(p)) == Count(was, UploadCdb(p))
    ensures Last(log, UnlockCdb(p.variant)) == Last(was, UnlockCdb(p.variant))
  {
  }

  lemma CalibratingMeans(p: Profile, was: seq<Event>, log: seq<Event>, stage: Stage)
    requires Calibrating(p, was, log, stage)
    ensures Undisturbed(p, was, log) && StageOf(p.variant, log[|was|..]) == Some(stage)
  {
  }

  lemma CalibratingStart(p: Profile, log: seq<Event>)
    ensures Calibrating(p, log, log, Capacity)
  {
    assert log[|log|..] == [];
  }

  lemma CalibratingGrows(p: Profile, was: seq<Event>, log: seq<Event>, stage: Stage)
    requires Calibrating(p, was, log, stage)
    ensures was <= log && log[..|was|] == was
  {
  }

  lemma CalibratingStep(p: Profile, was: seq<Event>, log: seq<Event>, log': seq<Event>, stage: Stage, reply: Reply)
    requires Calibrating(p, was, log, stage) && NextCdb(p.variant, stage).Some?
    requires Sent(log, log', NextCdb(p.variant, stage).value, [], reply)
    ensures Calibrating(p, was, log', StageAfter(stage, reply))
  {
    var cdb := NextCdb(p.variant, stage).value;
    CalibrationCdbs(p.variant, stage);
    hide NextCdb; hide StageAfter; hide SubCdb; hide StageOf; hide Undisturbed; hide UploadCdb; hide UnlockCdb;
    UndisturbedSent(p, was, log, log', cdb, reply);
    UndisturbedKeeps(p, was, log);
    StageGrows(p.variant, log[|was|..], log'[|log|], stage);
    assert log'[|was|..][..|log| - |was|] == log[|was|..];
    assert log'[|was|..] == log[|was|..] + [log'[|log|]];
  }

  lemma CalibrationCdbs(v: Variant, stage: Stage)
    requires NextCdb(v, stage).Some?
    ensures var cdb := NextCdb(v, stage).value;
      |cdb| > 0 && cdb[0] !in {0x3B, 0x55} && (|cdb| != 10 || cdb[0] != 0x3C || cdb[3] != 0 || cdb[8] != 64)
  {
  }

  /** A calibration ends as dead exactly when the bus died on its last command, the speed apart. */
  lemma CalibrationDies(v: Variant, seg: seq<Event>, r: Result<(), LdError>)
    requires StageOf(v, seg) == Some(Over(r))
    ensures seg != [] && (r == Err(ScsiFailure(TRANSPORT_FAILURE, None)) <==>
                            ReplyOf(seg[|seg| - 1]) == DEAD && !IsCommand(seg[|seg| - 1], SPEED_MAX))
  {
    hide SubCdb;
    var before := StageOf(v, seg[..|seg| - 1]).value;
    SpeedDiffers(v, before);
  }

  lemma SpeedDiffers(v: Variant, stage: Stage)
    ensures NextCdb(v, stage) == Some(SPEED_MAX) <==> stage == Speed
  {
  }

  /** The reads of both passes so far: in order, without a gap, each GOOD with four bytes. */
  ghost predicate SweptTo(v: Variant, seg: seq<Event>, from: nat, n: nat) {
    from + n <= |seg| && n <= 0x100 && forall j :: from <= j < from + n ==> Swept(v, seg[j], j - from)
  }

  predicate Swept(v: Variant, e: Event, i: nat) {
    i < 0x100 && e.Exec? && e.cdb == SubCdb(v, 0x14, 0x100 * i, 4) && GivesFour(e.reply)
  }

  lemma {:induction false} CalibrationSweeps(v: Variant, seg: seq<Event>) returns (from: nat)
    requires StageOf(v, seg).Some?
    ensures match StageOf(v, seg).value
            case Coarse(a) =>
              a % 0x100 == 0 && a < 0x5800 && |seg| == from + a / 0x100 && SweptTo(v, seg, from, a / 0x100)
            case Fine(a) =>
              a % 0x100 == 0 && 0x5800 <= a < 0x10000 && |seg| == from + a / 0x100 && SweptTo(v, seg, from, a / 0x100)
            case Speed => SweptTo(v, seg, from, 0x58)
            case Over(r) => r.Ok? ==> SweptTo(v, seg, from, 0x58) && IsCommand(seg[|seg| - 1], SPEED_MAX)
            case _ => true
  {
    hide SubCdb; hide IsLarge; hide SweptTo; hide StageOf;
    from := |seg|;
    SweptNone(v, seg);
    if seg == [] { StageNone(v); }
    if seg != [] {
      StageStep(v, seg);
      var head, last := seg[..|seg| - 1], seg[|seg| - 1];
      from := CalibrationSweeps(v, head);
      assert head + [last] == seg;
      match StageOf(v, head).value
      case Checking(_) => from := |seg|;
      case Coarse(a) => SweptNext(v, head, last, from, a / 0x100);
      case Fine(a) => SweptNext(v, head, last, from, a / 0x100);
      case Speed => SweptNext(v, head, last, from, 0x58);
      case _ =>
    }
  }

  lemma StageNone(v: Variant)
    ensures StageOf(v, []) == Some(Capacity)
  {
  }

  lemma StageStep(v: Variant, seg: seq<Event>)
    requires seg != [] && StageOf(v, seg).Some?
    ensures var last, stage := seg[|seg| - 1], StageOf(v, seg[..|seg| - 1]);
      && stage.Some? && NextCdb(v, stage.value).Some? && IsCommand(last, NextCdb(v, stage.value).value)
      && StageOf(v, seg).value == StageAfter(stage.value, ReplyOf(last))
  {
  }

  lemma SweptNone(v: Variant, seg: seq<Event>)
    ensures SweptTo(v, seg, |seg|, 0)
  {
  }

  lemma SweptNext(v: Variant, head: seq<Event>, last: Event, from: nat, n: nat)
    requires SweptTo(v, head, from, n)
    ensures forall m: nat :: m <= n ==> SweptTo(v, head + [last], from, m)
    ensures |head| == from + n && Swept(v, last, n) ==> SweptTo(v, head + [last], from, n + 1)
  {
    hide Swept;
    if |head| == from + n && Swept(v, last, n) { SweptBound(v, last, n); }
  }

  lemma SweptBound(v: Variant, e: Event, i: nat)
    requires Swept(v, e, i)
    ensures i < 0x100
  {
  }

  // ----- the unlocker -----

  /** The last unlock answer and the number of uploads are as they were. */
  ghost predicate Undisturbed(p: Profile, was: seq<Event>, log: seq<Event>) {
    && was <= log
    && Last(log, UnlockCdb(p.variant)) == Last(was, UnlockCdb(p.variant))
    && Count(log, UploadCdb(p)) == Count(was, UploadCdb(p))
  }

  lemma UndisturbedStart(p: Profile, log: seq<Event>)
    ensures Undisturbed(p, log, log)
  {
  }

  lemma UndisturbedGrows(p: Profile, was: seq<Event>, log: seq<Event>)
    requires Undisturbed(p, was, log)
    ensures was <= log && log[..|was|] == was
  {
  }

  lemma UndisturbedMore(p: Profile, was: seq<Event>, mid: seq<Event>, log: seq<Event>)
    requires Undisturbed(p, was, mid) && Undisturbed(p, mid, log)
    ensures Undisturbed(p, was, log)
  {
  }

  /** A command that is neither the long unlock read nor the upload. */
  lemma UndisturbedSent(p: Profile, was: seq<Event>, mid: seq<Event>, log: seq<Event>, cdb: Cdb, reply: Reply)
    requires Undisturbed(p, was, mid) && Sent(mid, log, cdb, [], reply)
    requires cdb != UploadCdb(p) || (|cdb| > 0 && cdb[0] !in {0x3B, 0x55})
    requires cdb != UnlockCdb(p.variant) || |cdb| != 10 || cdb[0] != 0x3C || cdb[3] != 0 || cdb[8] != 64
    ensures Undisturbed(p, was, log)
  {
    SentCounts(mid, log, cdb, [], reply);
    assert UploadCdb(p)[0] in {0x3B, 0x55};
    assert UnlockCdb(p.variant)[0] == 0x3C && UnlockCdb(p.variant)[3] == 0 && UnlockCdb(p.variant)[8] == 64;
  }

  /** A GOOD full answer with the expected header carries this Volume ID. */
  predicate CarriesVid(answer: Reply, vid: seq<byte>) {
    && answer.Answered? && answer.status == 0 && answer.transferred >= 36
    && var b := Buffer(answer.data, 36); b[0..3] == [0, 0x22, 0] && vid == b[4..20]
  }

  /** From `at` on the profile's command for the Volume ID was sent, if it has one, and this is what the
      answer came to; an answer that carries none is no error. */
  ghost predicate ReadsVid(p: Profile, log: seq<Event>, at: nat, r: Result<Option<seq<byte>>, LdError>) {
    if p.readVid.None? then |log| == at && r == Ok(None)
    else
      && |log| == at + 1 && IsCommand(log[at], p.readVid.value)
      && var reply := ReplyOf(log[at]);
         if reply.Failed? then r == Err(ScsiFailure(reply.failStatus, reply.failSense))
         else r.Ok? && forall vid :: r.value == Some(vid) <==> CarriesVid(reply, vid)
  }

  /** From `at` on: silence for the settle, then the unlock read until the drive has restarted. It is
      re-confirmed exactly if the last answer is accepted and shows the extended-access state. */
  ghost predicate Reconfirms(p: Profile, log: seq<Event>, at: nat, settle: nat, r: Result<(), UnlockError>) {
    at < |log| &&
    if log[at] == PauseRefused(settle) then |log| == at + 1 && r == Err(UnlockError.Transport)
    else
      && log[at] == Pause(settle) && ReadsUnlock(p, log, at + 1, |log|, true)
      && var word := LastWord(p, log);
         r == if word.Err? then Err(Outward(word.error))
              else if Extended(ReplyOf(log[|log| - 1])) then Ok(()) else Err(NotApplicable)
  }

  /** Where a run stands after the initialisation, the calibration and the re-confirmation. */
  datatype Marks = Marks(init: nat, calibrated: nat, confirmed: nat)

  /** A whole run, read off the history: initialisation, calibration, re-confirmation if the calibration
      met a dead bus, Volume ID; and what it comes to at each of these points. */
  ghost predicate UnlockRun(p: Profile, clock: Clock, from: nat, log: seq<Event>, loads: seq<Load>,
                            init: Result<(), LdError>, m: Marks, r: Result<Unlocked, UnlockError>)
  {
    && from <= m.init <= |log| && InitShows(p, clock, from, log[..m.init], loads, init)
    && if init.Err? then m.init == |log| && r == Err(Outward(init.error))
       else if !Extends(p, log[..m.init]) then m.init == |log| && r == Err(NotApplicable)
       else
         && m.init <= m.calibrated <= m.confirmed <= |log|
         && var end := StageOf(p.variant, log[m.init..m.calibrated]);
            end.Some? && end.value.Over? && AfterCalibration(p, log, end.value.result, m, r)
  }

  /** The last unlock answer showed the extended-access state. */
  ghost predicate Extends(p: Profile, log: seq<Event>) {
    var last := Last(log, UnlockCdb(p.variant));
    last.Some? && Extended(last.value)
  }

  ghost predicate AfterCalibration(p: Profile, log: seq<Event>, calibration: Result<(), LdError>, m: Marks,
                                   r: Result<Unlocked, UnlockError>)
    requires m.calibrated <= m.confirmed <= |log|
  {
    if calibration.Err? && IsTransportFailure(calibration.error) then
      exists still :: Reconfirms(p, log[..m.confirmed], m.calibrated, FAULT_SETTLE, still) &&
        if still.Err? then m.confirmed == |log| && r == Err(still.error) else GivesVid(p, log, m.confirmed, r)
    else m.confirmed == m.calibrated && GivesVid(p, log, m.confirmed, r)
  }

  ghost predicate GivesVid(p: Profile, log: seq<Event>, at: nat, r: Result<Unlocked, UnlockError>) {
    exists vid :: ReadsVid(p, log, at, vid) &&
      r == ClaimOf(vid)
  }

  /** The Volume ID through the profile's own command; only a failing bus is an error. */
  method ReadOemVid(t: Transport, p: Profile) returns (r: Result<Option<seq<byte>>, LdError>)
    requires WellFormed(p)
    modifies t
    ensures Undisturbed(p, old(t.world.log), t.world.log)
    ensures ReadsVid(p, t.world.log, |old(t.world.log)|, r)
  {
    UndisturbedStart(p, t.world.log);
    if p.readVid.None? { return Ok(None); }
    var reply := Send(t, p.readVid.value, []);
    UndisturbedSent(p, old(t.world.log), old(t.world.log), t.world.log, p.readVid.value, reply);
    if reply.Failed? { return Err(ScsiFailure(reply.failStatus, reply.failSense)); }
    var b := Buffer(reply.data, 36);
    if reply.status != 0 || reply.transferred < 36 || b[0..3] != [0, 0x22, 0] { return Ok(None); }
    r := Ok(Some(b[4..20]));
  }

  const FAULT_SETTLE: nat := 5000

  /** `firmware_unlock`. An unlock is reported only if the last 64-byte unlock read of the whole run was
      GOOD and carried the drive's signature and both markers. */
  method FirmwareUnlock(t: Transport, profile: Option<Profile>, clock: Clock)
    returns (r: Result<Unlocked, UnlockError>, ghost loads: seq<Load>, ghost init: Result<(), LdError>, ghost m: Marks)
    requires Runs(clock)
    requires profile.Some? ==> WellFormed(profile.value)
    modifies t
    ensures profile.None? ==> r == Err(NotApplicable) && t.world == old(t.world)
    ensures profile.Some? ==> UnlockRun(profile.value, clock, |old(t.world.log)|, t.world.log, loads, init, m, r)
    ensures profile.Some? ==>
              && |loads| <= 3 && LoadsOf(profile.value, |old(t.world.log)|, t.world.log, loads)
              && AllSettle(t.world.log, profile.value.variant, loads)
              && var up := UploadCdb(profile.value);
                 Count(t.world.log, up) <= Count(old(t.world.log), up) + |loads|
    ensures r.Ok? ==> profile.Some? && Unlocks(profile.value, t.world.log)
    ensures r.Err? ==> r.error in {NotApplicable, UnlockError.Transport}
  {
    loads, init, m := [], Ok(()), Marks(0, 0, 0);
    if profile.None? { return Err(NotApplicable), loads, init, m; }
    var p := profile.value;
    hide Count; hide Last; hide UnlockCdb; hide UploadCdb; hide WellFormed; hide LoadsOf; hide Settled; hide AllSettle;
    hide InitShows; hide Reconfirms; hide ReadsVid; hide StageOf; hide Accepted; hide Extended; hide AfterCalibration;
    hide LastWord; hide UnlockRun; hide Extends; hide Calibrating; hide Undisturbed;
    ghost var from := |t.world.log|;
    var mt := new Mt1959(p);
    var begun;
    begun, loads := mt.Init(t, clock);
    init, m := begun, Marks(|t.world.log|, |t.world.log|, |t.world.log|);
    ghost var log := t.world.log;
    RunBegun(p, clock, from, log, loads, init, m);
    if begun.Err? { return Err(Outward(begun.error)), loads, init, m; }
    LoadsLater(p, from, log, log, loads);
    mt.ConfirmedExtends(log);
    if !mt.unlocked { return Err(NotApplicable), loads, init, m; }
    r, m := ClaimUnlocked(t, mt, clock, from, loads, init);
  }

  /** The rest of it, with the drive in the extended-access state: a calibration that may fail, and what
      it takes to believe in the unlock after a dead bus. */
  method ClaimUnlocked(t: Transport, mt: Mt1959, clock: Clock, ghost from: nat, ghost loads: seq<Load>,
                       ghost init: Result<(), LdError>)
    returns (r: Result<Unlocked, UnlockError>, ghost m: Marks)
    requires WellFormed(mt.p) && Runs(clock) && from <= |t.world.log| && !mt.probed
    requires mt.initComplete && Unlocks(mt.p, t.world.log) && Settled(t.world.log, mt.p.variant, loads)
    requires init.Ok? && InitShows(mt.p, clock, from, t.world.log, loads, init)
        && LoadsOf(mt.p, from, t.world.log, loads)
    modifies t, mt
    ensures old(t.world.log) <= t.world.log && UnlockRun(mt.p, clock, from, t.world.log, loads, init, m, r)
    ensures LoadsOf(mt.p, from, t.world.log, loads) && AllSettle(t.world.log, mt.p.variant, loads)
    ensures Count(t.world.log, UploadCdb(mt.p)) == Count(old(t.world.log), UploadCdb(mt.p))
    ensures if r.Ok? then Unlocks(mt.p, t.world.log) else r.error in {NotApplicable, UnlockError.Transport}
  {
    var p := mt.p;
    hide Count; hide Last; hide UnlockCdb; hide UploadCdb; hide WellFormed; hide LoadsOf; hide Settled; hide AllSettle;
    hide InitShows; hide Reconfirms; hide ReadsVid; hide StageOf; hide Accepted; hide Extended; hide UnlockRun;
    hide Extends; hide LastWord; hide Calibrating; hide ClaimOf;
    ghost var log := t.world.log;
    var probed := mt.ProbeDisc(t);
    ghost var swept := t.world.log;
    var still := Ok(());
    if probed.Err? && IsTransportFailure(probed.error) { still := mt.ReconfirmAfterFault(t, clock, FAULT_SETTLE); }
    ghost var confirmed := t.world.log;
    var vid := Ok(None);
    if still.Ok? { vid := ReadOemVid(t, p); }
    r := if still.Err? then Err(still.error) else ClaimOf(vid);
    m := Marks(|log|, |swept|, |confirmed|);
    ClaimMeaning(p, clock, from, log, swept, confirmed, t.world.log, loads, init, probed, still, vid);
  }

  function ClaimOf(vid: Result<Option<seq<byte>>, LdError>): Result<Unlocked, UnlockError> {
    match vid case Err(e) => Err(Outward(e)) case Ok(v) => Ok(Unlocked(v, None))
  }

  /** The last unlock answer was accepted and showed the extended-access state. */
  ghost predicate Unlocks(p: Profile, log: seq<Event>) {
    var last := Last(log, UnlockCdb(p.variant));
    last.Some? && Accepted(p, last.value) && Extended(last.value)
  }

  lemma ClaimMeaning(p: Profile, clock: Clock, from: nat, log: seq<Event>, swept: seq<Event>, confirmed: seq<Event>,
                     end: seq<Event>, loads: seq<Load>, init: Result<(), LdError>, probed: Result<(), LdError>,
                     still: Result<(), UnlockError>, vid: Result<Option<seq<byte>>, LdError>)
    requires from <= |log| && InitShows(p, clock, from, log, loads, init) && init.Ok? && Unlocks(p, log)
    requires LoadsOf(p, from, log, loads) && Settled(log, p.variant, loads)
    requires Calibrating(p, log, swept, Over(probed)) && swept <= confirmed <= end
    requires if probed.Err? && IsTransportFailure(probed.error)
             then Reconfirms(p, confirmed, |swept|, FAULT_SETTLE, still)
                  && Count(confirmed, UploadCdb(p)) == Count(swept, UploadCdb(p))
             else confirmed == swept && still.Ok?
    requires if still.Err? then end == confirmed
             else Undisturbed(p, confirmed, end) && ReadsVid(p, end, |confirmed|, vid)
    ensures var r := if still.Err? then Err(still.error) else ClaimOf(vid);
      && UnlockRun(p, clock, from, end, loads, init, Marks(|log|, |swept|, |confirmed|), r)
      && (r.Ok? ==> Unlocks(p, end)) && (r.Err? ==> r.error in {NotApplicable, UnlockError.Transport})
    ensures LoadsOf(p, from, end, loads) && AllSettle(end, p.variant, loads)
    ensures log <= end && Count(end, UploadCdb(p)) == Count(log, UploadCdb(p))
  {
    hide Count; hide Last; hide UnlockCdb; hide UploadCdb; hide LoadsOf; hide Settled; hide AllSettle; hide InitShows;
    hide Reconfirms; hide ReadsVid; hide StageOf; hide UnlockRun; hide Extends; hide Calibrating; hide Undisturbed;
    hide Unlocks;
    CalibratingGrows(p, log, swept, Over(probed));
    CalibratingMeans(p, log, swept, Over(probed));
    UndisturbedKeeps(p, log, swept);
    UnlocksStays(p, log, swept);
    if probed.Err? && IsTransportFailure(probed.error) { ReconfirmsMeans(p, confirmed, |swept|, FAULT_SETTLE, still); }
    if still.Err? {
      Reconfirmed(p, clock, from, log, swept, end, probed, still, loads, init);
    } else {
      UndisturbedKeeps(p, confirmed, end);
      UnlocksStays(p, confirmed, end);
      AllRead(p, clock, from, log, swept, confirmed, end, probed, still, vid, loads, init);
    }
    LoadsLater(p, from, log, end, loads);
  }

  lemma UnlocksStays(p: Profile, was: seq<Event>, log: seq<Event>)
    requires Unlocks(p, was)
    ensures Extends(p, was) && (Last(log, UnlockCdb(p.variant)) == Last(was, UnlockCdb(p.variant)) ==> Unlocks(p, log))
  {
  }

  lemma ReconfirmsMeans(p: Profile, log: seq<Event>, at: nat, settle: nat, r: Result<(), UnlockError>)
    requires Reconfirms(p, log, at, settle, r)
    ensures if r.Ok? then Unlocks(p, log) else r.error in {NotApplicable, UnlockError.Transport}
  {
    hide UnlockCdb;
    JudgedFailure(p, DEAD);
    LastAtEnd(log, UnlockCdb(p.variant));
  }

  /** What is settled once the initialisation is over. */
  lemma RunBegun(p: Profile, clock: Clock, from: nat, log: seq<Event>, loads: seq<Load>, init: Result<(), LdError>,
                 m: Marks)
    requires from <= |log| && InitShows(p, clock, from, log, loads, init) && m.init == |log|
    ensures init.Err? ==> UnlockRun(p, clock, from, log, loads, init, m, Err(Outward(init.error)))
    ensures init.Ok? && !Extends(p, log) ==> UnlockRun(p, clock, from, log, loads, init, m, Err(NotApplicable))
  {
    hide InitShows;
    assert log[..|log|] == log;
  }

  lemma Reconfirmed(p: Profile, clock: Clock, from: nat, log: seq<Event>, swept: seq<Event>, end: seq<Event>,
                    probed: Result<(), LdError>, still: Result<(), UnlockError>, loads: seq<Load>,
                    init: Result<(), LdError>)
    requires from <= |log| && InitShows(p, clock, from, log, loads, init) && init.Ok? && Extends(p, log)
    requires log <= swept <= end && Reconfirms(p, end, |swept|, FAULT_SETTLE, still)
    requires StageOf(p.variant, swept[|log|..]) == Some(Over(probed))
    requires probed.Err? && IsTransportFailure(probed.error) && still.Err?
    ensures UnlockRun(p, clock, from, end, loads, init, Marks(|log|, |swept|, |end|), Err(still.error))
  {
    hide InitShows; hide Reconfirms; hide StageOf; hide Extends;
    assert end[..|log|] == log && end[..|end|] == end && end[|log|..|swept|] == swept[|log|..];
  }

  lemma AllRead(p: Profile, clock: Clock, from: nat, log: seq<Event>, swept: seq<Event>, confirmed: seq<Event>,
                end: seq<Event>, probed: Result<(), LdError>, still: Result<(), UnlockError>,
                vid: Result<Option<seq<byte>>, LdError>, loads: seq<Load>, init: Result<(), LdError>)
    requires from <= |log| && InitShows(p, clock, from, log, loads, init) && init.Ok? && Extends(p, log)
    requires log <= swept <= confirmed <= end && ReadsVid(p, end, |confirmed|, vid)
    requires StageOf(p.variant, swept[|log|..]) == Some(Over(probed))
    requires if probed.Err? && IsTransportFailure(probed.error)
             then still.Ok? && Reconfirms(p, confirmed, |swept|, FAULT_SETTLE, still) else confirmed == swept
    ensures UnlockRun(p, clock, from, end, loads, init, Marks(|log|, |swept|, |confirmed|), ClaimOf(vid))
  {
    hide InitShows; hide StageOf; hide Reconfirms; hide ReadsVid; hide Extends;
    assert end[..|log|] == log;
    assert end[..|confirmed|] == confirmed && end[|log|..|swept|] == swept[|log|..];
    assert GivesVid(p, end, |confirmed|, ClaimOf(vid));
  }

  /** What follows a finished initialisation uploads nothing and reopens no settle. */
  lemma LoadsLater(p: Profile, from: nat, log: seq<Event>, log': seq<Event>, loads: seq<Load>)
    requires from <= |log| && log <= log' && LoadsOf(p, from, log, loads) && Settled(log, p.variant, loads)
    requires Count(log', UploadCdb(p)) == Count(log, UploadCdb(p))
    ensures LoadsOf(p, from, log', loads) && AllSettle(log', p.variant, loads)
  {
    LoadsMore(p, from, log, log', loads);
    SettledMore(log, log', p.variant, loads);
    SettledAll(log', p.variant, loads);
  }

  /** Up to its last command a calibration meets no dead bus. */
  lemma {:induction false} CalibrationAlive(v: Variant, seg: seq<Event>)
    requires StageOf(v, seg).Some?
    ensures forall i :: 0 <= i < |seg| - 1 ==> ReplyOf(seg[i]) != DEAD
    ensures !StageOf(v, seg).value.Over? && seg != [] ==> ReplyOf(seg[|seg| - 1]) != DEAD
  {
    hide SubCdb; hide IsLarge; hide StageOf;
    if seg != [] {
      StageStep(v, seg);
      var head := seg[..|seg| - 1];
      CalibrationAlive(v, head);
      assert forall i :: 0 <= i < |head| ==> seg[i] == head[i];
    }
  }

  /** A reported unlock stands: since the last time the drive was seen in the extended-access state, by
      the initialisation or by the re-confirmation after a fault, no command met a dead bus, the speed
      setting apart. */
  lemma UnlockStands(p: Profile, clock: Clock, from: nat, log: seq<Event>, loads: seq<Load>, init: Result<(), LdError>,
                     m: Marks, r: Result<Unlocked, UnlockError>)
    requires UnlockRun(p, clock, from, log, loads, init, m, r) && r.Ok?
    ensures from <= m.init <= m.calibrated <= m.confirmed <= |log| && Extends(p, log[..m.init])
    ensures m.confirmed > m.calibrated ==>
              && log[m.calibrated] == Pause(FAULT_SETTLE) && m.calibrated + 1 < m.confirmed
              && IsCommand(log[m.calibrated + 1], UnlockCdb(p.variant))
              && Judged(p, ReplyOf(log[m.confirmed - 1])).Ok? && Extended(ReplyOf(log[m.confirmed - 1]))
    ensures var since := if m.confirmed > m.calibrated then m.confirmed else m.init;
      forall i :: since <= i < |log| ==> ReplyOf(log[i]) != DEAD || IsCommand(log[i], SPEED_MAX)
  {
    hide InitShows; hide StageOf; hide Extends; hide UnlockCdb; hide Judged; hide Extended;
    var seg := log[m.init..m.calibrated];
    CalibrationAlive(p.variant, seg);
    CalibrationDies(p.variant, seg, StageOf(p.variant, seg).value.result);
    assert forall i :: m.init <= i < m.calibrated ==> log[i] == seg[i - m.init];
  }
}
