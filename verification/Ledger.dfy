/** What every run of the certificate handshake does to the drive: AGID ownership, silence after a
    dead bus, and no 1.0 certificate exchange once the drive's own 1.0 certificate has failed. */
module Ledger {
  import opened Wrappers
  import opened Bytes
  import opened Scsi
  import opened Unlock
  import opened Ecdsa
  import opened Handshake

  /** The bookkeeping of one history: the AGID held, whether the bus has died (or the host
      stopped), whether the drive has shown a bad 1.0 certificate, and the waits begun. */
  datatype Book = Book(held: Option<byte>, dead: bool, v1Dead: bool, waits: nat)

  predicate IsSendCertV1(c: Cdb) {
    |c| == 12 && c[0] == 0xA3 && c[8] == 0 && c[9] == 116 && c[10] % 64 == 1
  }

  predicate IsReportCertV1(c: Cdb) {
    |c| == 12 && c[0] == REPORT_KEY && c[8] == 0 && c[9] == 116 && c[10] % 64 == 1
  }

  /** The answer carries a drive certificate that no 1.0 authentication can accept. */
  predicate ShowsBadCert(cfg: Config, c: Cdb, r: Reply)
    requires ValidConfig(cfg)
  {
    && IsReportCertV1(c)
    && var got := Outcome(r, 116);
       got.Ok? && CheckDriveCert(cfg.s1, got.value[24..116]) == Some(DriveCert)
  }

  /** The AGID a drive's answer to an allocation grants. */
  function Granted(r: Reply): Option<byte> {
    match Outcome(r, 8) case Ok(b) => Some(b[7] / 64) case Err(_) => None
  }

  /** One event against the rules; None is a violation. An AGID is only allocated while none is
      held, only released through `execute_cleanup`, and only by the number held; after the bus
      died outside the invalidate sweep nothing but that release happens; nothing waits while an
      AGID is held. */
  function StepBook(cfg: Config, b: Book, e: Event): Option<Book>
    requires ValidConfig(cfg)
  {
    match e
    case Exec(c, _, r) =>
      if b.dead then None
      else if IsAgidRelease(c) then (if b.held.Some? then None else Some(b))
      else if IsAgidAlloc(c) then
        (if b.held.Some? then None else Some(b.(held := Granted(r), dead := IsDeadBus(r))))
      else if IsSendCertV1(c) && b.v1Dead then None
      else Some(b.(dead := IsDeadBus(r), v1Dead := b.v1Dead || ShowsBadCert(cfg, c, r)))
    case Refused(c) => if b.dead then None else Some(b.(dead := !IsAgidRelease(c)))
    case Cleanup(c, _) =>
      if IsAgidRelease(c) && b.held == Some(NamedAgid(c)) then Some(b.(held := None)) else None
    case Pause(_) => if b.dead || b.held.Some? then None else Some(b.(waits := b.waits + 1))
    case PauseRefused(_) => if b.dead || b.held.Some? then None else Some(b.(dead := true, waits := b.waits + 1))
    case _ => None
  }

  function Books(cfg: Config, b: Book, log: seq<Event>): Option<Book>
    requires ValidConfig(cfg)
    decreases |log|
  {
    if |log| == 0 then Some(b)
    else
      match StepBook(cfg, b, log[0])
      case None => None
      case Some(b') => Books(cfg, b', log[1..])
  }

  /** From w to w' the rules hold and lead from b to b'. */
  ghost predicate Kept(cfg: Config, w: World, w': World, b: Book, b': Book)
    requires ValidConfig(cfg)
  {
    Continues(w, w') && Books(cfg, b, Since(w, w')) == Some(b')
  }

  lemma {:induction false} BooksAppend(cfg: Config, b: Book, s: seq<Event>, t: seq<Event>)
    requires ValidConfig(cfg)
    ensures Books(cfg, b, s + t)
         == match Books(cfg, b, s) { case None => None case Some(b') => Books(cfg, b', t) }
    decreases |s|
  {
    if |s| == 0 {
      assert s + t == t;
    } else {
      assert (s + t)[0] == s[0] && (s + t)[1..] == s[1..] + t;
      match StepBook(cfg, b, s[0])
      case None =>
      case Some(b') => BooksAppend(cfg, b', s[1..], t);
    }
  }

  lemma KeptTrans(cfg: Config, w: World, w1: World, w2: World, b: Book, b1: Book, b2: Book)
    requires ValidConfig(cfg) && Kept(cfg, w, w1, b, b1) && Kept(cfg, w1, w2, b1, b2)
    ensures Kept(cfg, w, w2, b, b2)
  {
    SinceCompose(w, w1, w2);
    BooksAppend(cfg, b, Since(w, w1), Since(w1, w2));
  }

  lemma KeptSelf(cfg: Config, w: World, b: Book)
    requires ValidConfig(cfg)
    ensures Kept(cfg, w, w, b, b)
  {
    assert Since(w, w) == [];
  }

  lemma KeptEvent(cfg: Config, w: World, w': World, b: Book, e: Event)
    requires ValidConfig(cfg) && w'.log == w.log + [e] && StepBook(cfg, b, e).Some?
    ensures Kept(cfg, w, w', b, StepBook(cfg, b, e).value)
  {
    assert Since(w, w') == [e];
    assert [e][1..] == [];
    assert Books(cfg, StepBook(cfg, b, e).value, []) == StepBook(cfg, b, e);
  }

  // ----- the pieces -----

  /** An ordinary exchange: not an allocation, a release or a certificate exchange. */
  predicate Ordinary(c: Cdb) {
    !IsAgidRelease(c) && !IsAgidAlloc(c) && !IsSendCertV1(c) && !IsReportCertV1(c)
  }

  lemma ExecuteKept(cfg: Config, env: Env, w: World, c: Cdb, out: seq<byte>, b: Book)
    requires ValidConfig(cfg) && !b.dead && !IsAgidRelease(c) && !IsAgidAlloc(c) && w.critical == 0
    requires IsSendCertV1(c) ==> !b.v1Dead
    ensures var (r, w') := Executed(env, w, c, out);
            && w'.critical == 0
            && Kept(cfg, w, w', b, b.(dead := IsDeadBus(r), v1Dead := b.v1Dead || ShowsBadCert(cfg, c, r)))
  {
    var (r, w') := Executed(env, w, c, out);
    var e := w'.log[|w.log|];
    KeptEvent(cfg, w, w', b, e);
  }

  lemma ReleaseKept(cfg: Config, env: Env, w: World, agid: byte, b: Book)
    requires ValidConfig(cfg) && agid < 4 && b.held == Some(agid)
    ensures Kept(cfg, w, Released(env, w, agid), b, b.(held := None))
    ensures Released(env, w, agid).critical == w.critical
  {
    var c := ReportKeyCdb(agid, 0x3F, 2);
    KeptEvent(cfg, w, Released(env, w, agid), b, Cleanup(c, env.drive(w.log, c, [])));
  }

  lemma {:induction false} SweepKept(cfg: Config, env: Env, w: World, i: nat, b: Book)
    requires ValidConfig(cfg) && i <= 4 && !b.dead && b.held.None? && w.critical == 0
    ensures Kept(cfg, w, Sweep(env, w, i), b, b) && Sweep(env, w, i).critical == 0
    ensures i < 4 ==> |Sweep(env, w, i).log| > |w.log|
    decreases 4 - i
  {
    if i == 4 {
      KeptSelf(cfg, w, b);
    } else {
      var c := ReportKeyCdb(i, 0x3F, 2);
      var (r, w1) := Executed(env, w, c, []);
      KeptEvent(cfg, w, w1, b, w1.log[|w.log|]);
      SweepKept(cfg, env, w1, i + 1, b);
      KeptTrans(cfg, w, w1, Sweep(env, w, i), b, b, b);
    }
  }

  predicate DeadResult<T>(o: Result<T, Error>) { o.Err? && IsTransport(o.error) }

  predicate DeadFail<T>(o: Result<T, Fail>) { o.Err? && o.error.Other? && IsTransport(o.error.error) }

  lemma ReadKept(cfg: Config, env: Env, w: World, c: Cdb, len: nat, fallback: Error, b: Book)
    requires ValidConfig(cfg) && !b.dead && Ordinary(c) && w.critical == 0 && !IsTransport(fallback)
    ensures var (o, w') := ReadStep(env, w, c, len, fallback);
            w'.critical == 0 && Kept(cfg, w, w', b, b.(dead := DeadResult(o)))
  {
    ExecuteKept(cfg, env, w, c, [], b);
  }

  lemma WriteKept(cfg: Config, env: Env, w: World, c: Cdb, out: seq<byte>, fallback: Error, b: Book)
    requires ValidConfig(cfg) && !b.dead && w.critical == 0 && !IsTransport(fallback)
    requires !IsAgidRelease(c) && !IsAgidAlloc(c) && !IsReportCertV1(c)
    requires IsSendCertV1(c) ==> !b.v1Dead
    ensures var (o, w') := WriteStep(env, w, c, out, fallback);
            w'.critical == 0 && Kept(cfg, w, w', b, b.(dead := DeadResult(o)))
  {
    ExecuteKept(cfg, env, w, c, out, b);
  }


  lemma ExchangeCertsKept(cfg: Config, env: Env, sc: Scheme, w: World, agid: byte, cert: seq<byte>, b: Book)
    requires ValidConfig(cfg) && WellFormed(sc) && agid < 4 && |cert| >= CertLen(sc) && w.critical == 0
    requires (sc.v1 ==> sc == cfg.s1 && !b.v1Dead) && !b.dead
    ensures var (o, w') := ExchangeCerts(env, sc, w, agid, cert);
            && w'.critical == 0
            && Kept(cfg, w, w', b, b.(dead := DeadFail(o), v1Dead := b.v1Dead || o == Err(DriveCert)))
  {
    hide Kept; hide Verify;
    var n := CertMessageLen(sc);
    var c1, c2 := SendKeyCdb(agid, 1, n), ReportKeyCdb(agid, 1, n);
    var (sent, w1) := WriteStep(env, w, c1, CertMessage(sc, HostNonce(sc, w), cert), CertRejected);
    WriteKept(cfg, env, w, c1, CertMessage(sc, HostNonce(sc, w), cert), CertRejected, b);
    if sent.Ok? {
      ExecuteKept(cfg, env, w1, c2, [], b);
      var (r, w2) := Executed(env, w1, c2, []);
      KeptTrans(cfg, w, w1, w2, b, b, b.(dead := IsDeadBus(r), v1Dead := b.v1Dead || ShowsBadCert(cfg, c2, r)));
    }
  }

  lemma ReadDriveKeyKept(cfg: Config, env: Env, sc: Scheme, w: World, agid: byte, nonce: seq<byte>,
                         driveCert: seq<byte>, b: Book)
    requires ValidConfig(cfg) && WellFormed(sc) && agid < 4 && |driveCert| == CertLen(sc)
    requires w.critical == 0 && !b.dead
    ensures var (o, w') := ReadDriveKey(env, sc, w, agid, nonce, driveCert);
            w'.critical == 0 && Kept(cfg, w, w', b, b.(dead := DeadFail(o)))
  {
    ReadKept(cfg, env, w, ReportKeyCdb(agid, 2, KeyMessageLen(sc)), KeyMessageLen(sc), KeyRead, b);
  }

  lemma SendHostKeyKept(cfg: Config, env: Env, sc: Scheme, w: World, agid: byte, priv: seq<byte>, cert: seq<byte>,
                        driveNonce: seq<byte>, hx: seq<byte>, hy: seq<byte>, b: Book)
    requires ValidConfig(cfg) && WellFormed(sc) && agid < 4 && |cert| >= CertLen(sc)
    requires w.critical == 0 && !b.dead
    ensures var (o, w') := SendHostKey(env, sc, w, agid, priv, cert, driveNonce, hx, hy);
            w'.critical == 0 && Kept(cfg, w, w', b, b.(dead := DeadFail(o)))
  {
    var (r, s) := sc.sign(w.log, priv, driveNonce + hx + hy);
    KeptSelf(cfg, w, b);
    WriteKept(cfg, env, w, SendKeyCdb(agid, 2, KeyMessageLen(sc)), KeyMessage(sc, hx, hy, r, s), KeyRejected, b);
  }

  lemma AuthenticateKept(cfg: Config, env: Env, sc: Scheme, w: World, agid: byte, priv: seq<byte>, cert: seq<byte>,
      b: Book)
    requires ValidConfig(cfg) && WellFormed(sc) && agid < 4 && |cert| >= CertLen(sc)
    requires w.critical == 0 && !b.dead && (sc.v1 ==> sc == cfg.s1 && !b.v1Dead)
    ensures var (o, w') := Authenticate(env, sc, w, agid, priv, cert);
            && w'.critical == 0
            && Kept(cfg, w, w', b, b.(dead := DeadFail(o), v1Dead := b.v1Dead || o == Err(DriveCert)))
  {
    hide ExchangeCerts;
    hide ReadDriveKey;
    hide SendHostKey;
    hide BusKey;
    hide PublicBytes;
    hide Kept;
    var (o, w') := Authenticate(env, sc, w, agid, priv, cert);
    var (hx, hy) := PublicBytes(sc.suite, sc.scalar(w.log));
    var (certs, w1) := ExchangeCerts(env, sc, w, agid, cert);
    ExchangeCertsKept(cfg, env, sc, w, agid, cert, b);
    if certs.Ok? {
      var (driveNonce, driveCert) := certs.value;
      var (key, w2) := ReadDriveKey(env, sc, w1, agid, HostNonce(sc, w), driveCert);
      ReadDriveKeyKept(cfg, env, sc, w1, agid, HostNonce(sc, w), driveCert, b);
      KeptTrans(cfg, w, w1, w2, b, b, b.(dead := DeadFail(key)));
      NotDriveCert(env, sc, w1, agid, HostNonce(sc, w), driveCert);
      if key.Ok? {
        var (sent, w3) := SendHostKey(env, sc, w2, agid, priv, cert, driveNonce, hx, hy);
        SendHostKeyKept(cfg, env, sc, w2, agid, priv, cert, driveNonce, hx, hy, b);
        KeptTrans(cfg, w, w2, w3, b, b, b.(dead := DeadFail(sent)));
        NotDriveCert2(env, sc, w2, agid, priv, cert, driveNonce, hx, hy);
      }
    }
  }

  lemma NotDriveCert(env: Env, sc: Scheme, w: World, agid: byte, nonce: seq<byte>, driveCert: seq<byte>)
    requires WellFormed(sc) && agid < 4 && |driveCert| == CertLen(sc)
    ensures ReadDriveKey(env, sc, w, agid, nonce, driveCert).0 != Err(DriveCert)
  {
  }

  lemma NotDriveCert2(env: Env, sc: Scheme, w: World, agid: byte, priv: seq<byte>, cert: seq<byte>,
                      driveNonce: seq<byte>, hx: seq<byte>, hy: seq<byte>)
    requires WellFormed(sc) && agid < 4 && |cert| >= CertLen(sc)
    ensures SendHostKey(env, sc, w, agid, priv, cert, driveNonce, hx, hy).0 != Err(DriveCert)
  {
  }

  function AfterAke(b: Book, o: Result<Auth, Fail>): Book {
    Book(if o.Ok? then Some(o.value.agid) else None, DeadFail(o), b.v1Dead || o == Err(DriveCert), b.waits)
  }

  /** The allocation: held exactly if it was granted. */
  lemma AllocKept(cfg: Config, env: Env, w: World, b: Book)
    requires ValidConfig(cfg) && w.critical == 0 && !b.dead && b.held.None?
    ensures var (alloc, w') := ReadStep(env, w, ReportKeyCdb(0, 0, 8), 8, AgidAlloc);
            && w'.critical == 0 && |w'.log| > |w.log|
            && Kept(cfg, w, w', b, Book(if alloc.Ok? then Some(alloc.value[7] / 64) else None, DeadResult(alloc),
               b.v1Dead, b.waits))
  {
    hide Kept;
    var (alloc, w') := ReadStep(env, w, ReportKeyCdb(0, 0, 8), 8, AgidAlloc);
    KeptEvent(cfg, w, w', b, w'.log[|w.log|]);
  }

  /** One authentication allocates at most one AGID and holds it exactly on success. */
  lemma AkeKept(cfg: Config, env: Env, sc: Scheme, w: World, priv: seq<byte>, cert: seq<byte>, b: Book)
    requires ValidConfig(cfg) && WellFormed(sc) && w.critical == 0 && !b.dead && b.held.None?
    requires sc.v1 ==> sc == cfg.s1 && !b.v1Dead
    ensures var (o, w') := Ake(env, sc, w, priv, cert);
            w'.critical == 0 && Kept(cfg, w, w', b, AfterAke(b, o)) && (|cert| >= CertLen(sc) ==> |w'.log| > |w.log|)
  {
    if |cert| < CertLen(sc) {
      KeptSelf(cfg, w, b);
    } else {
      hide Kept;
      hide Authenticate;
      hide ReadStep;
      hide Sweep;
      hide Released;
      hide DeadResult;
      var w1 := Sweep(env, w, 0);
      SweepKept(cfg, env, w, 0, b);
      var c := ReportKeyCdb(0, 0, 8);
      var (alloc, w2) := ReadStep(env, w1, c, 8, AgidAlloc);
      var b2 := Book(if alloc.Ok? then Some(alloc.value[7] / 64) else None, DeadResult(alloc), b.v1Dead, b.waits);
      AllocKept(cfg, env, w1, b);
      KeptTrans(cfg, w, w1, w2, b, b, b2);
      assert |w2.log| > |w.log|;
      if alloc.Ok? {
        var agid := alloc.value[7] / 64;
        var (auth, w3) := Authenticate(env, sc, w2, agid, priv, cert);
        var b3 := b2.(dead := DeadFail(auth), v1Dead := b.v1Dead || auth == Err(DriveCert));
        AuthenticateKept(cfg, env, sc, w2, agid, priv, cert, b2);
        KeptTrans(cfg, w, w2, w3, b, b2, b3);
        KeptGrows(cfg, w2, w3, b2, b3);
        if auth.Err? {
          var w4 := Released(env, w3, agid);
          ReleaseKept(cfg, env, w3, agid, b3);
          KeptTrans(cfg, w, w3, w4, b, b3, b3.(held := None));
          KeptGrows(cfg, w3, w4, b3, b3.(held := None));
        }
      }
    }
  }

  lemma KeptGrows(cfg: Config, w: World, w': World, b: Book, b': Book)
    requires ValidConfig(cfg) && Kept(cfg, w, w', b, b')
    ensures |w'.log| >= |w.log|
  {
  }

  lemma FinishAuthKept(cfg: Config, env: Env, w: World, auth: Auth, b: Book)
    requires ValidConfig(cfg) && auth.agid < 4 && w.critical == 0 && !b.dead && b.held == Some(auth.agid)
    ensures var (o, w') := FinishAuth(env, cfg, w, auth);
            w'.critical == 0 && Kept(cfg, w, w', b, b.(held := None, dead := o == Err(FinishTransport)))
  {
    hide Kept;
    var (vid, w1) := ReadVolumeId(env, cfg, w, auth);
    var b1 := b.(dead := DeadResult(vid));
    ReadKept(cfg, env, w, DiscStructureCdb(auth.agid, 0x80, 36), 36, VidRead, b);
    ReleaseKept(cfg, env, w1, auth.agid, b1);
    KeptTrans(cfg, w, w1, Released(env, w1, auth.agid), b, b1, b1.(held := None));
    if vid.Ok? && auth.busEncryption {
      var (rdk, w2) := ReadDataKeys(env, cfg, w1, auth);
      var b2 := b.(dead := DeadResult(rdk));
      ReadKept(cfg, env, w1, DiscStructureCdb(auth.agid, 0x84, 36), 36, DataKey, b1);
      KeptTrans(cfg, w, w1, w2, b, b1, b2);
      ReleaseKept(cfg, env, w2, auth.agid, b2);
      KeptTrans(cfg, w, w2, Released(env, w2, auth.agid), b, b2, b2.(held := None));
    }
  }

  /** The books close: no AGID held; dead exactly when the outcome is a transport abort. The 1.0
      flag may also be set on the way to an outcome that ends the loop. */
  ghost predicate Closed(b: Book, b': Book, o: CertOutcome) {
    && b'.held.None? && b'.waits == b.waits && (b'.dead <==> o == Dropped)
    && (o.Reject? ==> (b'.v1Dead <==> b.v1Dead || o.v1DriveDead))
  }

  lemma AttemptV2Kept(cfg: Config, env: Env, w: World, hc: HostCert, v1DriveDead: bool, b: Book, b0: Book)
    returns (b': Book)
    requires ValidConfig(cfg) && V2Usable(cfg, hc) && w.critical == 0 && !b.dead && b.held.None?
    requires b.waits == b0.waits && (b.v1Dead <==> b0.v1Dead || v1DriveDead)
    ensures var (o, w') := AttemptV2(env, cfg, w, hc, v1DriveDead);
            w'.critical == 0 && Kept(cfg, w, w', b, b') && Closed(b0, b', o) && |w'.log| > |w.log|
  {
    hide Kept;
    hide Ake;
    hide FinishAuth;
    var (auth, w1) := Ake(env, cfg.s2, w, hc.priv2.value, hc.cert2.value);
    AkeKept(cfg, env, cfg.s2, w, hc.priv2.value, hc.cert2.value, b);
    V2NeverDriveCert(env, cfg.s2, w, hc.priv2.value, hc.cert2.value);
    b' := AfterAke(b, auth);
    if auth.Ok? {
      var (fin, w2) := FinishAuth(env, cfg, w1, auth.value);
      FinishAuthKept(cfg, env, w1, auth.value, b');
      var b2 := b'.(held := None, dead := fin == Err(FinishTransport));
      KeptTrans(cfg, w, w1, w2, b, b', b2);
      KeptGrows(cfg, w1, w2, b', b2);
      b' := b2;
    }
  }

  lemma V2NeverDriveCert(env: Env, sc: Scheme, w: World, priv: seq<byte>, cert: seq<byte>)
    requires WellFormed(sc) && !sc.v1
    ensures Ake(env, sc, w, priv, cert).0 != Err(DriveCert)
  {
    hide Verify;
    hide BusKey;
    hide PublicBytes;
    if |cert| >= CertLen(sc) {
      var (alloc, w2) := ReadStep(env, Sweep(env, w, 0), ReportKeyCdb(0, 0, 8), 8, AgidAlloc);
      if alloc.Ok? {
        var agid := alloc.value[7] / 64;
        var (certs, w3) := ExchangeCerts(env, sc, w2, agid, cert);
        if certs.Ok? {
          NotDriveCert(env, sc, w3, agid, HostNonce(sc, w2), certs.value.1);
        }
      }
    }
  }

  lemma AttemptKept(cfg: Config, env: Env, w: World, hc: HostCert, tryV1: bool, hasV2: bool, b: Book) returns (b': Book)
    requires ValidConfig(cfg) && (tryV1 || hasV2) && (hasV2 ==> V2Usable(cfg, hc)) && (tryV1 ==> V1Usable(cfg, hc))
    requires w.critical == 0 && !b.dead && b.held.None? && (tryV1 ==> !b.v1Dead)
    ensures var (o, w') := Attempt(env, cfg, w, hc, tryV1, hasV2);
            w'.critical == 0 && Kept(cfg, w, w', b, b') && Closed(b, b', o) && |w'.log| > |w.log|
  {
    hide Kept;
    hide Ake;
    hide FinishAuth;
    hide AttemptV2;
    if !tryV1 {
      b' := AttemptV2Kept(cfg, env, w, hc, false, b, b);
    } else {
      var (auth, w1) := Ake(env, cfg.s1, w, hc.priv, hc.cert);
      AkeKept(cfg, env, cfg.s1, w, hc.priv, hc.cert, b);
      var b1 := AfterAke(b, auth);
      b' := b1;
      if auth.Ok? {
        var (fin, w2) := FinishAuth(env, cfg, w1, auth.value);
        FinishAuthKept(cfg, env, w1, auth.value, b1);
        b' := b1.(held := None, dead := fin == Err(FinishTransport));
        KeptTrans(cfg, w, w1, w2, b, b1, b');
        KeptGrows(cfg, w1, w2, b1, b');
        if fin == Err(FinishVidMac) && hasV2 {
          var b2 := b';
          b' := AttemptV2Kept(cfg, env, w2, hc, false, b2, b);
          var (_, w3) := AttemptV2(env, cfg, w2, hc, false);
          KeptTrans(cfg, w, w2, w3, b, b2, b');
        }
      } else if !DeadFail(auth) && hasV2 {
        b' := AttemptV2Kept(cfg, env, w1, hc, auth.error.DriveCert?, b1, b);
        var (_, w2) := AttemptV2(env, cfg, w1, hc, auth.error.DriveCert?);
        KeptTrans(cfg, w, w1, w2, b, b1, b');
      }
    }
  }

  lemma {:induction false} CertLoopKept(cfg: Config, env: Env, w: World, certs: seq<HostCert>, attempts: nat, b: Book)
    returns (b': Book)
    requires ValidConfig(cfg) && w.critical == 0 && !b.dead && b.held.None?
    ensures var (o, w') := CertLoop(env, cfg, w, certs, attempts, b.v1Dead);
            && Kept(cfg, w, w', b, b') && b'.held.None? && (b'.dead ==> o == Err(UnlockError.Transport))
            && (attempts == 0 ==> (o == Err(NoUsableHostCert) <==> w'.log == w.log))
            && (attempts > 0 ==> o != Err(NoUsableHostCert))
    decreases |certs|
  {
    hide Kept;
    hide Attempt;
    hide V1Usable;
    hide V2Usable;
    b' := b;
    KeptSelf(cfg, w, b);
    if |certs| > 0 && attempts < MAX_CERT_ATTEMPTS {
      var hc := certs[0];
      var hasV2 := V2Usable(cfg, hc);
      if !hasV2 && (b.v1Dead || !V1Usable(cfg, hc)) {
        b' := CertLoopKept(cfg, env, w, certs[1..], attempts, b);
      } else {
        var (waited, w1) := if attempts > 0 then Paused(env, w, PER_CERT_BACKOFF_MS) else (true, w);
        var b1 := b.(dead := !waited, waits := if attempts > 0 then b.waits + 1 else b.waits);
        b' := b1;
        if attempts > 0 { KeptEvent(cfg, w, w1, b, w1.log[|w.log|]); }
        if waited {
          var tryV1 := V1Usable(cfg, hc) && !b.v1Dead;
          var (out, w2) := Attempt(env, cfg, w1, hc, tryV1, hasV2);
          var b2 := AttemptKept(cfg, env, w1, hc, tryV1, hasV2, b1);
          KeptTrans(cfg, w, w1, w2, b, b1, b2);
          b' := b2;
          if out.Reject? {
            b' := CertLoopKept(cfg, env, w2, certs[1..], attempts + 1, b2);
            var (_, w3) := CertLoop(env, cfg, w2, certs[1..], attempts + 1, b2.v1Dead);
            KeptGrows(cfg, w2, w3, b2, b');
            KeptTrans(cfg, w, w2, w3, b, b2, b');
          }
        }
      }
    }
  }

  const CLEAR := Book(None, false, false, 0)

  /** For every drive, certificate list and moment of cancellation: the rules hold over the whole
      run, no AGID is held at the end, the bus is dead only under a Transport outcome, and
      NoUsableHostCert is reported exactly when nothing at all was sent. */
  lemma HandshakeRules(cfg: Config, env: Env, w: World, certs: seq<HostCert>)
    requires ValidConfig(cfg) && w.critical == 0
    ensures var (o, w') := CertLoop(env, cfg, w, certs, 0, false);
            var books := Books(cfg, CLEAR, Since(w, w'));
            && books.Some? && books.value.held.None?
            && (books.value.dead ==> o == Err(UnlockError.Transport))
            && (o == Err(NoUsableHostCert) <==> w'.log == w.log)
  {
    var b' := CertLoopKept(cfg, env, w, certs, 0, CLEAR);
  }

  // ----- what the rules mean for a history -----

  /** The bus died here, or the host stopped, outside the invalidate sweep. */
  predicate Death(e: Event) {
    match e
    case Exec(c, _, r) => IsDeadBus(r) && !IsAgidRelease(c)
    case Refused(c) => !IsAgidRelease(c)
    case PauseRefused(_) => true
    case _ => false
  }

  lemma BooksAt(cfg: Config, b: Book, log: seq<Event>, i: nat) returns (b1: Book, b2: Book)
    requires ValidConfig(cfg) && i < |log| && Books(cfg, b, log).Some?
    ensures Books(cfg, b, log[..i]) == Some(b1) && StepBook(cfg, b1, log[i]) == Some(b2)
    ensures Books(cfg, b2, log[i + 1..]) == Books(cfg, b, log)
  {
    assert log == log[..i] + log[i..];
    BooksAppend(cfg, b, log[..i], log[i..]);
    b1 := Books(cfg, b, log[..i]).value;
    assert log[i..][0] == log[i] && log[i..][1..] == log[i + 1..];
    b2 := StepBook(cfg, b1, log[i]).value;
  }

  lemma {:induction false} DeadStays(cfg: Config, b: Book, log: seq<Event>, i: nat)
    requires ValidConfig(cfg) && b.dead && Books(cfg, b, log).Some? && i < |log|
    ensures log[i].Cleanup?
    decreases i
  {
    if i > 0 { DeadStays(cfg, StepBook(cfg, b, log[0]).value, log[1..], i - 1); }
  }

  /** After a death only releases follow. */
  lemma SilentAfterDeath(cfg: Config, b: Book, log: seq<Event>, i: nat, j: nat)
    requires ValidConfig(cfg) && Books(cfg, b, log).Some? && i < j < |log| && Death(log[i])
    ensures log[j].Cleanup?
  {
    var b1, b2 := BooksAt(cfg, b, log, i);
    DeadStays(cfg, b2, log[i + 1..], j - i - 1);
  }

  lemma {:induction false} V1DeadStays(cfg: Config, b: Book, log: seq<Event>, i: nat)
    requires ValidConfig(cfg) && b.v1Dead && Books(cfg, b, log).Some? && i < |log|
    ensures log[i].Exec? ==> !IsSendCertV1(log[i].cdb)
    decreases i
  {
    if i > 0 { V1DeadStays(cfg, StepBook(cfg, b, log[0]).value, log[1..], i - 1); }
  }

  /** No 1.0 certificate reaches the drive after the drive's own 1.0 certificate failed. */
  lemma NoV1AfterBadCert(cfg: Config, b: Book, log: seq<Event>, i: nat, j: nat)
    requires ValidConfig(cfg) && Books(cfg, b, log).Some? && i < j < |log|
    requires log[i].Exec? && ShowsBadCert(cfg, log[i].cdb, log[i].reply)
    ensures log[j].Exec? ==> !IsSendCertV1(log[j].cdb)
  {
    var b1, b2 := BooksAt(cfg, b, log, i);
    V1DeadStays(cfg, b2, log[i + 1..], j - i - 1);
  }

  function Grants(log: seq<Event>): nat {
    if |log| == 0 then 0
    else (if log[0].Exec? && IsAgidAlloc(log[0].cdb) && Granted(log[0].reply).Some? then 1 else 0) + Grants(log[1..])
  }

  function Releases(log: seq<Event>): nat {
    if |log| == 0 then 0 else (if log[0].Cleanup? then 1 else 0) + Releases(log[1..])
  }

  function Holding(b: Book): nat { if b.held.Some? then 1 else 0 }

  /** Conservation: every granted AGID is released once, except one still held. */
  lemma {:induction false} GrantsReleased(cfg: Config, b: Book, log: seq<Event>)
    requires ValidConfig(cfg) && Books(cfg, b, log).Some?
    ensures Holding(b) + Grants(log) == Releases(log) + Holding(Books(cfg, b, log).value)
    decreases |log|
  {
    if |log| > 0 { GrantsReleased(cfg, StepBook(cfg, b, log[0]).value, log[1..]); }
  }

  // ----- unusable certificates -----

  /** The certificates that pass a host-side check. */
  function UsableCerts(cfg: Config, certs: seq<HostCert>): seq<HostCert>
    requires ValidConfig(cfg)
  {
    if |certs| == 0 then []
    else (if V1Usable(cfg, certs[0]) || V2Usable(cfg, certs[0]) then [certs[0]] else []) + UsableCerts(cfg, certs[1..])
  }

  /** Unusable certificates change neither the commands sent nor the result. */
  lemma {:induction false} UnusableCertsIgnored(cfg: Config, env: Env, w: World, certs: seq<HostCert>, attempts: nat,
      v1DriveDead: bool)
    requires ValidConfig(cfg)
    ensures CertLoop(env, cfg, w, certs, attempts, v1DriveDead)
         == CertLoop(env, cfg, w, UsableCerts(cfg, certs), attempts, v1DriveDead)
    decreases |certs|
  {
    hide Attempt;
    hide V1Usable;
    hide V2Usable;
    if |certs| > 0 {
      var hc, rest := certs[0], certs[1..];
      if V1Usable(cfg, hc) || V2Usable(cfg, hc) {
        var us := UsableCerts(cfg, certs);
        assert us[0] == hc && us[1..] == UsableCerts(cfg, rest);
        UnusableCertsIgnored(cfg, env, w, rest, attempts, v1DriveDead);
        if attempts < MAX_CERT_ATTEMPTS && (V2Usable(cfg, hc) || !v1DriveDead) {
          var (waited, w1) := if attempts > 0 then Paused(env, w, PER_CERT_BACKOFF_MS) else (true, w);
          if waited {
            var (out, w2) := Attempt(env, cfg, w1, hc, V1Usable(cfg, hc) && !v1DriveDead, V2Usable(cfg, hc));
            if out.Reject? { UnusableCertsIgnored(cfg, env, w2, rest, attempts + 1, v1DriveDead || out.v1DriveDead); }
          }
        }
      } else {
        assert UsableCerts(cfg, certs) == UsableCerts(cfg, rest);
        UnusableCertsIgnored(cfg, env, w, rest, attempts, v1DriveDead);
        if attempts >= MAX_CERT_ATTEMPTS { CapReached(cfg, env, w, certs, attempts, v1DriveDead); }
      }
    }
  }

  lemma CapReached(cfg: Config, env: Env, w: World, certs: seq<HostCert>, attempts: nat, v1DriveDead: bool)
    requires ValidConfig(cfg) && attempts >= MAX_CERT_ATTEMPTS
    ensures CertLoop(env, cfg, w, certs, attempts, v1DriveDead) == (Err(HandshakeRejected), w)
  {
  }
}
