/** The handshake as it runs: commands on one mutable transport, the AGID in its guard, the counters
    of the certificate loop. Each method is tied to its function in `Handshake`. */
module HandshakeRun {
  import opened Wrappers
  import opened Bytes
  import opened Scsi
  import opened Unlock
  import opened Ecdsa
  import opened Cmac
  import opened Handshake

  method Read(t: Transport, cdb: Cdb, len: nat, fallback: Error) returns (r: Result<seq<byte>, Error>)
    modifies t
    ensures (r, t.world) == ReadStep(t.env, old(t.world), cdb, len, fallback)
  {
    var reply := t.Execute(cdb, []);
    match Outcome(reply, len)
    case Err(e) => r := Err(Classified(e, fallback));
    case Ok(data) => r := Ok(data);
  }

  method Write(t: Transport, cdb: Cdb, out: seq<byte>, fallback: Error) returns (r: Result<(), Error>)
    modifies t
    ensures (r, t.world) == WriteStep(t.env, old(t.world), cdb, out, fallback)
  {
    var reply := t.Execute(cdb, out);
    match Outcome(reply, 0)
    case Err(e) => r := Err(Classified(e, fallback));
    case Ok(_) => r := Ok(());
  }

  /** `aacs_authenticate_with_agid`. */
  method RunAuthenticate(t: Transport, sc: Scheme, agid: byte, priv: seq<byte>, cert: seq<byte>)
    returns (r: Result<Auth, Fail>)
    requires WellFormed(sc) && agid < 4 && |cert| >= CertLen(sc)
    modifies t
    ensures (r, t.world) == Authenticate(t.env, sc, old(t.world), agid, priv, cert)
  {
    hide Verify;
    hide BusKey;
    hide PublicBytes;
    hide CertVerifies;
    var hostNonce := HostNonce(sc, t.world);
    var scalar := sc.scalar(t.world.log);
    var (hx, hy) := PublicBytes(sc.suite, scalar);
    var n := CertMessageLen(sc);
    var sent := Write(t, SendKeyCdb(agid, 1, n), CertMessage(sc, hostNonce, cert), CertRejected);
    if sent.Err? { return Err(Other(sent.error)); }
    var got := Read(t, ReportKeyCdb(agid, 1, n), n, CertRead);
    if got.Err? { return Err(Other(got.error)); }
    var driveNonce, driveCert := got.value[4..24], got.value[24..n];
    var bad := CheckDriveCert(sc, driveCert);
    if bad.Some? { return Err(bad.value); }

    n := KeyMessageLen(sc);
    var key := Read(t, ReportKeyCdb(agid, 2, n), n, KeyRead);
    if key.Err? { return Err(Other(key.error)); }
    var m := key.value;
    if !Verify(sc.suite, CertX(sc, driveCert), CertY(sc, driveCert), KeyField(sc, m, 2), KeyField(sc, m, 3),
               hostNonce + KeyField(sc, m, 0) + KeyField(sc, m, 1)) {
      return Err(Other(KeyVerify));
    }

    var data := driveNonce + hx + hy;
    var (hr, hs) := sc.sign(t.world.log, priv, data);
    if !Verify(sc.suite, CertX(sc, cert), CertY(sc, cert), hr, hs, data) { return Err(Other(HostSignVerify)); }
    sent := Write(t, SendKeyCdb(agid, 2, n), KeyMessage(sc, hx, hy, hr, hs), KeyRejected);
    if sent.Err? { return Err(Other(sent.error)); }

    var busKey := BusKey(sc.suite, ToBytes(scalar, sc.suite.width), KeyField(sc, m, 0), KeyField(sc, m, 1));
    if busKey.None? { return Err(Other(KeyVerify)); }
    return Ok(Auth(busKey.value, agid, !sc.v1 || driveCert[1] % 2 == 1));
  }

  ghost predicate Guards(g: AgidGuard, t: Transport, agid: byte)
    requires agid < 4
    reads g
  {
    g.armed && g.t == t && g.agid == agid && g.release == ReportKeyCdb(agid, 0x3F, 2)
  }

  /** `aacs1_ake` and its P-256 twin: success hands over the armed guard. */
  method RunAke(t: Transport, sc: Scheme, priv: seq<byte>, cert: seq<byte>)
    returns (r: Result<Auth, Fail>, guard: AgidGuard?)
    requires WellFormed(sc)
    modifies t
    ensures (r, t.world) == Ake(t.env, sc, old(t.world), priv, cert)
    ensures r.Ok? ==> guard != null && fresh(guard) && Guards(guard, t, r.value.agid)
  {
    hide Authenticate;
    guard := null;
    if |cert| < CertLen(sc) { return Err(Other(CertShort)), null; }
    for agid := 0 to 4
      invariant Sweep(t.env, t.world, agid) == Sweep(t.env, old(t.world), 0)
    {
      var _ := t.Execute(ReportKeyCdb(agid, 0x3F, 2), []);
    }
    var alloc := Read(t, ReportKeyCdb(0, 0, 8), 8, AgidAlloc);
    if alloc.Err? { return Err(Other(alloc.error)), null; }
    var agid := alloc.value[7] / 64;
    guard := new AgidGuard(t, agid, ReportKeyCdb(agid, 0x3F, 2));
    r := RunAuthenticate(t, sc, agid, priv, cert);
    if r.Err? { guard.Drop(); }
  }

  /** `finish_auth`: owns the guard, so every exit releases. */
  method RunFinishAuth(t: Transport, cfg: Config, guard: AgidGuard, auth: Auth)
    returns (r: Result<CertHandshake, FinishErr>)
    requires auth.agid < 4 && Guards(guard, t, auth.agid)
    modifies t, guard
    ensures (r, t.world) == FinishAuth(t.env, cfg, old(t.world), auth)
  {
    var w := t.world;
    var vid := Read(t, DiscStructureCdb(auth.agid, 0x80, 36), 36, VidRead);
    if vid.Ok? && Cmac16(cfg.encrypt, vid.value[4..20], auth.busKey) != vid.value[20..36] { vid := Err(VidMac); }
    if vid.Err? {
      r := Err(if IsTransport(vid.error) then FinishTransport
               else if vid.error == VidMac then FinishVidMac else FinishVidUnavailable);
    } else if !auth.busEncryption {
      r := Ok(CertHandshake(vid.value[4..20], None, None));
    } else {
      var rdk := Read(t, DiscStructureCdb(auth.agid, 0x84, 36), 36, DataKey);
      if rdk.Ok? && rdk.value[4..36] == Zeros(32) { rdk := Err(DataKey); }
      match rdk
      case Ok(keys) => r := Ok(CertHandshake(vid.value[4..20], Some(cfg.decrypt(auth.busKey, keys[4..20])), None));
      case Err(e) => r := if IsTransport(e) then Err(FinishTransport)
        else Ok(CertHandshake(vid.value[4..20], None, Some(e)));
    }
    guard.Drop();
  }

  /** `attempt_one_cert`. */
  method RunAttempt(t: Transport, cfg: Config, hc: HostCert, tryV1: bool, hasV2: bool) returns (out: CertOutcome)
    requires ValidConfig(cfg) && (tryV1 || hasV2) && (hasV2 ==> V2Usable(cfg, hc))
    modifies t
    ensures (out, t.world) == Attempt(t.env, cfg, old(t.world), hc, tryV1, hasV2)
  {
    hide Ake;
    hide FinishAuth;
    var v1DriveDead := false;
    if tryV1 {
      var auth, guard := RunAke(t, cfg.s1, hc.priv, hc.cert);
      if auth.Ok? {
        var fin := RunFinishAuth(t, cfg, guard, auth.value);
        match fin {
          case Ok(h) => return Done(h);
          case Err(FinishTransport) => return Dropped;
          case Err(FinishVidMac) => if !hasV2 { return NoVid; }
          case Err(FinishVidUnavailable) => return NoVid;
        }
      } else {
        if auth.error.Other? && IsTransport(auth.error.error) { return Dropped; }
        v1DriveDead := auth.error.DriveCert?;
        if !hasV2 { return Reject(v1DriveDead); }
      }
    }
    var auth, guard := RunAke(t, cfg.s2, hc.priv2.value, hc.cert2.value);
    if auth.Ok? {
      var fin := RunFinishAuth(t, cfg, guard, auth.value);
      match fin
      case Ok(h) => out := Done(h);
      case Err(e) => out := if e == FinishTransport then Dropped else NoVid;
    } else if auth.error.Other? && IsTransport(auth.error.error) {
      out := Dropped;
    } else {
      out := Reject(v1DriveDead);
    }
  }

  /** `run_cert_handshake_with_anchors`. The precondition of `RunAttempt` holds at every call. */
  method RunCertHandshake(t: Transport, cfg: Config, certs: seq<HostCert>)
    returns (r: Result<CertHandshake, UnlockError>)
    requires ValidConfig(cfg)
    modifies t
    ensures (r, t.world) == CertLoop(t.env, cfg, old(t.world), certs, 0, false)
  {
    hide Attempt;
    hide V1Usable;
    hide V2Usable;
    var driveAttempts, v1DriveDead, idx := 0, false, 0;
    while idx < |certs|
      invariant 0 <= idx <= |certs|
      invariant CertLoop(t.env, cfg, t.world, certs[idx..], driveAttempts, v1DriveDead)
             == CertLoop(t.env, cfg, old(t.world), certs, 0, false)
    {
      if driveAttempts >= MAX_CERT_ATTEMPTS { break; }
      var hc := certs[idx];
      assert certs[idx..][0] == hc && certs[idx..][1..] == certs[idx + 1..];
      idx := idx + 1;
      var hasV2 := V2Usable(cfg, hc);
      if !hasV2 && v1DriveDead { continue; }
      var v1Ok := V1Usable(cfg, hc);
      if !v1Ok && !hasV2 { continue; }
      if driveAttempts > 0 {
        var waited := t.Pause(PER_CERT_BACKOFF_MS);
        if !waited { return Err(UnlockError.Transport); }
      }
      driveAttempts := driveAttempts + 1;
      var out := RunAttempt(t, cfg, hc, v1Ok && !v1DriveDead, hasV2);
      match out {
        case Done(h) => return Ok(h);
        case Dropped => return Err(UnlockError.Transport);
        case NoVid => return Err(UnlockError.VidUnavailable);
        case Reject(dead) => v1DriveDead := v1DriveDead || dead;
      }
    }
    r := Err(if driveAttempts == 0 then NoUsableHostCert else HandshakeRejected);
  }
}
