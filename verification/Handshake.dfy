/** The AACS host-certificate handshake: one authentication (AKE), the reads that finish it, one
    certificate's round trip with its fallback, and the loop over certificates. The 1.0 and the
    P-256 authentication are the same steps over two schemes; `v1` marks where they differ. */
module Handshake {
  import opened Wrappers
  import opened Bytes
  import opened Scsi
  import opened Unlock
  import opened Ecdsa
  import opened Cmac

  datatype Error =
    | AgidAlloc | CertRead | CertRejected | CertShort | CertVerify | DataKey | KeyRead | KeyRejected
    | KeyVerify | HostSignVerify | VidMac | VidRead | ShortTransfer
    | ScsiFailure(status: byte, sense: Option<Sense>)

  predicate IsTransport(e: Error) {
    e == ScsiFailure(TRANSPORT_FAILURE, None)
  }

  /** `handshake_err`: a dead bus keeps its own code. */
  function Classified(e: Error, fallback: Error): Error {
    if IsTransport(e) then e else fallback
  }

  /** A cipher suite with its trust anchor and the host's random draws, each a function of the
      history: host nonce, ephemeral scalar, and the outcome of the signing loop. */
  datatype Scheme = Scheme(
    v1: bool, suite: Suite, laX: seq<byte>, laY: seq<byte>,
    nonce: seq<Event> -> nat,
    scalar: seq<Event> -> nat,
    sign: (seq<Event>, seq<byte>, seq<byte>) -> (seq<byte>, seq<byte>))

  predicate WellFormed(sc: Scheme) {
    Usable(sc.suite) && sc.suite.width == if sc.v1 then 20 else 32
  }

  datatype HostCert = HostCert(priv: seq<byte>, cert: seq<byte>,
                               priv2: Option<seq<byte>>, cert2: Option<seq<byte>>)

  datatype Auth = Auth(busKey: seq<byte>, agid: byte, busEncryption: bool)

  datatype Config = Config(s1: Scheme, s2: Scheme, encrypt: Cipher, decrypt: Cipher, allowP256: bool)

  predicate ValidConfig(cfg: Config) {
    WellFormed(cfg.s1) && WellFormed(cfg.s2) && cfg.s1.v1 && !cfg.s2.v1
  }

  // ----- commands -----

  function ReportKeyCdb(agid: byte, format: byte, len: nat): (c: Cdb)
    requires agid < 4 && format < 64 && len < 65536
    ensures |c| == 12
  {
    [REPORT_KEY, 0, 0, 0, 0, 0, 0, 2, len / 256, len % 256, agid * 64 + format, 0]
  }

  function SendKeyCdb(agid: byte, format: byte, len: nat): (c: Cdb)
    requires agid < 4 && format < 64 && len < 65536
    ensures |c| == 12
  {
    [0xA3, 0, 0, 0, 0, 0, 0, 2, len / 256, len % 256, agid * 64 + format, 0]
  }

  function DiscStructureCdb(agid: byte, format: byte, len: nat): (c: Cdb)
    requires agid < 4 && len < 65536
    ensures |c| == 12
  {
    [0xAD, 1, 0, 0, 0, 0, 0, format, len / 256, len % 256, agid * 64, 0]
  }

  function Outcome(r: Reply, len: nat): (o: Result<seq<byte>, Error>)
    ensures o.Ok? ==> |o.value| == len
  {
    match r
    case Failed(status, sense) => Err(ScsiFailure(status, sense))
    case Answered(status, transferred, sense, data) =>
      if status != 0 then Err(ScsiFailure(status, Some(sense)))
      else if transferred < len then Err(ShortTransfer)
      else Ok(Buffer(data, len))
  }

  /** `scsi_read` with its caller's error mapping. */
  function ReadStep(env: Env, w: World, cdb: Cdb, len: nat, fallback: Error): (o: (Result<seq<byte>, Error>, World))
    ensures o.0.Ok? ==> |o.0.value| == len
  {
    var (r, w) := Executed(env, w, cdb, []);
    match Outcome(r, len)
    case Err(e) => (Err(Classified(e, fallback)), w)
    case Ok(data) => (Ok(data), w)
  }

  /** `scsi_write` with its caller's error mapping. */
  function WriteStep(env: Env, w: World, cdb: Cdb, out: seq<byte>, fallback: Error): (Result<(), Error>, World) {
    var (r, w) := Executed(env, w, cdb, out);
    match Outcome(r, 0)
    case Err(e) => (Err(Classified(e, fallback)), w)
    case Ok(_) => (Ok(()), w)
  }

  // ----- certificates -----

  function KeyAt(sc: Scheme): nat { if sc.v1 then 12 else 4 }

  function CertLen(sc: Scheme): nat { KeyAt(sc) + 4 * sc.suite.width }

  function CertX(sc: Scheme, cert: seq<byte>): seq<byte>
    requires |cert| >= KeyAt(sc) + 2 * sc.suite.width
  {
    cert[KeyAt(sc)..KeyAt(sc) + sc.suite.width]
  }

  function CertY(sc: Scheme, cert: seq<byte>): seq<byte>
    requires |cert| >= KeyAt(sc) + 2 * sc.suite.width
  {
    cert[KeyAt(sc) + sc.suite.width..KeyAt(sc) + 2 * sc.suite.width]
  }

  /** `verify_cert_with_anchor` and `verify_cert_p256`. */
  predicate CertVerifies(sc: Scheme, cert: seq<byte>)
    requires WellFormed(sc)
  {
    && |cert| >= CertLen(sc)
    && var signed := KeyAt(sc) + 2 * sc.suite.width;
       Verify(sc.suite, sc.laX, sc.laY, cert[signed..signed + sc.suite.width],
              cert[signed + sc.suite.width..signed + 2 * sc.suite.width], cert[..signed])
  }

  /** `aacs1_keypair_matches`. */
  predicate Aacs1KeyPairMatches(sc: Scheme, priv: seq<byte>, cert: seq<byte>)
    requires WellFormed(sc)
  {
    |cert| >= KeyAt(sc) + 2 * sc.suite.width && KeyPairMatches(sc.suite, priv, CertX(sc, cert), CertY(sc, cert))
  }

  predicate V1Usable(cfg: Config, hc: HostCert)
    requires ValidConfig(cfg)
  {
    |hc.cert| >= CertLen(cfg.s1) && Aacs1KeyPairMatches(cfg.s1, hc.priv, hc.cert)
  }

  predicate V2Usable(cfg: Config, hc: HostCert)
    requires ValidConfig(cfg)
  {
    cfg.allowP256 && hc.priv2.Some? && hc.cert2.Some? && |hc.cert2.value| >= CertLen(cfg.s2)
  }

  // ----- one authentication -----

  /** Why an authentication failed; `DriveCert` is the drive-side reason no host cert can cure. */
  datatype Fail = DriveCert | Other(error: Error)

  function CheckDriveCert(sc: Scheme, cert: seq<byte>): Option<Fail>
    requires WellFormed(sc) && |cert| == CertLen(sc)
  {
    if sc.v1 then
      if cert[0] == 0x01 then (if CertVerifies(sc, cert) then None else Some(DriveCert))
      else Some(if cert[0] == 0x11 then DriveCert else Other(CertVerify))
    else if cert[0] == 0x11 && CertVerifies(sc, cert) then None
    else Some(Other(CertVerify))
  }

  function CertMessageLen(sc: Scheme): nat { 24 + CertLen(sc) }

  function KeyMessageLen(sc: Scheme): nat { 4 + 4 * sc.suite.width }

  function CertMessage(sc: Scheme, nonce: seq<byte>, cert: seq<byte>): seq<byte>
    requires WellFormed(sc) && |cert| >= CertLen(sc)
  {
    [0, CertMessageLen(sc) - 2, 0, 0] + nonce + cert[..CertLen(sc)]
  }

  function KeyMessage(sc: Scheme, x: seq<byte>, y: seq<byte>, r: seq<byte>, s: seq<byte>): seq<byte>
    requires WellFormed(sc)
  {
    [0, KeyMessageLen(sc) - 2, 0, 0] + x + y + r + s
  }

  /** Field i of a key message: point x, point y, signature r, signature s. */
  function KeyField(sc: Scheme, msg: seq<byte>, i: nat): seq<byte>
    requires |msg| == KeyMessageLen(sc) && i < 4
  {
    msg[4 + i * sc.suite.width..4 + (i + 1) * sc.suite.width]
  }

  /** Step 3: the host's draws. */
  function HostNonce(sc: Scheme, w: World): (n: seq<byte>)
    ensures |n| == 20
  {
    ToBytes(sc.nonce(w.log), 20)
  }

  /** Steps 4 and 5: exchange certificates; the drive's nonce and checked certificate. */
  function ExchangeCerts(env: Env, sc: Scheme, w: World, agid: byte, cert: seq<byte>)
    : (o: (Result<(seq<byte>, seq<byte>), Fail>, World))
    requires WellFormed(sc) && agid < 4 && |cert| >= CertLen(sc)
    ensures o.0.Ok? ==> |o.0.value.0| == 20 && |o.0.value.1| == CertLen(sc)
  {
    var n := CertMessageLen(sc);
    var (sent, w1) := WriteStep(env, w, SendKeyCdb(agid, 1, n), CertMessage(sc, HostNonce(sc, w), cert), CertRejected);
    if sent.Err? then (Err(Other(sent.error)), w1)
    else
      var (got, w2) := ReadStep(env, w1, ReportKeyCdb(agid, 1, n), n, CertRead);
      if got.Err? then (Err(Other(got.error)), w2)
      else
        var driveCert := got.value[24..n];
        match CheckDriveCert(sc, driveCert)
        case Some(fail) => (Err(fail), w2)
        case None => (Ok((got.value[4..24], driveCert)), w2)
  }

  /** Step 6: the drive's key point, its signature over the host nonce checked. */
  function ReadDriveKey(env: Env, sc: Scheme, w: World, agid: byte, nonce: seq<byte>, driveCert: seq<byte>)
    : (o: (Result<seq<byte>, Fail>, World))
    requires WellFormed(sc) && agid < 4 && |driveCert| == CertLen(sc)
    ensures o.0.Ok? ==> |o.0.value| == KeyMessageLen(sc)
  {
    var n := KeyMessageLen(sc);
    var (got, w1) := ReadStep(env, w, ReportKeyCdb(agid, 2, n), n, KeyRead);
    if got.Err? then (Err(Other(got.error)), w1)
    else
      var m := got.value;
      if Verify(sc.suite, CertX(sc, driveCert), CertY(sc, driveCert), KeyField(sc, m, 2), KeyField(sc, m, 3),
                nonce + KeyField(sc, m, 0) + KeyField(sc, m, 1))
      then (Ok(m), w1)
      else (Err(Other(KeyVerify)), w1)
  }

  /** Steps 7 and 8: sign the host key point, verify our own signature, send both. */
  function SendHostKey(env: Env, sc: Scheme, w: World, agid: byte, priv: seq<byte>, cert: seq<byte>,
                       driveNonce: seq<byte>, hx: seq<byte>, hy: seq<byte>): (Result<(), Fail>, World)
    requires WellFormed(sc) && agid < 4 && |cert| >= CertLen(sc)
  {
    var data := driveNonce + hx + hy;
    var (r, s) := sc.sign(w.log, priv, data);
    if !Verify(sc.suite, CertX(sc, cert), CertY(sc, cert), r, s, data) then (Err(Other(HostSignVerify)), w)
    else
      var (sent, w1) := WriteStep(env, w, SendKeyCdb(agid, 2, KeyMessageLen(sc)), KeyMessage(sc, hx, hy, r, s),
        KeyRejected);
      if sent.Err? then (Err(Other(sent.error)), w1) else (Ok(()), w1)
  }

  /** Steps 3 to 9, with the AGID held by the caller. */
  function Authenticate(env: Env, sc: Scheme, w: World, agid: byte, priv: seq<byte>, cert: seq<byte>)
    : (o: (Result<Auth, Fail>, World))
    requires WellFormed(sc) && agid < 4 && |cert| >= CertLen(sc)
    ensures o.0.Ok? ==> o.0.value.agid == agid
  {
    var scalar := sc.scalar(w.log);
    var (hx, hy) := PublicBytes(sc.suite, scalar);
    var (certs, w1) := ExchangeCerts(env, sc, w, agid, cert);
    if certs.Err? then (Err(certs.error), w1)
    else
      var (driveNonce, driveCert) := certs.value;
      var (key, w2) := ReadDriveKey(env, sc, w1, agid, HostNonce(sc, w), driveCert);
      if key.Err? then (Err(key.error), w2)
      else
        var (sent, w3) := SendHostKey(env, sc, w2, agid, priv, cert, driveNonce, hx, hy);
        if sent.Err? then (Err(sent.error), w3)
        else
          match BusKey(sc.suite, ToBytes(scalar, sc.suite.width), KeyField(sc, key.value, 0),
            KeyField(sc, key.value, 1))
          case None => (Err(Other(KeyVerify)), w3)
          case Some(k) => (Ok(Auth(k, agid, !sc.v1 || driveCert[1] % 2 == 1)), w3)
  }

  /** Step 1: invalidate AGIDs i.. (answers ignored). */
  function Sweep(env: Env, w: World, i: nat): World
    requires i <= 4
    decreases 4 - i
  {
    if i == 4 then w else Sweep(env, Executed(env, w, ReportKeyCdb(i, 0x3F, 2), []).1, i + 1)
  }

  function Released(env: Env, w: World, agid: byte): World
    requires agid < 4
  {
    CleanedUp(env, w, ReportKeyCdb(agid, 0x3F, 2))
  }

  /** `aacs1_ake` and `aacs2_authenticate_p256_with_anchor`: on success the AGID is still held, on
      failure it has been released. */
  function Ake(env: Env, sc: Scheme, w: World, priv: seq<byte>, cert: seq<byte>): (o: (Result<Auth, Fail>, World))
    requires WellFormed(sc)
    ensures o.0.Ok? ==> o.0.value.agid < 4
  {
    if |cert| < CertLen(sc) then (Err(Other(CertShort)), w)
    else
      var w1 := Sweep(env, w, 0);
      var (alloc, w2) := ReadStep(env, w1, ReportKeyCdb(0, 0, 8), 8, AgidAlloc);
      if alloc.Err? then (Err(Other(alloc.error)), w2)
      else
        var agid := alloc.value[7] / 64;
        var (auth, w3) := Authenticate(env, sc, w2, agid, priv, cert);
        (auth, if auth.Ok? then w3 else Released(env, w3, agid))
  }

  // ----- finishing one authentication -----

  datatype CertHandshake = CertHandshake(volumeId: seq<byte>, readDataKey: Option<seq<byte>>,
      readDataKeyErr: Option<Error>)

  datatype FinishErr = FinishTransport | FinishVidMac | FinishVidUnavailable

  function ReadVolumeId(env: Env, cfg: Config, w: World, auth: Auth): (Result<seq<byte>, Error>, World)
    requires auth.agid < 4
  {
    var (got, w1) := ReadStep(env, w, DiscStructureCdb(auth.agid, 0x80, 36), 36, VidRead);
    if got.Err? then (Err(got.error), w1)
    else if Cmac16(cfg.encrypt, got.value[4..20], auth.busKey) != got.value[20..36] then (Err(VidMac), w1)
    else (Ok(got.value[4..20]), w1)
  }

  function ReadDataKeys(env: Env, cfg: Config, w: World, auth: Auth): (Result<seq<byte>, Error>, World)
    requires auth.agid < 4
  {
    var (got, w1) := ReadStep(env, w, DiscStructureCdb(auth.agid, 0x84, 36), 36, DataKey);
    if got.Err? then (Err(got.error), w1)
    else if got.value[4..36] == Zeros(32) then (Err(DataKey), w1)
    else (Ok(cfg.decrypt(auth.busKey, got.value[4..20])), w1)
  }

  /** `finish_auth`: releases the AGID on every exit. */
  function FinishAuth(env: Env, cfg: Config, w: World, auth: Auth): (Result<CertHandshake, FinishErr>, World)
    requires auth.agid < 4
  {
    var (vid, w1) := ReadVolumeId(env, cfg, w, auth);
    if vid.Err? then
      (Err(if IsTransport(vid.error) then FinishTransport
           else if vid.error == VidMac then FinishVidMac else FinishVidUnavailable),
       Released(env, w1, auth.agid))
    else if !auth.busEncryption then (Ok(CertHandshake(vid.value, None, None)), Released(env, w1, auth.agid))
    else
      var (rdk, w2) := ReadDataKeys(env, cfg, w1, auth);
      (match rdk
       case Ok(k) => Ok(CertHandshake(vid.value, Some(k), None))
       case Err(e) => if IsTransport(e) then Err(FinishTransport) else Ok(CertHandshake(vid.value, None, Some(e))),
       Released(env, w2, auth.agid))
  }

  // ----- one certificate -----

  datatype CertOutcome = Done(handshake: CertHandshake) | Dropped | NoVid | Reject(v1DriveDead: bool)

  /** The P-256 half of `attempt_one_cert`. */
  function AttemptV2(env: Env, cfg: Config, w: World, hc: HostCert, v1DriveDead: bool): (CertOutcome, World)
    requires ValidConfig(cfg) && V2Usable(cfg, hc)
  {
    var (auth, w1) := Ake(env, cfg.s2, w, hc.priv2.value, hc.cert2.value);
    match auth
    case Ok(a) =>
      var (fin, w2) := FinishAuth(env, cfg, w1, a);
      (match fin case Ok(h) => Done(h) case Err(e) => if e == FinishTransport then Dropped else NoVid, w2)
    case Err(f) =>
      (if f.Other? && IsTransport(f.error) then Dropped else Reject(v1DriveDead), w1)
  }

  /** `attempt_one_cert`. */
  function Attempt(env: Env, cfg: Config, w: World, hc: HostCert, tryV1: bool, hasV2: bool): (CertOutcome, World)
    requires ValidConfig(cfg) && (tryV1 || hasV2) && (hasV2 ==> V2Usable(cfg, hc))
  {
    if !tryV1 then AttemptV2(env, cfg, w, hc, false)
    else
      var (auth, w1) := Ake(env, cfg.s1, w, hc.priv, hc.cert);
      match auth
      case Ok(a) =>
        var (fin, w2) := FinishAuth(env, cfg, w1, a);
        (match fin
         case Ok(h) => (Done(h), w2)
         case Err(FinishTransport) => (Dropped, w2)
         case Err(FinishVidMac) => if hasV2 then AttemptV2(env, cfg, w2, hc, false) else (NoVid, w2)
         case Err(FinishVidUnavailable) => (NoVid, w2))
      case Err(f) =>
        if f.Other? && IsTransport(f.error) then (Dropped, w1)
        else if !hasV2 then (Reject(f.DriveCert?), w1)
        else AttemptV2(env, cfg, w1, hc, f.DriveCert?)
  }

  // ----- the certificate loop -----

  const MAX_CERT_ATTEMPTS := 3
  const PER_CERT_BACKOFF_MS := 1000

  function CertLoop(env: Env, cfg: Config, w: World, certs: seq<HostCert>, attempts: nat, v1DriveDead: bool)
    : (Result<CertHandshake, UnlockError>, World)
    requires ValidConfig(cfg)
    decreases |certs|
  {
    if |certs| == 0 || attempts >= MAX_CERT_ATTEMPTS then
      (Err(if attempts == 0 then NoUsableHostCert else HandshakeRejected), w)
    else
      var hc := certs[0];
      var hasV2 := V2Usable(cfg, hc);
      if !hasV2 && (v1DriveDead || !V1Usable(cfg, hc)) then CertLoop(env, cfg, w, certs[1..], attempts, v1DriveDead)
      else
        var (waited, w1) := if attempts > 0 then Paused(env, w, PER_CERT_BACKOFF_MS) else (true, w);
        if !waited then (Err(UnlockError.Transport), w1)
        else
          var (out, w2) := Attempt(env, cfg, w1, hc, V1Usable(cfg, hc) && !v1DriveDead, hasV2);
          match out
          case Done(h) => (Ok(h), w2)
          case Dropped => (Err(UnlockError.Transport), w2)
          case NoVid => (Err(UnlockError.VidUnavailable), w2)
          case Reject(dead) => CertLoop(env, cfg, w2, certs[1..], attempts + 1, v1DriveDead || dead)
  }
}
