/** The handshake against a drive that follows the 1.0 protocol: both sides reach one bus key, and
    the host returns the drive's own Volume ID. */
module Honest {
  import opened Wrappers
  import opened Modular
  import opened Curve
  import opened Bytes
  import opened Scsi
  import opened Unlock
  import opened Ecdsa
  import opened Cmac
  import opened Handshake
  import opened Ledger

  /** The drive's side of a 1.0 session. */
  datatype DriveKeys = DriveKeys(priv: seq<byte>, cert: seq<byte>, nonce: seq<byte>, scalar: nat, agid: byte,
      vid: Block)

  ghost predicate ValidDrive(sc: Scheme, d: DriveKeys)
    requires WellFormed(sc)
  {
    && |d.cert| == CertLen(sc) && d.cert[0] == 0x01 && CertVerifies(sc, d.cert)
    && KeyPair(sc.suite, d.priv, CertX(sc, d.cert), CertY(sc, d.cert))
    && |d.nonce| == 20 && 0 < d.scalar < sc.suite.n && d.agid < 4
  }

  predicate IsSendKey(c: Cdb, format: byte) { |c| == 12 && c[0] == 0xA3 && c[10] % 64 == format }

  /** The payload of the last SEND KEY of this format, as the drive remembers it. */
  function LastSent(log: seq<Event>, format: byte): Option<seq<byte>>
    decreases |log|
  {
    if |log| == 0 then None
    else
      var e := log[|log| - 1];
      if e.Exec? && IsSendKey(e.cdb, format) then Some(e.out) else LastSent(log[..|log| - 1], format)
  }

  predicate Gives(r: Reply, data: seq<byte>) {
    r.Answered? && r.status == 0 && r.transferred >= |data| && Buffer(r.data, |data|) == data
  }

  predicate Accepts(r: Reply) { r.Answered? && r.status == 0 }

  function DriveX(sc: Scheme, d: DriveKeys): seq<byte>
    requires WellFormed(sc)
  { PublicBytes(sc.suite, d.scalar).0 }

  function DriveY(sc: Scheme, d: DriveKeys): seq<byte>
    requires WellFormed(sc)
  { PublicBytes(sc.suite, d.scalar).1 }

  /** The reply is the drive's key message, signed over the host's nonce. */
  ghost predicate GivesSignedKey(sc: Scheme, d: DriveKeys, hostNonce: seq<byte>, r: Reply)
    requires WellFormed(sc)
  {
    exists sr, ss :: IsSignature(sc.suite, d.priv, hostNonce + DriveX(sc, d) + DriveY(sc, d), sr, ss)
      && Gives(r, KeyMessage(sc, DriveX(sc, d), DriveY(sc, d), sr, ss))
  }

  /** The host's key message is signed for the certificate and nonce exchanged before. */
  predicate HostKeyValid(sc: Scheme, d: DriveKeys, certMsg: seq<byte>, keyMsg: seq<byte>)
    requires WellFormed(sc)
  {
    && |certMsg| == CertMessageLen(sc) && |keyMsg| == KeyMessageLen(sc)
    && Verify(sc.suite, CertX(sc, certMsg[24..]), CertY(sc, certMsg[24..]), KeyField(sc, keyMsg, 2),
              KeyField(sc, keyMsg, 3), d.nonce + KeyField(sc, keyMsg, 0) + KeyField(sc, keyMsg, 1))
  }

  /** One answer of a drive that follows the protocol; what it is not asked here is unconstrained. */
  ghost predicate HonestAnswer(cfg: Config, d: DriveKeys, log: seq<Event>, cdb: Cdb, out: seq<byte>, r: Reply)
    requires ValidConfig(cfg) && ValidDrive(cfg.s1, d)
  {
    var sc := cfg.s1;
    && (cdb == ReportKeyCdb(0, 0, 8) ==> Outcome(r, 8).Ok? && Outcome(r, 8).value[7] / 64 == d.agid)
    && (cdb == SendKeyCdb(d.agid, 1, 116) && |out| == 116 && CertVerifies(sc, out[24..]) ==> Accepts(r))
    && (cdb == ReportKeyCdb(d.agid, 1, 116) ==> Gives(r, CertMessage(sc, d.nonce, d.cert)))
    && (cdb == ReportKeyCdb(d.agid, 2, 84) && LastSent(log, 1).Some? && |LastSent(log, 1).value| == 116
        ==> GivesSignedKey(sc, d, LastSent(log, 1).value[4..24], r))
    && (cdb == SendKeyCdb(d.agid, 2, 84) && LastSent(log, 1).Some? && HostKeyValid(sc, d, LastSent(log, 1).value, out)
        ==> Accepts(r))
    && (cdb == DiscStructureCdb(d.agid, 0x80, 36) && LastSent(log, 2).Some? && |LastSent(log, 2).value| == 84
        ==> var m := LastSent(log, 2).value;
            var k := BusKey(sc.suite, ToBytes(d.scalar, 20), KeyField(sc, m, 0), KeyField(sc, m, 1));
            k.Some? ==> Gives(r, [0, 0x22, 0, 0] + d.vid + Buffered(Cmac16(cfg.encrypt, d.vid, k.value))))
    && (cdb == DiscStructureCdb(d.agid, 0x84, 36) ==> !IsDeadBus(r))
  }

  /** The drive always follows the protocol, the host is never stopped, AES yields blocks, and the
      host's draws are those its generators can return. `SmallSession.SessionMet` has such a drive. */
  ghost predicate HonestEnv(cfg: Config, d: DriveKeys, env: Env)
    requires ValidConfig(cfg)
  {
    && ValidDrive(cfg.s1, d)
    && (forall log, cdb, out {:trigger env.drive(log, cdb, out)} ::
          HonestAnswer(cfg, d, log, cdb, out, env.drive(log, cdb, out)))
    && (forall log :: !env.stop(log))
    && (forall k, b :: |cfg.encrypt(k, b)| == 16)
    && (forall h :: 0 < cfg.s1.scalar(h) < cfg.s1.suite.n)
    && Signs(cfg.s1)
  }

  /** What the host draws to sign with is a signature its loop can return, for every private key the
      loop can serve: under a key divisible by n it may never end (`Ecdsa.SigningPossible`). */
  ghost predicate Signs(sc: Scheme)
    requires WellFormed(sc)
  {
    forall h, priv, data {:trigger sc.sign(h, priv, data)} :: FromBytes(priv) % sc.suite.n != 0 ==>
      IsSignature(sc.suite, priv, data, sc.sign(h, priv, data).0, sc.sign(h, priv, data).1)
  }

  predicate Running(w: World) { !w.cancelled && w.critical == 0 }

  lemma ExecuteHonest(cfg: Config, d: DriveKeys, env: Env, w: World, cdb: Cdb, out: seq<byte>)
    requires ValidConfig(cfg) && HonestEnv(cfg, d, env) && Running(w)
    ensures var (r, w') := Executed(env, w, cdb, out);
            && Running(w') && w'.log == w.log + [Exec(cdb, out, r)]
            && HonestAnswer(cfg, d, w.log, cdb, out, r)
  {
  }

  lemma GivesOutcome(r: Reply, data: seq<byte>)
    requires Gives(r, data)
    ensures Outcome(r, |data|) == Ok(data)
  {
  }

  lemma SignatureLengths(su: Suite, priv: seq<byte>, data: seq<byte>, r: seq<byte>, s: seq<byte>)
    requires Usable(su) && IsSignature(su, priv, data, r, s)
    ensures |r| == su.width && |s| == su.width
  {
    var k: nat :| SignedWith(su, priv, data, k, r, s);
  }

  lemma KeyMessageFields(sc: Scheme, x: seq<byte>, y: seq<byte>, r: seq<byte>, s: seq<byte>)
    requires WellFormed(sc) && |x| == |y| == |r| == |s| == sc.suite.width
    ensures var m := KeyMessage(sc, x, y, r, s);
            && |m| == KeyMessageLen(sc)
            && KeyField(sc, m, 0) == x && KeyField(sc, m, 1) == y && KeyField(sc, m, 2) == r && KeyField(sc, m, 3) == s
  {
  }

  lemma LastSentStep(log: seq<Event>, e: Event, format: byte)
    ensures LastSent(log + [e], format)
         == if e.Exec? && IsSendKey(e.cdb, format) then Some(e.out) else LastSent(log, format)
  {
    assert (log + [e])[..|log|] == log;
  }

  /** An honest drive takes a certificate its authority signed, and answers with its own. */
  lemma CertAnswers(cfg: Config, d: DriveKeys, log: seq<Event>, out: seq<byte>, r: Reply)
    requires ValidConfig(cfg) && ValidDrive(cfg.s1, d)
    ensures HonestAnswer(cfg, d, log, SendKeyCdb(d.agid, 1, 116), out, r) ==>
              (|out| == 116 && CertVerifies(cfg.s1, out[24..]) ==> Accepts(r))
    ensures HonestAnswer(cfg, d, log, ReportKeyCdb(d.agid, 1, 116), out, r) ==>
        Gives(r, CertMessage(cfg.s1, d.nonce, d.cert))
  {
    hide CertVerifies; hide GivesSignedKey; hide HostKeyValid; hide BusKey; hide KeyField; hide LastSent; hide KeyPair;
  }

  lemma ExchangeHonest(cfg: Config, d: DriveKeys, env: Env, w: World, cert: seq<byte>)
    requires ValidConfig(cfg) && HonestEnv(cfg, d, env) && Running(w)
    requires ValidDrive(cfg.s1, d)
    requires |cert| >= 92 && CertVerifies(cfg.s1, cert[..92])
    ensures var (o, w') := ExchangeCerts(env, cfg.s1, w, d.agid, cert);
            && o == Ok((d.nonce, d.cert)) && Running(w')
            && LastSent(w'.log, 1) == Some(CertMessage(cfg.s1, HostNonce(cfg.s1, w), cert))
  {
    hide CertVerifies;
    hide IsSignature;
    hide HonestEnv;
    hide KeyPair;
    hide LastSent;
    hide GivesSignedKey;
    hide HostKeyValid;
    hide Executed;
    hide BusKey;
    hide Cmac16;
    hide Buffered;
    hide KeyField;
    hide HonestAnswer;
    var sc := cfg.s1;
    var c1, c2 := SendKeyCdb(d.agid, 1, 116), ReportKeyCdb(d.agid, 1, 116);
    var m := CertMessage(sc, HostNonce(sc, w), cert);
    assert |m| == 116 && m[24..] == cert[..92];
    ExecuteHonest(cfg, d, env, w, c1, m);
    var (r1, w1) := Executed(env, w, c1, m);
    CertAnswers(cfg, d, w.log, m, r1);
    ExecuteHonest(cfg, d, env, w1, c2, []);
    var (r2, w2) := Executed(env, w1, c2, []);
    CertAnswers(cfg, d, w1.log, [], r2);
    var m2 := CertMessage(sc, d.nonce, d.cert);
    assert m2[4..24] == d.nonce && m2[24..116] == d.cert;
    GivesOutcome(r2, m2);
    LastSentStep(w.log, w1.log[|w.log|], 1);
    LastSentStep(w1.log, w2.log[|w1.log|], 1);
  }

  lemma DriveKeyHonest(cfg: Config, d: DriveKeys, env: Env, w: World, certMsg: seq<byte>)
    requires ValidConfig(cfg) && HonestEnv(cfg, d, env) && Running(w) && Hypotheses(cfg.s1.suite)
    requires ValidDrive(cfg.s1, d)
    requires LastSent(w.log, 1) == Some(certMsg) && |certMsg| == 116
    ensures var (o, w') := ReadDriveKey(env, cfg.s1, w, d.agid, certMsg[4..24], d.cert);
            && o.Ok? && KeyField(cfg.s1, o.value, 0) == DriveX(cfg.s1, d)
               && KeyField(cfg.s1, o.value, 1) == DriveY(cfg.s1, d)
            && Running(w') && LastSent(w'.log, 1) == Some(certMsg)
  {
    hide Verify;
    hide KeyPair;
    hide PublicBytes;
    hide IsSignature;
    hide Hypotheses;
    hide HonestEnv;
    var sc, hostNonce := cfg.s1, certMsg[4..24];
    var c := ReportKeyCdb(d.agid, 2, 84);
    ExecuteHonest(cfg, d, env, w, c, []);
    var (r, w') := Executed(env, w, c, []);
    LastSentStep(w.log, w'.log[|w.log|], 1);
    var x, y := DriveX(sc, d), DriveY(sc, d);
    var sr, ss :| IsSignature(sc.suite, d.priv, hostNonce + x + y, sr, ss) && Gives(r, KeyMessage(sc, x, y, sr, ss));
    SignatureLengths(sc.suite, d.priv, hostNonce + x + y, sr, ss);
    PublicLengths(sc.suite, d.scalar);
    KeyMessageFields(sc, x, y, sr, ss);
    GivesOutcome(r, KeyMessage(sc, x, y, sr, ss));
    SignVerify(sc.suite, d.priv, CertX(sc, d.cert), CertY(sc, d.cert), hostNonce + x + y, sr, ss);
  }

  lemma PublicLengths(su: Suite, e: nat)
    requires Usable(su)
    ensures |PublicBytes(su, e).0| == su.width && |PublicBytes(su, e).1| == su.width
  {
  }

  lemma HostKeyAccepted(sc: Scheme, d: DriveKeys, hostNonce: seq<byte>, cert: seq<byte>, hx: seq<byte>, hy: seq<byte>,
                        r: seq<byte>, s: seq<byte>)
    requires WellFormed(sc) && |cert| >= CertLen(sc) && |hostNonce| == 20
    requires |hx| == |hy| == |r| == |s| == sc.suite.width
    requires Verify(sc.suite, CertX(sc, cert), CertY(sc, cert), r, s, d.nonce + hx + hy)
    ensures HostKeyValid(sc, d, CertMessage(sc, hostNonce, cert), KeyMessage(sc, hx, hy, r, s))
  {
    hide Verify;
    KeyMessageFields(sc, hx, hy, r, s);
    var cm := CertMessage(sc, hostNonce, cert);
    assert cm[24..] == cert[..CertLen(sc)];
    assert CertX(sc, cm[24..]) == CertX(sc, cert) && CertY(sc, cm[24..]) == CertY(sc, cert);
  }

  lemma HostDraw(cfg: Config, d: DriveKeys, env: Env, h: seq<Event>, priv: seq<byte>, data: seq<byte>)
    requires ValidConfig(cfg) && HonestEnv(cfg, d, env) && FromBytes(priv) % cfg.s1.suite.n != 0
    ensures var (r, s) := cfg.s1.sign(h, priv, data); IsSignature(cfg.s1.suite, priv, data, r, s)
  {
    hide HonestAnswer;
    hide IsSignature;
  }

  lemma SendHostKeyHonest(cfg: Config, d: DriveKeys, env: Env, w: World, priv: seq<byte>, cert: seq<byte>,
                          hostNonce: seq<byte>, e: nat)
    requires ValidConfig(cfg) && HonestEnv(cfg, d, env) && ValidDrive(cfg.s1, d) && Running(w)
    requires Hypotheses(cfg.s1.suite) && |cert| >= 92 && |hostNonce| == 20
    requires KeyPair(cfg.s1.suite, priv, CertX(cfg.s1, cert), CertY(cfg.s1, cert))
    requires LastSent(w.log, 1) == Some(CertMessage(cfg.s1, hostNonce, cert))
    ensures var (hx, hy) := PublicBytes(cfg.s1.suite, e);
            var (o, w') := SendHostKey(env, cfg.s1, w, d.agid, priv, cert, d.nonce, hx, hy);
            && o.Ok? && Running(w') && LastSent(w'.log, 2).Some?
            && |LastSent(w'.log, 2).value| == 84
            && KeyField(cfg.s1, LastSent(w'.log, 2).value, 0) == hx
               && KeyField(cfg.s1, LastSent(w'.log, 2).value, 1) == hy
  {
    hide Verify;
    hide KeyPair;
    hide PublicBytes;
    hide IsSignature;
    hide Hypotheses;
    hide HonestEnv;
    hide CertVerifies;
    hide GivesSignedKey;
    hide Executed;
    hide KeyField;
    hide LastSent;
    hide HostKeyValid;
    hide CertMessage;
    var sc := cfg.s1;
    PublicLengths(sc.suite, e);
    var (hx, hy) := PublicBytes(sc.suite, e);
    var data := d.nonce + hx + hy;
    var (r, s) := sc.sign(w.log, priv, data);
    KeyPairNonzero(sc.suite, priv, CertX(sc, cert), CertY(sc, cert));
    HostDraw(cfg, d, env, w.log, priv, data);
    SignatureLengths(sc.suite, priv, data, r, s);
    SignVerify(sc.suite, priv, CertX(sc, cert), CertY(sc, cert), data, r, s);
    var m := KeyMessage(sc, hx, hy, r, s);
    KeyMessageFields(sc, hx, hy, r, s);
    HostKeyAccepted(sc, d, hostNonce, cert, hx, hy, r, s);
    var c := SendKeyCdb(d.agid, 2, 84);
    ExecuteHonest(cfg, d, env, w, c, m);
    var (_, w') := Executed(env, w, c, m);
    LastSentStep(w.log, w'.log[|w.log|], 2);
  }

  /** Against an honest drive the authentication succeeds, with the key the drive derives. */
  lemma AuthenticateHonest(cfg: Config, d: DriveKeys, env: Env, w: World, priv: seq<byte>, cert: seq<byte>)
    requires ValidConfig(cfg) && HonestEnv(cfg, d, env) && ValidDrive(cfg.s1, d) && Running(w)
    requires Hypotheses(cfg.s1.suite) && |cert| >= 92 && CertVerifies(cfg.s1, cert[..92])
    requires KeyPair(cfg.s1.suite, priv, CertX(cfg.s1, cert), CertY(cfg.s1, cert))
    ensures var (o, w') := Authenticate(env, cfg.s1, w, d.agid, priv, cert);
            && o.Ok? && Running(w') && LastSent(w'.log, 2).Some? && |LastSent(w'.log, 2).value| == 84
            && var m := LastSent(w'.log, 2).value;
               BusKey(cfg.s1.suite, ToBytes(d.scalar, 20), KeyField(cfg.s1, m, 0), KeyField(cfg.s1, m, 1)) ==
                 Some(o.value.busKey)
  {
    var sc := cfg.s1;
    var e := sc.scalar(w.log);
    assert 0 < e < sc.suite.n;
    hide CertVerifies;
    hide KeyPair;
    hide HonestEnv;
    hide ExchangeCerts;
    hide ReadDriveKey;
    hide SendHostKey;
    hide BusKey;
    hide PublicBytes;
    hide LastSent;
    hide KeyField;
    var (hx, hy) := PublicBytes(sc.suite, e);
    ExchangeHonest(cfg, d, env, w, cert);
    var (_, w1) := ExchangeCerts(env, sc, w, d.agid, cert);
    var hostNonce := HostNonce(sc, w);
    var certMsg := CertMessage(sc, hostNonce, cert);
    assert certMsg[4..24] == hostNonce;
    DriveKeyHonest(cfg, d, env, w1, certMsg);
    var (_, w2) := ReadDriveKey(env, sc, w1, d.agid, hostNonce, d.cert);
    SendHostKeyHonest(cfg, d, env, w2, priv, cert, hostNonce, e);
    BusKeyAgreement(sc.suite, e, d.scalar, Product(e, d.scalar), hx, hy, DriveX(sc, d), DriveY(sc, d));
  }

  lemma {:induction false} SweepHonest(cfg: Config, d: DriveKeys, env: Env, w: World, i: nat)
    requires ValidConfig(cfg) && HonestEnv(cfg, d, env) && Running(w) && i <= 4
    ensures Running(Sweep(env, w, i))
    decreases 4 - i
  {
    hide HonestAnswer;
    if i < 4 {
      ExecuteHonest(cfg, d, env, w, ReportKeyCdb(i, 0x3F, 2), []);
      SweepHonest(cfg, d, env, Executed(env, w, ReportKeyCdb(i, 0x3F, 2), []).1, i + 1);
    }
  }

  lemma AkeHonest(cfg: Config, d: DriveKeys, env: Env, w: World, priv: seq<byte>, cert: seq<byte>)
    requires ValidConfig(cfg) && HonestEnv(cfg, d, env) && ValidDrive(cfg.s1, d) && Running(w)
    requires Hypotheses(cfg.s1.suite) && |cert| >= 92 && CertVerifies(cfg.s1, cert[..92])
    requires KeyPair(cfg.s1.suite, priv, CertX(cfg.s1, cert), CertY(cfg.s1, cert))
    ensures var (o, w') := Ake(env, cfg.s1, w, priv, cert);
            && o.Ok? && o.value.agid == d.agid && Running(w') && LastSent(w'.log, 2).Some?
               && |LastSent(w'.log, 2).value| == 84
            && var m := LastSent(w'.log, 2).value;
               BusKey(cfg.s1.suite, ToBytes(d.scalar, 20), KeyField(cfg.s1, m, 0), KeyField(cfg.s1, m, 1)) ==
                 Some(o.value.busKey)
  {
    hide CertVerifies;
    hide KeyPair;
    hide HonestEnv;
    hide Authenticate;
    hide BusKey;
    hide LastSent;
    hide KeyField;
    hide Hypotheses;
    hide Executed;
    hide GivesSignedKey;
    hide HostKeyValid;
    SweepHonest(cfg, d, env, w, 0);
    var w1 := Sweep(env, w, 0);
    ExecuteHonest(cfg, d, env, w1, ReportKeyCdb(0, 0, 8), []);
    var (_, w2) := Executed(env, w1, ReportKeyCdb(0, 0, 8), []);
    AuthenticateHonest(cfg, d, env, w2, priv, cert);
  }

  lemma FinishHonest(cfg: Config, d: DriveKeys, env: Env, w: World, auth: Auth)
    requires ValidConfig(cfg) && HonestEnv(cfg, d, env) && ValidDrive(cfg.s1, d) && Running(w) && auth.agid == d.agid
    requires LastSent(w.log, 2).Some? && |LastSent(w.log, 2).value| == 84
    requires var m := LastSent(w.log, 2).value;
             BusKey(cfg.s1.suite, ToBytes(d.scalar, 20), KeyField(cfg.s1, m, 0), KeyField(cfg.s1, m, 1)) ==
               Some(auth.busKey)
    ensures var (o, _) := FinishAuth(env, cfg, w, auth);
            o.Ok? && o.value.volumeId == d.vid
  {
    hide HonestEnv; hide HonestAnswer; hide BusKey; hide LastSent; hide KeyField; hide Cmac16; hide Executed;
    hide CertVerifies; hide KeyPair;
    var mac := Buffered(Cmac16(cfg.encrypt, d.vid, auth.busKey));
    var c1, c2 := DiscStructureCdb(d.agid, 0x80, 36), DiscStructureCdb(d.agid, 0x84, 36);
    ExecuteHonest(cfg, d, env, w, c1, []);
    var (r, w1) := Executed(env, w, c1, []);
    VidAnswers(cfg, d, w.log, r, LastSent(w.log, 2).value, auth.busKey);
    var reply := [0, 0x22, 0, 0] + d.vid + mac;
    GivesOutcome(r, reply);
    assert reply[4..20] == d.vid && reply[20..36] == mac;
    MacBlock(cfg, d, env, auth.busKey);
    ExecuteHonest(cfg, d, env, w1, c2, []);
    var (r2, _) := Executed(env, w1, c2, []);
    VidAnswers(cfg, d, w1.log, r2, LastSent(w.log, 2).value, auth.busKey);
  }

  /** An honest drive answers for the Volume ID under the bus key of its session, and does not hang up
      when asked for the data keys. */
  lemma VidAnswers(cfg: Config, d: DriveKeys, log: seq<Event>, r: Reply, m: seq<byte>, key: seq<byte>)
    requires ValidConfig(cfg) && ValidDrive(cfg.s1, d) && |m| == 84
    ensures HonestAnswer(cfg, d, log, DiscStructureCdb(d.agid, 0x80, 36), [], r) && LastSent(log, 2) == Some(m)
            && BusKey(cfg.s1.suite, ToBytes(d.scalar, 20), KeyField(cfg.s1, m, 0), KeyField(cfg.s1, m, 1)) ==
               Some(key) ==>
              Gives(r, [0, 0x22, 0, 0] + d.vid + Buffered(Cmac16(cfg.encrypt, d.vid, key)))
    ensures HonestAnswer(cfg, d, log, DiscStructureCdb(d.agid, 0x84, 36), [], r) ==> !IsDeadBus(r)
  {
    hide BusKey; hide LastSent; hide KeyField; hide Cmac16; hide CertVerifies; hide KeyPair; hide GivesSignedKey;
    hide HostKeyValid;
  }

  lemma MacBlock(cfg: Config, d: DriveKeys, env: Env, key: seq<byte>)
    requires ValidConfig(cfg) && HonestEnv(cfg, d, env)
    ensures Buffered(Cmac16(cfg.encrypt, d.vid, key)) == Cmac16(cfg.encrypt, d.vid, key)
  {
    hide HonestAnswer;
    assert |Cmac16(cfg.encrypt, d.vid, key)| == 16;
  }

  /** Any certificate list whose first usable certificate the drive's authority signed runs to Ok
      with the drive's own Volume ID. */
  lemma HonestRun(cfg: Config, d: DriveKeys, env: Env, w: World, certs: seq<HostCert>)
    requires ValidConfig(cfg) && HonestEnv(cfg, d, env) && Running(w) && Hypotheses(cfg.s1.suite)
    requires var us := UsableCerts(cfg, certs);
             |us| > 0 && V1Usable(cfg, us[0]) && CertVerifies(cfg.s1, us[0].cert[..92])
    ensures var (o, _) := CertLoop(env, cfg, w, certs, 0, false);
            o.Ok? && o.value.volumeId == d.vid
  {
    assert ValidDrive(cfg.s1, d);
    hide HonestEnv;
    hide ValidDrive;
    hide Ake;
    hide FinishAuth;
    hide AttemptV2;
    hide CertVerifies;
    hide BusKey;
    hide LastSent;
    hide KeyField;
    hide UsableCerts;
    hide Hypotheses;
    var us := UsableCerts(cfg, certs);
    UnusableCertsIgnored(cfg, env, w, certs, 0, false);
    var hc := us[0];
    KeyPairMatchesMeaning(cfg.s1.suite, hc.priv, CertX(cfg.s1, hc.cert), CertY(cfg.s1, hc.cert));
    AkeHonest(cfg, d, env, w, hc.priv, hc.cert);
    var (auth, w1) := Ake(env, cfg.s1, w, hc.priv, hc.cert);
    FinishHonest(cfg, d, env, w1, auth.value);
  }

  // ----- the self-verify guard -----

  lemma SendHostKeySelfVerifies(env: Env, sc: Scheme, w: World, agid: byte, priv: seq<byte>, cert: seq<byte>,
                                driveNonce: seq<byte>, hx: seq<byte>, hy: seq<byte>)
    requires WellFormed(sc) && Hypotheses(sc.suite) && Signs(sc) && agid < 4
    requires |cert| >= CertLen(sc) && Aacs1KeyPairMatches(sc, priv, cert)
    ensures SendHostKey(env, sc, w, agid, priv, cert, driveNonce, hx, hy).0 != Err(Other(HostSignVerify))
  {
    hide Verify; hide KeyPair; hide KeyPairMatches; hide IsSignature; hide Hypotheses; hide Executed; hide Usable;
    var data := driveNonce + hx + hy;
    var (r, s) := sc.sign(w.log, priv, data);
    KeyPairMatchesMeaning(sc.suite, priv, CertX(sc, cert), CertY(sc, cert));
    KeyPairNonzero(sc.suite, priv, CertX(sc, cert), CertY(sc, cert));
    assert IsSignature(sc.suite, priv, data, r, s);
    SignVerify(sc.suite, priv, CertX(sc, cert), CertY(sc, cert), data, r, s);
  }

  lemma AuthenticateSelfVerifies(env: Env, sc: Scheme, w: World, agid: byte, priv: seq<byte>, cert: seq<byte>)
    requires WellFormed(sc) && Hypotheses(sc.suite) && Signs(sc) && agid < 4
    requires |cert| >= CertLen(sc) && Aacs1KeyPairMatches(sc, priv, cert)
    ensures Authenticate(env, sc, w, agid, priv, cert).0 != Err(Other(HostSignVerify))
  {
    hide Verify; hide KeyPairMatches; hide Hypotheses; hide Executed; hide Usable; hide SendHostKey; hide BusKey;
    hide CertVerifies; hide PublicBytes; hide Signs;
    var (hx, hy) := PublicBytes(sc.suite, sc.scalar(w.log));
    var (certs, w1) := ExchangeCerts(env, sc, w, agid, cert);
    if certs.Ok? {
      var (key, w2) := ReadDriveKey(env, sc, w1, agid, HostNonce(sc, w), certs.value.1);
      SendHostKeySelfVerifies(env, sc, w2, agid, priv, cert, certs.value.0, hx, hy);
    }
  }

  /** A pair that passes `aacs1_keypair_matches` never trips the self-verify guard of step 7, whatever
      the drive sends. */
  lemma SelfVerifyNeverTrips(env: Env, sc: Scheme, w: World, priv: seq<byte>, cert: seq<byte>)
    requires WellFormed(sc) && Hypotheses(sc.suite) && Signs(sc) && Aacs1KeyPairMatches(sc, priv, cert)
    ensures Ake(env, sc, w, priv, cert).0 != Err(Other(HostSignVerify))
  {
    hide KeyPairMatches; hide Hypotheses; hide Executed; hide Usable; hide Authenticate; hide Signs; hide Sweep;
    if |cert| >= CertLen(sc) {
      var (alloc, w2) := ReadStep(env, Sweep(env, w, 0), ReportKeyCdb(0, 0, 8), 8, AgidAlloc);
      if alloc.Ok? { AuthenticateSelfVerifies(env, sc, w2, alloc.value[7] / 64, priv, cert); }
    }
  }
}
