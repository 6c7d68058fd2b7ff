/** Which certificates a run of the handshake sends to the drive, and how it paces them. */
module Pacing {
  import opened Wrappers
  import opened Bytes
  import opened Scsi
  import opened Unlock
  import opened Ecdsa
  import opened Handshake
  import opened Ledger

  // ----- certificates sent -----

  /** A certificate that reached the drive: of which scheme, and its bytes behind header and nonce. */
  datatype Sending = Sending(v1: bool, cert: seq<byte>)

  predicate IsSendCert(c: Cdb) { |c| == 12 && c[0] == 0xA3 && c[10] % 64 == 1 }

  function Carried(e: Event): seq<Sending> {
    if e.Exec? && IsSendCert(e.cdb) then
      [Sending(IsSendCertV1(e.cdb), if |e.out| < 24 then e.out else e.out[24..])]
    else []
  }

  /** Every certificate SEND KEY of a history that reached the drive, in order. */
  function Sends(log: seq<Event>): seq<Sending> {
    if |log| == 0 then [] else Carried(log[0]) + Sends(log[1..])
  }

  lemma {:induction false} SendsAppend(s: seq<Event>, t: seq<Event>)
    ensures Sends(s + t) == Sends(s) + Sends(t)
    decreases |s|
  {
    if |s| == 0 {
      assert s + t == t;
    } else {
      assert (s + t)[0] == s[0] && (s + t)[1..] == s[1..] + t;
      SendsAppend(s[1..], t);
    }
  }

  /** Exactly these certificates were sent from w to w'. */
  ghost predicate Sent(w: World, w': World, xs: seq<Sending>) {
    Continues(w, w') && Sends(Since(w, w')) == xs
  }

  lemma SentSelf(w: World)
    ensures Sent(w, w, [])
  {
  }

  lemma SentEvent(w: World, w': World, e: Event)
    requires w'.log == w.log + [e]
    ensures Sent(w, w', Carried(e))
  {
    assert Since(w, w') == [e] && Sends([e]) == Carried(e) + Sends([]);
  }

  lemma SentTrans(w: World, w1: World, w2: World, xs: seq<Sending>, ys: seq<Sending>)
    requires Sent(w, w1, xs) && Sent(w1, w2, ys)
    ensures Sent(w, w2, xs + ys)
  {
    SinceCompose(w, w1, w2);
    SendsAppend(Since(w, w1), Since(w1, w2));
  }

  lemma ReadSends(env: Env, w: World, c: Cdb, len: nat, fallback: Error)
    requires !IsSendCert(c)
    ensures Sent(w, ReadStep(env, w, c, len, fallback).1, [])
  {
    var (_, w') := Executed(env, w, c, []);
    SentEvent(w, w', w'.log[|w.log|]);
  }

  lemma WriteSends(env: Env, w: World, c: Cdb, out: seq<byte>, fallback: Error)
    requires !IsSendCert(c)
    ensures Sent(w, WriteStep(env, w, c, out, fallback).1, [])
  {
    var (_, w') := Executed(env, w, c, out);
    SentEvent(w, w', w'.log[|w.log|]);
  }

  lemma ReleaseSends(env: Env, w: World, agid: byte)
    requires agid < 4
    ensures Sent(w, Released(env, w, agid), [])
  {
    var c := ReportKeyCdb(agid, 0x3F, 2);
    SentEvent(w, Released(env, w, agid), Cleanup(c, env.drive(w.log, c, [])));
  }

  lemma {:induction false} SweepSends(env: Env, w: World, i: nat)
    requires i <= 4
    ensures Sent(w, Sweep(env, w, i), [])
    decreases 4 - i
  {
    if i == 4 {
      SentSelf(w);
    } else {
      var c := ReportKeyCdb(i, 0x3F, 2);
      var (_, w1) := Executed(env, w, c, []);
      SentEvent(w, w1, w1.log[|w.log|]);
      SweepSends(env, w1, i + 1);
      SentTrans(w, w1, Sweep(env, w, i), [], []);
    }
  }

  /** The one message that carries a certificate. */
  lemma CertMessageSends(env: Env, sc: Scheme, w: World, agid: byte, cert: seq<byte>) returns (xs: seq<Sending>)
    requires WellFormed(sc) && agid < 4 && |cert| >= CertLen(sc)
    ensures var n := CertMessageLen(sc);
            Sent(w, WriteStep(env, w, SendKeyCdb(agid, 1, n), CertMessage(sc, HostNonce(sc, w), cert), CertRejected).1,
              xs)
    ensures xs in {[], [Sending(sc.v1, cert[..CertLen(sc)])]}
  {
    var c, out := SendKeyCdb(agid, 1, CertMessageLen(sc)), CertMessage(sc, HostNonce(sc, w), cert);
    assert out[24..] == cert[..CertLen(sc)];
    assert IsSendCertV1(c) <==> sc.v1;
    var (_, w') := Executed(env, w, c, out);
    var e := w'.log[|w.log|];
    SentEvent(w, w', e);
    xs := Carried(e);
  }

  lemma ExchangeCertsSends(env: Env, sc: Scheme, w: World, agid: byte, cert: seq<byte>) returns (xs: seq<Sending>)
    requires WellFormed(sc) && agid < 4 && |cert| >= CertLen(sc)
    ensures Sent(w, ExchangeCerts(env, sc, w, agid, cert).1, xs)
    ensures xs in {[], [Sending(sc.v1, cert[..CertLen(sc)])]}
  {
    hide Sent; hide Sends; hide Executed; hide Verify; hide CheckDriveCert;
    var n := CertMessageLen(sc);
    xs := CertMessageSends(env, sc, w, agid, cert);
    var (sent, w1) := WriteStep(env, w, SendKeyCdb(agid, 1, n), CertMessage(sc, HostNonce(sc, w), cert), CertRejected);
    if sent.Ok? {
      ReadSends(env, w1, ReportKeyCdb(agid, 1, n), n, CertRead);
      var (_, w2) := ReadStep(env, w1, ReportKeyCdb(agid, 1, n), n, CertRead);
      SentTrans(w, w1, w2, xs, []);
      assert xs + [] == xs;
    }
  }

  lemma KeyExchangeSends(env: Env, sc: Scheme, w: World, agid: byte, nonce: seq<byte>, driveCert: seq<byte>)
    requires WellFormed(sc) && agid < 4 && |driveCert| == CertLen(sc)
    ensures Sent(w, ReadDriveKey(env, sc, w, agid, nonce, driveCert).1, [])
  {
    hide Sent; hide Verify; hide Executed;
    ReadSends(env, w, ReportKeyCdb(agid, 2, KeyMessageLen(sc)), KeyMessageLen(sc), KeyRead);
  }

  lemma HostKeySends(env: Env, sc: Scheme, w: World, agid: byte, priv: seq<byte>, cert: seq<byte>,
                     driveNonce: seq<byte>, hx: seq<byte>, hy: seq<byte>)
    requires WellFormed(sc) && agid < 4 && |cert| >= CertLen(sc)
    ensures Sent(w, SendHostKey(env, sc, w, agid, priv, cert, driveNonce, hx, hy).1, [])
  {
    hide Sent; hide Verify; hide Executed; hide KeyMessage;
    SentSelf(w);
    var (r, s) := sc.sign(w.log, priv, driveNonce + hx + hy);
    WriteSends(env, w, SendKeyCdb(agid, 2, KeyMessageLen(sc)), KeyMessage(sc, hx, hy, r, s), KeyRejected);
  }

  lemma AuthenticateSends(env: Env, sc: Scheme, w: World, agid: byte, priv: seq<byte>, cert: seq<byte>)
    returns (xs: seq<Sending>)
    requires WellFormed(sc) && agid < 4 && |cert| >= CertLen(sc)
    ensures Sent(w, Authenticate(env, sc, w, agid, priv, cert).1, xs)
    ensures xs in {[], [Sending(sc.v1, cert[..CertLen(sc)])]}
  {
    hide Sent; hide ExchangeCerts; hide ReadDriveKey; hide SendHostKey; hide BusKey; hide PublicBytes;
    var (hx, hy) := PublicBytes(sc.suite, sc.scalar(w.log));
    var (certs, w1) := ExchangeCerts(env, sc, w, agid, cert);
    xs := ExchangeCertsSends(env, sc, w, agid, cert);
    assert xs + [] == xs;
    if certs.Ok? {
      var (driveNonce, driveCert) := certs.value;
      var (key, w2) := ReadDriveKey(env, sc, w1, agid, HostNonce(sc, w), driveCert);
      KeyExchangeSends(env, sc, w1, agid, HostNonce(sc, w), driveCert);
      SentTrans(w, w1, w2, xs, []);
      if key.Ok? {
        var (_, w3) := SendHostKey(env, sc, w2, agid, priv, cert, driveNonce, hx, hy);
        HostKeySends(env, sc, w2, agid, priv, cert, driveNonce, hx, hy);
        SentTrans(w, w2, w3, xs, []);
      }
    }
  }

  /** One authentication sends its certificate at most once, and no other. */
  lemma AkeSends(env: Env, sc: Scheme, w: World, priv: seq<byte>, cert: seq<byte>) returns (xs: seq<Sending>)
    requires WellFormed(sc)
    ensures Sent(w, Ake(env, sc, w, priv, cert).1, xs)
    ensures xs == [] || (|cert| >= CertLen(sc) && xs == [Sending(sc.v1, cert[..CertLen(sc)])])
  {
    hide Sent; hide Authenticate; hide ReadStep; hide Sweep; hide Released;
    xs := [];
    SentSelf(w);
    if |cert| >= CertLen(sc) {
      var w1 := Sweep(env, w, 0);
      SweepSends(env, w, 0);
      var (alloc, w2) := ReadStep(env, w1, ReportKeyCdb(0, 0, 8), 8, AgidAlloc);
      ReadSends(env, w1, ReportKeyCdb(0, 0, 8), 8, AgidAlloc);
      SentTrans(w, w1, w2, [], []);
      if alloc.Ok? {
        var agid := alloc.value[7] / 64;
        var (auth, w3) := Authenticate(env, sc, w2, agid, priv, cert);
        xs := AuthenticateSends(env, sc, w2, agid, priv, cert);
        assert [] + xs == xs && xs + [] == xs;
        SentTrans(w, w2, w3, [], xs);
        ReleaseSends(env, w3, agid);
        SentTrans(w, w3, Released(env, w3, agid), xs, []);
      }
    }
  }

  lemma FinishSends(env: Env, cfg: Config, w: World, auth: Auth)
    requires auth.agid < 4
    ensures Sent(w, FinishAuth(env, cfg, w, auth).1, [])
  {
    hide Sent; hide ReadStep; hide Released;
    ReadSends(env, w, DiscStructureCdb(auth.agid, 0x80, 36), 36, VidRead);
    var (vid, w1) := ReadVolumeId(env, cfg, w, auth);
    ReleaseSends(env, w1, auth.agid);
    SentTrans(w, w1, Released(env, w1, auth.agid), [], []);
    ReadSends(env, w1, DiscStructureCdb(auth.agid, 0x84, 36), 36, DataKey);
    var (_, w2) := ReadDataKeys(env, cfg, w1, auth);
    SentTrans(w, w1, w2, [], []);
    ReleaseSends(env, w2, auth.agid);
    SentTrans(w, w2, Released(env, w2, auth.agid), [], []);
  }

  // ----- one certificate of the list -----

  /** What one entry of the list may send: its 1.0 certificate and then its P-256 certificate, each if
      usable. */
  function Certificates(cfg: Config, hc: HostCert): seq<Sending>
    requires ValidConfig(cfg)
  {
    (if V1Usable(cfg, hc) then [Sending(true, hc.cert[..CertLen(cfg.s1)])] else []) +
    (if V2Usable(cfg, hc) then [Sending(false, hc.cert2.value[..CertLen(cfg.s2)])] else [])
  }

  /** Each of them at most once, in that order. */
  predicate Among(xs: seq<Sending>, ys: seq<Sending>) {
    xs <= ys || (ys != [] && xs <= ys[1..])
  }

  lemma AttemptV2Sends(env: Env, cfg: Config, w: World, hc: HostCert, v1DriveDead: bool) returns (xs: seq<Sending>)
    requires ValidConfig(cfg) && V2Usable(cfg, hc)
    ensures Sent(w, AttemptV2(env, cfg, w, hc, v1DriveDead).1, xs)
    ensures xs in {[], [Sending(false, hc.cert2.value[..CertLen(cfg.s2)])]}
  {
    hide Sent; hide Ake; hide FinishAuth;
    var (auth, w1) := Ake(env, cfg.s2, w, hc.priv2.value, hc.cert2.value);
    xs := AkeSends(env, cfg.s2, w, hc.priv2.value, hc.cert2.value);
    if auth.Ok? {
      FinishSends(env, cfg, w1, auth.value);
      SentTrans(w, w1, FinishAuth(env, cfg, w1, auth.value).1, xs, []);
      assert xs + [] == xs;
    }
  }

  /** One entry's attempt sends no certificate but its own, each at most once. */
  lemma AttemptSends(env: Env, cfg: Config, w: World, hc: HostCert, tryV1: bool, hasV2: bool) returns (xs: seq<Sending>)
    requires ValidConfig(cfg) && (tryV1 || hasV2) && (hasV2 <==> V2Usable(cfg, hc)) && (tryV1 ==> V1Usable(cfg, hc))
    ensures Sent(w, Attempt(env, cfg, w, hc, tryV1, hasV2).1, xs) && Among(xs, Certificates(cfg, hc))
  {
    hide Sent; hide Ake; hide FinishAuth; hide AttemptV2; hide Aacs1KeyPairMatches;
    if !tryV1 {
      xs := AttemptV2Sends(env, cfg, w, hc, false);
    } else {
      var (auth, w1) := Ake(env, cfg.s1, w, hc.priv, hc.cert);
      xs := AkeSends(env, cfg.s1, w, hc.priv, hc.cert);
      var w2 := w1;
      if auth.Ok? {
        FinishSends(env, cfg, w1, auth.value);
        w2 := FinishAuth(env, cfg, w1, auth.value).1;
        SentTrans(w, w1, w2, xs, []);
        assert xs + [] == xs;
      }
      if hasV2 {
        var dead := auth.Err? && auth.error.DriveCert?;
        var ys := AttemptV2Sends(env, cfg, w2, hc, dead);
        SentTrans(w, w2, AttemptV2(env, cfg, w2, hc, dead).1, xs, ys);
        if Attempt(env, cfg, w, hc, tryV1, hasV2) == AttemptV2(env, cfg, w2, hc, dead) { xs := xs + ys; }
      }
    }
  }

  // ----- pacing -----

  predicate Unpaused(log: seq<Event>) {
    forall e <- log :: !e.Pause? && !e.PauseRefused?
  }

  lemma {:induction false} WaitsCount(cfg: Config, b: Book, log: seq<Event>)
    requires ValidConfig(cfg) && Books(cfg, b, log).Some?
    ensures Books(cfg, b, log).value.waits >= b.waits
    ensures Books(cfg, b, log).value.waits == b.waits ==> Unpaused(log)
    decreases |log|
  {
    if |log| > 0 { WaitsCount(cfg, StepBook(cfg, b, log[0]).value, log[1..]); }
  }

  /** A history of at most 3 - attempts round trips over successive entries of the list, with exactly
      one backoff before every one but the first; a refused backoff ends it. */
  ghost predicate Paced(cfg: Config, certs: seq<HostCert>, log: seq<Event>, attempts: nat)
    requires ValidConfig(cfg)
    decreases |certs|
  {
    || log == []
    || (attempts > 0 && log == [PauseRefused(PER_CERT_BACKOFF_MS)])
    || (attempts < MAX_CERT_ATTEMPTS && exists i: nat, k: nat ::
          RoundTrip(cfg, certs, i, log, attempts, k) && Paced(cfg, certs[i + 1..], log[k..], attempts + 1))
  }

  /** The first k events are one backoff (after an earlier attempt) and the round trip of the i-th
      entry, a usable one: unpaused, and with no certificate sent but its own, each at most once. */
  ghost predicate RoundTrip(cfg: Config, certs: seq<HostCert>, i: nat, log: seq<Event>, attempts: nat, k: nat)
    requires ValidConfig(cfg)
  {
    var first := if attempts > 0 then 1 else 0;
    && i < |certs| && first < k <= |log| && Unpaused(log[first..k])
    && (attempts > 0 ==> log[0] == Pause(PER_CERT_BACKOFF_MS))
    && Certificates(cfg, certs[i]) != [] && Among(Sends(log[first..k]), Certificates(cfg, certs[i]))
  }

  lemma PacedStep(cfg: Config, certs: seq<HostCert>, i: nat, head: seq<Event>, seg: seq<Event>, rest: seq<Event>,
      attempts: nat)
    requires ValidConfig(cfg) && attempts < MAX_CERT_ATTEMPTS && i < |certs|
    requires |seg| > 0 && Unpaused(seg) && Among(Sends(seg), Certificates(cfg, certs[i]))
        && Certificates(cfg, certs[i]) != []
    requires Paced(cfg, certs[i + 1..], rest, attempts + 1)
    requires head == if attempts > 0 then [Pause(PER_CERT_BACKOFF_MS)] else []
    ensures Paced(cfg, certs, head + seg + rest, attempts)
  {
    hide Certificates; hide Among; hide Sends;
    var log, k := head + seg + rest, |head + seg|;
    assert log[|head|..k] == seg && log[k..] == rest;
    assert RoundTrip(cfg, certs, i, log, attempts, k);
  }

  lemma PacedEnds(cfg: Config, certs: seq<HostCert>, attempts: nat)
    requires ValidConfig(cfg)
    ensures Paced(cfg, certs, [], attempts)
    ensures attempts > 0 ==> Paced(cfg, certs, [PauseRefused(PER_CERT_BACKOFF_MS)], attempts)
  {
  }

  /** A pacing over the rest of the list is one over the list. */
  lemma PacedSkip(cfg: Config, certs: seq<HostCert>, log: seq<Event>, attempts: nat)
    requires ValidConfig(cfg) && |certs| > 0 && Paced(cfg, certs[1..], log, attempts)
    ensures Paced(cfg, certs, log, attempts)
  {
    hide Among; hide Certificates; hide Unpaused; hide Sends;
    if log != [] && !(attempts > 0 && log == [PauseRefused(PER_CERT_BACKOFF_MS)]) {
      var rest := certs[1..];
      var i: nat, k: nat :|
        RoundTrip(cfg, rest, i, log, attempts, k) && Paced(cfg, rest[i + 1..], log[k..], attempts + 1);
      assert rest[i + 1..] == certs[i + 1 + 1..];
      assert RoundTrip(cfg, certs, i + 1, log, attempts, k);
    }
  }

  lemma KeptUnpaused(cfg: Config, w: World, w': World, b: Book, b': Book)
    requires ValidConfig(cfg) && Kept(cfg, w, w', b, b') && b'.waits == b.waits && |w'.log| > |w.log|
    ensures Continues(w, w') && |Since(w, w')| > 0 && Unpaused(Since(w, w'))
  {
    WaitsCount(cfg, b, Since(w, w'));
  }

  lemma BackoffEvent(env: Env, w: World, attempts: nat)
    requires attempts > 0
    ensures var (ok, w') := Paused(env, w, PER_CERT_BACKOFF_MS);
            Continues(w, w') && w'.critical == w.critical
            && Since(w, w') == [if ok then Pause(PER_CERT_BACKOFF_MS) else PauseRefused(PER_CERT_BACKOFF_MS)]
  {
  }

  /** The segment one attempt appends. */
  lemma AttemptSegment(cfg: Config, env: Env, w: World, hc: HostCert, tryV1: bool, hasV2: bool, b: Book)
      returns (b': Book)
    requires ValidConfig(cfg) && (tryV1 || hasV2) && (hasV2 <==> V2Usable(cfg, hc)) && (tryV1 ==> V1Usable(cfg, hc))
    requires w.critical == 0 && !b.dead && b.held.None? && (tryV1 ==> !b.v1Dead)
    ensures var (o, w') := Attempt(env, cfg, w, hc, tryV1, hasV2);
            && w'.critical == 0 && Closed(b, b', o) && Continues(w, w') && |Since(w, w')| > 0 && Unpaused(Since(w, w'))
            && Among(Sends(Since(w, w')), Certificates(cfg, hc)) && Certificates(cfg, hc) != []
  {
    hide Attempt; hide V1Usable; hide V2Usable; hide Kept;
    var (_, w') := Attempt(env, cfg, w, hc, tryV1, hasV2);
    b' := AttemptKept(cfg, env, w, hc, tryV1, hasV2, b);
    KeptUnpaused(cfg, w, w', b, b');
    var xs := AttemptSends(env, cfg, w, hc, tryV1, hasV2);
  }

  /** The loop passes over an entry it cannot try. */
  lemma LoopSkips(cfg: Config, env: Env, w: World, certs: seq<HostCert>, attempts: nat, v1Dead: bool)
    requires ValidConfig(cfg) && |certs| > 0 && attempts < MAX_CERT_ATTEMPTS
    requires !V2Usable(cfg, certs[0]) && (v1Dead || !V1Usable(cfg, certs[0]))
    ensures CertLoop(env, cfg, w, certs, attempts, v1Dead) == CertLoop(env, cfg, w, certs[1..], attempts, v1Dead)
  {
    hide V1Usable; hide V2Usable; hide Attempt;
  }

  /** The history of a loop that tries its first entry from w1 on: the attempt, and after a rejection
      the loop over the rest. */
  lemma LoopTries(cfg: Config, env: Env, w: World, w1: World, certs: seq<HostCert>, attempts: nat, v1Dead: bool)
    requires ValidConfig(cfg) && |certs| > 0 && attempts < MAX_CERT_ATTEMPTS
    requires V2Usable(cfg, certs[0]) || (!v1Dead && V1Usable(cfg, certs[0]))
    requires if attempts > 0 then Paused(env, w, PER_CERT_BACKOFF_MS) == (true, w1) else w1 == w
    ensures var hasV2 := V2Usable(cfg, certs[0]);
            var (out, w2) := Attempt(env, cfg, w1, certs[0], V1Usable(cfg, certs[0]) && !v1Dead, hasV2);
            CertLoop(env, cfg, w, certs, attempts, v1Dead).1 ==
              if out.Reject? then CertLoop(env, cfg, w2, certs[1..], attempts + 1, v1Dead || out.v1DriveDead).1 else w2
  {
    hide V1Usable; hide V2Usable; hide Attempt; hide Paused;
    var (out, w2) := Attempt(env, cfg, w1, certs[0], V1Usable(cfg, certs[0]) && !v1Dead, V2Usable(cfg, certs[0]));
    assert CertLoop(env, cfg, w, certs, attempts, v1Dead) ==
             match out
             case Done(h) => (Ok(h), w2)
             case Dropped => (Err(UnlockError.Transport), w2)
             case NoVid => (Err(UnlockError.VidUnavailable), w2)
             case Reject(dead) => CertLoop(env, cfg, w2, certs[1..], attempts + 1, v1Dead || dead);
  }

  /** A refused backoff ends the loop. */
  lemma LoopStops(cfg: Config, env: Env, w: World, w1: World, certs: seq<HostCert>, attempts: nat, v1Dead: bool)
    requires ValidConfig(cfg) && |certs| > 0 && 0 < attempts < MAX_CERT_ATTEMPTS
    requires V2Usable(cfg, certs[0]) || (!v1Dead && V1Usable(cfg, certs[0]))
    requires Paused(env, w, PER_CERT_BACKOFF_MS) == (false, w1)
    ensures CertLoop(env, cfg, w, certs, attempts, v1Dead).1 == w1
  {
    hide V1Usable; hide V2Usable; hide Attempt; hide Paused;
  }

  lemma LoopEnds(cfg: Config, env: Env, w: World, certs: seq<HostCert>, attempts: nat, v1Dead: bool)
    requires ValidConfig(cfg) && (|certs| == 0 || attempts >= MAX_CERT_ATTEMPTS)
    ensures CertLoop(env, cfg, w, certs, attempts, v1Dead).1 == w && Since(w, w) == []
  {
  }

  /** At most three entries of the list reach the drive, each with its own certificates only and each
      of those at most once, with exactly one pause between two entries. */
  lemma {:induction false} CertLoopPaced(cfg: Config, env: Env, w: World, certs: seq<HostCert>, attempts: nat, b: Book)
    requires ValidConfig(cfg) && w.critical == 0 && !b.dead && b.held.None?
    ensures var (o, w') := CertLoop(env, cfg, w, certs, attempts, b.v1Dead);
            Continues(w, w') && Paced(cfg, certs, Since(w, w'), attempts)
    decreases |certs|, 1
  {
    hide Attempt; hide V1Usable; hide V2Usable; hide Paced; hide Paused; hide CertLoop; hide Since;
    PacedEnds(cfg, certs, attempts);
    if |certs| == 0 || attempts >= MAX_CERT_ATTEMPTS {
      LoopEnds(cfg, env, w, certs, attempts, b.v1Dead);
    } else if !V2Usable(cfg, certs[0]) && (b.v1Dead || !V1Usable(cfg, certs[0])) {
      CertLoopPaced(cfg, env, w, certs[1..], attempts, b);
      LoopSkips(cfg, env, w, certs, attempts, b.v1Dead);
      PacedSkip(cfg, certs, Since(w, CertLoop(env, cfg, w, certs, attempts, b.v1Dead).1), attempts);
    } else if attempts == 0 {
      CertTriedPaced(cfg, env, w, w, certs, attempts, b);
    } else {
      var (waited, w1) := Paused(env, w, PER_CERT_BACKOFF_MS);
      BackoffEvent(env, w, attempts);
      if waited { CertTriedPaced(cfg, env, w, w1, certs, attempts, b); } else {
        LoopStops(cfg, env, w, w1, certs, attempts, b.v1Dead);
      }
    }
  }

  /** The loop from the attempt on its first entry on. */
  lemma {:induction false} CertTriedPaced(cfg: Config, env: Env, w: World, w1: World, certs: seq<HostCert>,
      attempts: nat, b: Book)
    requires ValidConfig(cfg) && w1.critical == 0 && !b.dead && b.held.None? && |certs| > 0
    requires attempts < MAX_CERT_ATTEMPTS && (V2Usable(cfg, certs[0]) || (!b.v1Dead && V1Usable(cfg, certs[0])))
    requires if attempts > 0 then Paused(env, w, PER_CERT_BACKOFF_MS) == (true, w1) else w1 == w
    ensures var (o, w') := CertLoop(env, cfg, w, certs, attempts, b.v1Dead);
            Continues(w, w') && Paced(cfg, certs, Since(w, w'), attempts)
    decreases |certs|, 0
  {
    hide Attempt; hide V1Usable; hide V2Usable; hide Paced; hide Paused; hide CertLoop; hide Unpaused; hide Among;
    hide Certificates; hide Sends;
    if attempts > 0 { BackoffEvent(env, w, attempts); }
    var head := Since(w, w1);
    LoopTries(cfg, env, w, w1, certs, attempts, b.v1Dead);
    var hasV2, tryV1 := V2Usable(cfg, certs[0]), V1Usable(cfg, certs[0]) && !b.v1Dead;
    var (out, w2) := Attempt(env, cfg, w1, certs[0], tryV1, hasV2);
    var b2 := AttemptSegment(cfg, env, w1, certs[0], tryV1, hasV2, b);
    SinceCompose(w, w1, w2);
    var seg := Since(w1, w2);
    if out.Reject? {
      CertLoopPaced(cfg, env, w2, certs[0 + 1..], attempts + 1, b2);
      var (_, w3) := CertLoop(env, cfg, w2, certs[0 + 1..], attempts + 1, b2.v1Dead);
      SinceCompose(w, w2, w3);
      PacedStep(cfg, certs, 0, head, seg, Since(w2, w3), attempts);
    } else {
      PacedEnds(cfg, certs[0 + 1..], attempts + 1);
      PacedStep(cfg, certs, 0, head, seg, [], attempts);
      assert head + seg + [] == head + seg;
    }
  }

  /** How many certificates of one scheme were sent. */
  function Tally(xs: seq<Sending>, v1: bool): nat {
    if |xs| == 0 then 0 else (if xs[0].v1 == v1 then 1 else 0) + Tally(xs[1..], v1)
  }

  function Pauses(log: seq<Event>): nat {
    if |log| == 0 then 0 else (if log[0].Pause? then 1 else 0) + Pauses(log[1..])
  }

  lemma {:induction false} TallyAppend(xs: seq<Sending>, ys: seq<Sending>, v1: bool)
    ensures Tally(xs + ys, v1) == Tally(xs, v1) + Tally(ys, v1)
    decreases |xs|
  {
    if |xs| == 0 {
      assert xs + ys == ys;
    } else {
      assert (xs + ys)[0] == xs[0] && (xs + ys)[1..] == xs[1..] + ys;
      TallyAppend(xs[1..], ys, v1);
    }
  }

  lemma TallySmall(xs: seq<Sending>, v1: bool)
    ensures |xs| == 0 ==> Tally(xs, v1) == 0
    ensures |xs| == 1 ==> Tally(xs, v1) == if xs[0].v1 == v1 then 1 else 0
    ensures |xs| == 2 ==> Tally(xs, v1) == (if xs[0].v1 == v1 then 1 else 0) + (if xs[1].v1 == v1 then 1 else 0)
  {
    if |xs| == 1 { assert xs[1..] == []; }
    if |xs| == 2 { assert xs[1..] == [xs[1]] && xs[1..][1..] == []; }
  }

  lemma AmongOnce(cfg: Config, hc: HostCert, xs: seq<Sending>, v1: bool)
    requires ValidConfig(cfg) && Among(xs, Certificates(cfg, hc))
    ensures Tally(xs, v1) <= 1
  {
    hide V1Usable; hide V2Usable; hide Tally;
    TallySmall(xs, v1);
  }

  lemma {:induction false} UnpausedNone(log: seq<Event>)
    requires Unpaused(log)
    ensures Pauses(log) == 0
    decreases |log|
  {
    if |log| > 0 { UnpausedNone(log[1..]); }
  }

  lemma {:induction false} PausesAppend(s: seq<Event>, t: seq<Event>)
    ensures Pauses(s + t) == Pauses(s) + Pauses(t)
    decreases |s|
  {
    if |s| == 0 {
      assert s + t == t;
    } else {
      assert (s + t)[0] == s[0] && (s + t)[1..] == s[1..] + t;
      PausesAppend(s[1..], t);
    }
  }

  /** The cap, counted: a paced history carries at most three certificates of either scheme, and fewer
      pauses than attempts. */
  lemma {:induction false} PacedCap(cfg: Config, certs: seq<HostCert>, log: seq<Event>, attempts: nat, v1: bool)
    requires ValidConfig(cfg) && attempts <= MAX_CERT_ATTEMPTS && Paced(cfg, certs, log, attempts)
    ensures Tally(Sends(log), v1) + attempts <= MAX_CERT_ATTEMPTS
    ensures Pauses(log) + attempts <= MAX_CERT_ATTEMPTS && (attempts == 0 ==> Pauses(log) < MAX_CERT_ATTEMPTS)
    decreases |certs|
  {
    hide Among; hide Certificates; hide Unpaused; hide Sends; hide Tally; hide Pauses;
    Nothing();
    if log == [] {
    } else if attempts > 0 && log == [PauseRefused(PER_CERT_BACKOFF_MS)] {
    } else {
      var i: nat, k: nat :|
        RoundTrip(cfg, certs, i, log, attempts, k) && Paced(cfg, certs[i + 1..], log[k..], attempts + 1);
      PacedCap(cfg, certs[i + 1..], log[k..], attempts + 1, v1);
      RoundTripCounts(cfg, certs, i, log, attempts, k, v1);
    }
  }

  lemma Nothing()
    ensures Sends([]) == [] && Pauses([]) == 0 && Tally([], true) == Tally([], false) == 0
    ensures Sends([PauseRefused(PER_CERT_BACKOFF_MS)]) == [] && Pauses([PauseRefused(PER_CERT_BACKOFF_MS)]) == 0
    ensures Sends([Pause(PER_CERT_BACKOFF_MS)]) == [] && Pauses([Pause(PER_CERT_BACKOFF_MS)]) == 1
  {
    assert [PauseRefused(PER_CERT_BACKOFF_MS)][1..] == [] == [Pause(PER_CERT_BACKOFF_MS)][1..];
  }

  /** One round trip adds at most one certificate of a scheme, and the backoff before it. */
  lemma RoundTripCounts(cfg: Config, certs: seq<HostCert>, i: nat, log: seq<Event>, attempts: nat, k: nat, v1: bool)
    requires ValidConfig(cfg) && RoundTrip(cfg, certs, i, log, attempts, k)
    ensures Tally(Sends(log), v1) <= 1 + Tally(Sends(log[k..]), v1)
    ensures Pauses(log) == (if attempts > 0 then 1 else 0) + Pauses(log[k..])
  {
    hide Among; hide Certificates; hide Sends; hide Tally; hide Pauses; hide Unpaused;
    var first := if attempts > 0 then 1 else 0;
    var head, seg, rest := log[..first], log[first..k], log[k..];
    assert log == head + (seg + rest);
    SendsAppend(head, seg + rest);
    SendsAppend(seg, rest);
    Nothing();
    assert head == if attempts > 0 then [Pause(PER_CERT_BACKOFF_MS)] else [];
    assert [] + (Sends(seg) + Sends(rest)) == Sends(seg) + Sends(rest);
    TallyAppend(Sends(seg), Sends(rest), v1);
    AmongOnce(cfg, certs[i], Sends(seg), v1);
    PausesAppend(head, seg + rest);
    PausesAppend(seg, rest);
    UnpausedNone(seg);
  }
}
