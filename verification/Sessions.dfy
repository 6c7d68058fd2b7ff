/** Whole runs of the certificate loop, read off the history: what each entry of the list came to, when
    the second generation is tried, and which answers of the drive a returned Volume ID rests on. */
module Sessions {
  import opened Wrappers
  import opened Bytes
  import opened Scsi
  import opened Unlock
  import opened Ecdsa
  import opened Cmac
  import opened Handshake
  import opened Ledger
  import opened Authentic

  // ----- one generation of one entry -----

  /** What trying one certificate came to. */
  datatype Half = Served(handshake: CertHandshake) | WrongMac | NoVolumeId | CutOff | Rejection(hopeless: bool)

  /** The authentication, and what finishes it. */
  function Tried(env: Env, cfg: Config, sc: Scheme, w: World, priv: seq<byte>, cert: seq<byte>): (Half, World)
    requires WellFormed(sc)
  {
    var (auth, w1) := Ake(env, sc, w, priv, cert);
    match auth
    case Err(f) => (if f.Other? && IsTransport(f.error) then CutOff else Rejection(f.DriveCert?), w1)
    case Ok(a) =>
      var (fin, w2) := FinishAuth(env, cfg, w1, a);
      (match fin
       case Ok(h) => Served(h)
       case Err(FinishTransport) => CutOff
       case Err(FinishVidMac) => WrongMac
       case Err(FinishVidUnavailable) => NoVolumeId, w2)
  }

  /** The stretch holds a mutual authentication and, under its bus key, a Volume ID with a valid MAC. */
  ghost predicate Session(cfg: Config, sc: Scheme, hist: seq<Event>, priv: seq<byte>, cert: seq<byte>,
                          seg: seq<Event>, h: CertHandshake)
    requires WellFormed(sc)
  {
    |seg| > 9 && exists auth ::
      Established(sc, hist, priv, cert, seg[..9], auth) && auth.agid < 4 && Finished(cfg, auth, seg[9..], h)
  }

  /** The stretch ends after an authentication with the Volume ID read, whose answer is `got`. */
  ghost predicate VidAnswered(sc: Scheme, hist: seq<Event>, priv: seq<byte>, cert: seq<byte>, seg: seq<Event>,
                              auth: Auth, got: Option<seq<byte>>)
    requires WellFormed(sc)
  {
    && |seg| == 11 && Established(sc, hist, priv, cert, seg[..9], auth) && auth.agid < 4
    && GivesBack(seg[10], auth.agid) && got == Got(seg[9], DiscStructureCdb(auth.agid, 0x80, 36), 36)
  }

  /** The stretch ends after an authentication with one or two reads and the release. */
  ghost predicate FinishedShort(sc: Scheme, hist: seq<Event>, priv: seq<byte>, cert: seq<byte>, seg: seq<Event>)
    requires WellFormed(sc)
  {
    11 <= |seg| <= 12 && exists auth ::
      && Established(sc, hist, priv, cert, seg[..9], auth) && auth.agid < 4 && GivesBack(seg[|seg| - 1], auth.agid)
      && Issued(seg[9], DiscStructureCdb(auth.agid, 0x80, 36))
  }

  /** A dead bus or a stopped host after the sweep. */
  ghost predicate Cut(seg: seq<Event>) { |seg| > 4 && Breaks(seg[4..]) }

  /** What a stretch of history shows a certificate to have come to. */
  ghost predicate Shows(cfg: Config, sc: Scheme, hist: seq<Event>, priv: seq<byte>, cert: seq<byte>,
                        seg: seq<Event>, half: Half)
    requires WellFormed(sc)
  {
    match half
    case Served(h) => Session(cfg, sc, hist, priv, cert, seg, h)
    case WrongMac => exists auth, got ::
        && VidAnswered(sc, hist, priv, cert, seg, auth, got) && got.Some?
        && !MacValid(cfg.encrypt, auth.busKey, got.value)
    case NoVolumeId => !Cut(seg) && exists auth :: VidAnswered(sc, hist, priv, cert, seg, auth, None)
    case CutOff => Cut(seg) && (Fails(sc, cert, seg) || FinishedShort(sc, hist, priv, cert, seg))
    case Rejection(hopeless) =>
      && Fails(sc, cert, seg) && !Cut(seg)
      && (|seg| >= 9 ==> forall auth :: !Established(sc, hist, priv, cert, seg[..9], auth))
      && (hopeless <==> EndsHopeless(sc, cert, seg))
  }

  lemma TriedMeaning(env: Env, cfg: Config, sc: Scheme, w: World, priv: seq<byte>, cert: seq<byte>)
    requires WellFormed(sc) && Hypotheses(sc.suite)
    ensures var (half, w') := Tried(env, cfg, sc, w, priv, cert);
      && w'.log == w.log + Since(w, w') && Shows(cfg, sc, w.log, priv, cert, Since(w, w'), half)
  {
    hide Hypotheses; hide Ake; hide FinishAuth; hide Established; hide Finished; hide MacValid; hide EndsHopeless;
    hide Breaks; hide Since; hide Got; hide DiscStructureCdb; hide GivesBack; hide Broken; hide Fails; hide Issued;
    AkeMeaning(env, sc, w, priv, cert);
    var (auth, w1) := Ake(env, sc, w, priv, cert);
    var first := Since(w, w1);
    if auth.Err? { return; }
    EstablishedNine(sc, w.log, priv, cert, first, auth.value);
    FinishMeaning(env, cfg, w1, auth.value);
    var (fin, w2) := FinishAuth(env, cfg, w1, auth.value);
    var last := Since(w1, w2);
    Appended(w, w1, w2);
    var seg := first + last;
    assert seg[..9] == first && seg[9..] == last && seg[9] == last[0];
    CutMeaning(first, last, auth.value.agid);
    var got := Got(last[0], DiscStructureCdb(auth.value.agid, 0x80, 36), 36);
    match fin
    case Ok(h) => assert Session(cfg, sc, w.log, priv, cert, seg, h);
    case Err(e) =>
      if e == FinishTransport { assert FinishedShort(sc, w.log, priv, cert, seg); }
      if e != FinishTransport { FinishedTwo(env, cfg, w1, auth.value); }
      if e == FinishVidMac {
        assert VidAnswered(sc, w.log, priv, cert, seg, auth.value, got);
      } else if e == FinishVidUnavailable {
        assert VidAnswered(sc, w.log, priv, cert, seg, auth.value, None);
      }
  }

  lemma EstablishedNine(sc: Scheme, hist: seq<Event>, priv: seq<byte>, cert: seq<byte>, seg: seq<Event>, auth: Auth)
    requires WellFormed(sc) && Established(sc, hist, priv, cert, seg, auth)
    ensures |seg| == 9 && auth.agid < 4
  {
    hide MutuallyAuthenticated;
  }

  /** The release at the end breaks nothing. */
  lemma CutMeaning(first: seq<Event>, last: seq<Event>, agid: byte)
    requires |first| == 9 && 2 <= |last| <= 3 && agid < 4 && GivesBack(last[|last| - 1], agid)
    ensures Cut(first + last) <==> Breaks(first[4..]) || Broken(last[0]) || (|last| == 3 && Broken(last[1]))
  {
    assert (first + last)[4..] == first[4..] + last;
    BreaksConcat(first[4..], last);
    assert Breaks(last) <==> Broken(last[0]) || (|last| == 3 && Broken(last[1]));
  }

  /** Without a Volume ID the data keys are not asked for. */
  lemma FinishedTwo(env: Env, cfg: Config, w: World, auth: Auth)
    requires auth.agid < 4
    ensures var (o, w') := FinishAuth(env, cfg, w, auth); var seg := Since(w, w');
      && (o in {Err(FinishVidMac), Err(FinishVidUnavailable)} ==> |seg| == 2)
      && (o == Err(FinishVidUnavailable) ==> Got(seg[0], DiscStructureCdb(auth.agid, 0x80, 36), 36).None?)
  {
    hide MacValid; hide Got; hide DiscStructureCdb;
    VidMeaning(env, cfg, w, auth);
    FinishMeaning(env, cfg, w, auth);
    var (vid, w1) := ReadVolumeId(env, cfg, w, auth);
    NotShown(cfg, auth, Since(w, w1)[0]);
    if vid.Ok? && auth.busEncryption { DataKeysMeaning(env, cfg, w1, auth); }
  }

  // ----- one entry -----

  /** Which outcome of the 1.0 certificate leaves room for the P-256 one: a wrong MAC or a rejection. */
  predicate FallsBack(half: Half) { half.WrongMac? || half.Rejection? }

  /** What an entry's last half means for the loop; `hopeless` says whether the drive's own 1.0
      certificate is to blame. */
  function Judgement(half: Half, hopeless: bool): CertOutcome {
    match half
    case Served(h) => Done(h)
    case CutOff => Dropped
    case NoVolumeId => NoVid
    case WrongMac => NoVid
    case Rejection(_) => Reject(hopeless)
  }

  predicate Blames(half: Half) { half.Rejection? && half.hopeless }

  /** One entry, read off the history: the 1.0 certificate if it is tried, then the P-256 one if there is
      one and the first left room for it. */
  ghost predicate EntryShows(cfg: Config, hc: HostCert, hist: seq<Event>, seg: seq<Event>, tryV1: bool, hasV2: bool,
                             out: CertOutcome)
    requires ValidConfig(cfg) && (hasV2 ==> V2Usable(cfg, hc))
  {
    if tryV1 then exists k: nat, half :: FirstShows(cfg, hc, hist, seg, hasV2, out, k, half)
    else hasV2 && SecondShows(cfg, hc, hist, seg, false, out)
  }

  ghost predicate FirstShows(cfg: Config, hc: HostCert, hist: seq<Event>, seg: seq<Event>, hasV2: bool,
                             out: CertOutcome, k: nat, half: Half)
    requires ValidConfig(cfg) && (hasV2 ==> V2Usable(cfg, hc))
  {
    && k <= |seg| && Shows(cfg, cfg.s1, hist, hc.priv, hc.cert, seg[..k], half)
    && if hasV2 && FallsBack(half) then SecondShows(cfg, hc, hist + seg[..k], seg[k..], Blames(half), out)
       else k == |seg| && out == Judgement(half, Blames(half))
  }

  ghost predicate SecondShows(cfg: Config, hc: HostCert, hist: seq<Event>, seg: seq<Event>, hopeless: bool,
                              out: CertOutcome)
    requires ValidConfig(cfg) && V2Usable(cfg, hc)
  {
    exists half :: Shows(cfg, cfg.s2, hist, hc.priv2.value, hc.cert2.value, seg, half)
                   && out == Judgement(half, hopeless)
  }

  lemma SecondMeaning(env: Env, cfg: Config, w: World, hc: HostCert, hopeless: bool)
    requires ValidConfig(cfg) && V2Usable(cfg, hc) && Hypotheses(cfg.s2.suite)
    ensures var (out, w') := AttemptV2(env, cfg, w, hc, hopeless);
      w'.log == w.log + Since(w, w') && SecondShows(cfg, hc, w.log, Since(w, w'), hopeless, out)
  {
    hide Ake; hide FinishAuth; hide Shows; hide Hypotheses; hide Since;
    TriedMeaning(env, cfg, cfg.s2, w, hc.priv2.value, hc.cert2.value);
    var (half, w') := Tried(env, cfg, cfg.s2, w, hc.priv2.value, hc.cert2.value);
    assert AttemptV2(env, cfg, w, hc, hopeless) == (Judgement(half, hopeless), w');
  }

  /** `attempt_one_cert`: which halves run, in which order, and what they mean together. */
  lemma AttemptMeaning(env: Env, cfg: Config, w: World, hc: HostCert, tryV1: bool, hasV2: bool)
    requires ValidConfig(cfg) && (tryV1 || hasV2) && (hasV2 ==> V2Usable(cfg, hc))
    requires Hypotheses(cfg.s1.suite) && Hypotheses(cfg.s2.suite)
    ensures var (out, w') := Attempt(env, cfg, w, hc, tryV1, hasV2);
      w'.log == w.log + Since(w, w') && EntryShows(cfg, hc, w.log, Since(w, w'), tryV1, hasV2, out)
  {
    hide Ake; hide FinishAuth; hide Shows; hide Hypotheses; hide Since; hide AttemptV2; hide SecondShows;
    if !tryV1 {
      SecondMeaning(env, cfg, w, hc, false);
      return;
    }
    TriedMeaning(env, cfg, cfg.s1, w, hc.priv, hc.cert);
    var (half, w1) := Tried(env, cfg, cfg.s1, w, hc.priv, hc.cert);
    var (out, w') := Attempt(env, cfg, w, hc, tryV1, hasV2);
    var first := Since(w, w1);
    if hasV2 && FallsBack(half) {
      SecondMeaning(env, cfg, w1, hc, Blames(half));
      assert (out, w') == AttemptV2(env, cfg, w1, hc, Blames(half));
      Appended(w, w1, w');
      assert Since(w, w')[..|first|] == first && Since(w, w')[|first|..] == Since(w1, w');
    } else {
      assert (out, w') == (Judgement(half, Blames(half)), w1);
      assert first[..|first|] == first;
    }
    assert FirstShows(cfg, hc, w.log, Since(w, w'), hasV2, out, |first|, half);
  }

  // ----- the list -----

  /** The loop, read off the history: usable entries in order, at most three, a backoff before every one
      but the first, and the result of the one that ended it. */
  ghost predicate LoopShows(cfg: Config, certs: seq<HostCert>, hist: seq<Event>, seg: seq<Event>, attempts: nat,
                            v1Dead: bool, o: Result<CertHandshake, UnlockError>)
    requires ValidConfig(cfg)
    decreases |certs|
  {
    if |certs| == 0 || attempts >= MAX_CERT_ATTEMPTS
    then seg == [] && o == Err(if attempts == 0 then NoUsableHostCert else HandshakeRejected)
    else if !(V1Usable(cfg, certs[0]) && !v1Dead) && !V2Usable(cfg, certs[0])
    then LoopShows(cfg, certs[1..], hist, seg, attempts, v1Dead, o)
    else
      || (attempts > 0 && seg == [PauseRefused(PER_CERT_BACKOFF_MS)] && o == Err(UnlockError.Transport))
      || exists k: nat, out :: EntryTried(cfg, certs[0], hist, seg, attempts, v1Dead, k, out) &&
           match out
           case Done(h) => k == |seg| && o == Ok(h)
           case Dropped => k == |seg| && o == Err(UnlockError.Transport)
           case NoVid => k == |seg| && o == Err(UnlockError.VidUnavailable)
           case Reject(dead) =>
             k <= |seg| && LoopShows(cfg, certs[1..], hist + seg[..k], seg[k..], attempts + 1, v1Dead || dead, o)
  }

  /** The first k events are the backoff, after an earlier attempt, and this entry's history. */
  ghost predicate EntryTried(cfg: Config, hc: HostCert, hist: seq<Event>, seg: seq<Event>, attempts: nat,
                             v1Dead: bool, k: nat, out: CertOutcome)
    requires ValidConfig(cfg)
  {
    var first := if attempts > 0 then 1 else 0;
    && first <= k <= |seg| && (attempts > 0 ==> seg[0] == Pause(PER_CERT_BACKOFF_MS))
    && EntryShows(cfg, hc, hist + seg[..first], seg[first..k], V1Usable(cfg, hc) && !v1Dead, V2Usable(cfg, hc), out)
  }

  /** The certificate loop does what the history of its answers calls for. */
  lemma {:induction false} LoopMeaning(env: Env, cfg: Config, w: World, certs: seq<HostCert>, attempts: nat,
                                       v1Dead: bool)
    requires ValidConfig(cfg) && Hypotheses(cfg.s1.suite) && Hypotheses(cfg.s2.suite)
    ensures var (o, w') := CertLoop(env, cfg, w, certs, attempts, v1Dead);
      w'.log == w.log + Since(w, w') && LoopShows(cfg, certs, w.log, Since(w, w'), attempts, v1Dead, o)
    decreases |certs|
  {
    hide Attempt; hide EntryShows; hide Hypotheses; hide Since; hide V1Usable; hide V2Usable; hide Paused;
    SinceSelf(w);
    var (o, w') := CertLoop(env, cfg, w, certs, attempts, v1Dead);
    if |certs| == 0 || attempts >= MAX_CERT_ATTEMPTS { return; }
    var hc := certs[0];
    var tryV1, hasV2 := V1Usable(cfg, hc) && !v1Dead, V2Usable(cfg, hc);
    if !tryV1 && !hasV2 {
      LoopMeaning(env, cfg, w, certs[1..], attempts, v1Dead);
      return;
    }
    var (waited, w1) := if attempts > 0 then Paused(env, w, PER_CERT_BACKOFF_MS) else (true, w);
    if attempts > 0 { PauseMeaning(env, w, PER_CERT_BACKOFF_MS); }
    if !waited { return; }
    AttemptMeaning(env, cfg, w1, hc, tryV1, hasV2);
    var (out, w2) := Attempt(env, cfg, w1, hc, tryV1, hasV2);
    Appended(w, w1, w2);
    if out.Reject? {
      LoopMeaning(env, cfg, w2, certs[1..], attempts + 1, v1Dead || out.v1DriveDead);
      Appended(w, w2, w');
    }
    EntryStretch(cfg, hc, w.log, Since(w, w1), Since(w1, w2), Since(w, w'), attempts, v1Dead, out);
  }

  lemma PauseMeaning(env: Env, w: World, ms: nat)
    ensures var (ok, w') := Paused(env, w, ms);
      w'.log == w.log + Since(w, w') && Since(w, w') == [if ok then Pause(ms) else PauseRefused(ms)]
  {
  }

  lemma EntryStretch(cfg: Config, hc: HostCert, hist: seq<Event>, wait: seq<Event>, entry: seq<Event>, seg: seq<Event>,
                     attempts: nat, v1Dead: bool, out: CertOutcome)
    requires ValidConfig(cfg) && wait == (if attempts > 0 then [Pause(PER_CERT_BACKOFF_MS)] else [])
    requires wait + entry <= seg
    requires EntryShows(cfg, hc, hist + wait, entry, V1Usable(cfg, hc) && !v1Dead, V2Usable(cfg, hc), out)
    ensures EntryTried(cfg, hc, hist, seg, attempts, v1Dead, |wait + entry|, out)
    ensures hist + seg[..|wait + entry|] == hist + (wait + entry)
  {
    hide EntryShows; hide V1Usable; hide V2Usable;
    assert seg[..|wait + entry|] == wait + entry;
    assert seg[..|wait|] == wait && seg[|wait|..|wait + entry|] == entry;
  }

  /** From position `from` on the history is a session of the i-th entry, with its 1.0 or its P-256 pair. */
  ghost predicate ServedFrom(cfg: Config, certs: seq<HostCert>, hist: seq<Event>, seg: seq<Event>, h: CertHandshake,
                             i: nat, from: nat)
    requires ValidConfig(cfg)
  {
    && i < |certs| && from <= |seg|
    && var hc, before, rest := certs[i], hist + seg[..from], seg[from..];
       || (V1Usable(cfg, hc) && Session(cfg, cfg.s1, before, hc.priv, hc.cert, rest, h))
       || (V2Usable(cfg, hc) && Session(cfg, cfg.s2, before, hc.priv2.value, hc.cert2.value, rest, h))
  }

  lemma SecondServed(cfg: Config, hc: HostCert, hist: seq<Event>, seg: seq<Event>, hopeless: bool, h: CertHandshake)
    requires ValidConfig(cfg) && V2Usable(cfg, hc) && SecondShows(cfg, hc, hist, seg, hopeless, Done(h))
    ensures Session(cfg, cfg.s2, hist, hc.priv2.value, hc.cert2.value, seg, h)
  {
    hide Session;
  }

  lemma FirstServed(cfg: Config, hc: HostCert, hist: seq<Event>, seg: seq<Event>, hasV2: bool, h: CertHandshake,
                    k: nat, half: Half)
    requires ValidConfig(cfg) && (hasV2 ==> V2Usable(cfg, hc))
    requires FirstShows(cfg, hc, hist, seg, hasV2, Done(h), k, half)
    ensures k <= |seg|
    ensures if hasV2 && FallsBack(half) then SecondShows(cfg, hc, hist + seg[..k], seg[k..], Blames(half), Done(h))
            else Session(cfg, cfg.s1, hist, hc.priv, hc.cert, seg[..k], h) && seg[..k] == seg
  {
    hide Session; hide SecondShows;
  }

  lemma EntryServed(cfg: Config, hc: HostCert, hist: seq<Event>, seg: seq<Event>, tryV1: bool, hasV2: bool,
                    h: CertHandshake) returns (from: nat)
    requires ValidConfig(cfg) && (tryV1 ==> V1Usable(cfg, hc)) && (hasV2 <==> V2Usable(cfg, hc))
    requires EntryShows(cfg, hc, hist, seg, tryV1, hasV2, Done(h))
    ensures ServedFrom(cfg, [hc], hist, seg, h, 0, from)
  {
    hide Session; hide V1Usable; hide V2Usable; hide FirstShows; hide SecondShows; hide FallsBack;
    from := 0;
    assert seg[..0] == [] && seg[0..] == seg && hist + [] == hist;
    if tryV1 {
      var k: nat, half :| FirstShows(cfg, hc, hist, seg, hasV2, Done(h), k, half);
      FirstServed(cfg, hc, hist, seg, hasV2, h, k, half);
      if hasV2 && FallsBack(half) {
        from := k;
        SecondServed(cfg, hc, hist + seg[..k], seg[k..], Blames(half), h);
      }
    } else {
      SecondServed(cfg, hc, hist, seg, false, h);
    }
  }

  /** A Volume ID the loop returns is never taken on trust: the history ends in a mutual authentication
      with an entry of the list and a read whose MAC is valid under the key agreed there. */
  lemma {:induction false} LoopServed(cfg: Config, certs: seq<HostCert>, hist: seq<Event>, seg: seq<Event>,
                                      attempts: nat, v1Dead: bool, h: CertHandshake) returns (i: nat, from: nat)
    requires ValidConfig(cfg) && LoopShows(cfg, certs, hist, seg, attempts, v1Dead, Ok(h))
    ensures ServedFrom(cfg, certs, hist, seg, h, i, from)
    decreases |certs|
  {
    hide EntryShows; hide V1Usable; hide V2Usable; hide Session;
    var hc := certs[0];
    var tryV1, hasV2 := V1Usable(cfg, hc) && !v1Dead, V2Usable(cfg, hc);
    if !tryV1 && !hasV2 {
      i, from := LoopServed(cfg, certs[1..], hist, seg, attempts, v1Dead, h);
      i := i + 1;
      return;
    }
    var first := if attempts > 0 then 1 else 0;
    var k: nat, out :| EntryTried(cfg, hc, hist, seg, attempts, v1Dead, k, out) &&
      match out
      case Done(d) => k == |seg| && d == h
      case Reject(dead) =>
        LoopShows(cfg, certs[1..], hist + seg[..k], seg[k..], attempts + 1, v1Dead || dead, Ok(h))
      case _ => false;
    if out.Done? {
      from := EntryServed(cfg, hc, hist + seg[..first], seg[first..k], tryV1, hasV2, h);
      i, from := 0, first + from;
      assert hist + seg[..first] + seg[first..k][..from - first] == hist + seg[..from];
      assert seg[first..k][from - first..] == seg[from..];
    } else {
      i, from := LoopServed(cfg, certs[1..], hist + seg[..k], seg[k..], attempts + 1, v1Dead || out.v1DriveDead, h);
      assert hist + seg[..k] + seg[k..][..from] == hist + seg[..k + from] && seg[k..][from..] == seg[k + from..];
      i, from := i + 1, k + from;
    }
  }
}
