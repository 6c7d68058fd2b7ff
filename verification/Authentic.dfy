/** What success means, read off the history: which commands went out and what the drive's answers had
    to be, for every drive. Signatures, shared key and MAC are stated by their equations, not by the
    checks that decide them. */
module Authentic {
  import opened Wrappers
  import opened Modular
  import opened Curve
  import opened Bytes
  import opened Scsi
  import opened Ecdsa
  import opened Cmac
  import opened Handshake
  import opened Ledger

  // ----- events -----

  /** What a read of n bytes gave the host: GOOD and n bytes long, or nothing. */
  function Got(e: Event, cdb: Cdb, n: nat): (o: Option<seq<byte>>)
    ensures o.Some? ==> |o.value| == n
  {
    if e.Exec? && e.cdb == cdb && e.out == [] && e.reply.Answered? && e.reply.status == 0 && e.reply.transferred >= n
    then Some(Buffer(e.reply.data, n)) else None
  }

  /** The drive took what this command carried. */
  predicate Took(e: Event, cdb: Cdb, out: seq<byte>) {
    e.Exec? && e.cdb == cdb && e.out == out && e.reply.Answered? && e.reply.status == 0
  }

  /** The command was issued, and perhaps refused by a stopped host. */
  predicate Issued(e: Event, cdb: Cdb) { (e.Exec? && e.cdb == cdb) || e == Refused(cdb) }

  /** A dead bus or a stopped host. */
  predicate Broken(e: Event) { e.Refused? || (e.Exec? && IsDeadBus(e.reply)) }

  ghost predicate Breaks(seg: seq<Event>) { exists e <- seg :: Broken(e) }

  lemma BreaksOne(seg: seq<Event>)
    requires |seg| == 1
    ensures Breaks(seg) <==> Broken(seg[0])
  {
  }

  lemma BreaksConcat(s: seq<Event>, t: seq<Event>)
    ensures Breaks(s + t) <==> Breaks(s) || Breaks(t)
  {
    forall e | e in s ensures e in s + t {}
    forall e | e in t ensures e in s + t {}
  }

  lemma ReadMeaning(env: Env, w: World, cdb: Cdb, n: nat, fallback: Error)
    requires !IsTransport(fallback)
    ensures var (o, w') := ReadStep(env, w, cdb, n, fallback);
      && |Since(w, w')| == 1 && w'.log == w.log + Since(w, w') && Issued(Since(w, w')[0], cdb)
      && (o.Ok? <==> Got(Since(w, w')[0], cdb, n).Some?) && (o.Ok? ==> Got(Since(w, w')[0], cdb, n) == Some(o.value))
      && (if o.Ok? then !Broken(Since(w, w')[0])
          else o.error == if Broken(Since(w, w')[0]) then ScsiFailure(TRANSPORT_FAILURE, None) else fallback)
  {
    var (_, w') := ReadStep(env, w, cdb, n, fallback);
    assert Since(w, w')[0] == w'.log[|w.log|];
  }

  lemma WriteMeaning(env: Env, w: World, cdb: Cdb, out: seq<byte>, fallback: Error)
    requires !IsTransport(fallback)
    ensures var (o, w') := WriteStep(env, w, cdb, out, fallback);
      && |Since(w, w')| == 1 && w'.log == w.log + Since(w, w') && Issued(Since(w, w')[0], cdb)
      && (o.Ok? <==> Took(Since(w, w')[0], cdb, out))
      && (if o.Ok? then !Broken(Since(w, w')[0])
          else o.error == if Broken(Since(w, w')[0]) then ScsiFailure(TRANSPORT_FAILURE, None) else fallback)
  {
    var (_, w') := WriteStep(env, w, cdb, out, fallback);
    assert Since(w, w')[0] == w'.log[|w.log|];
  }

  // ----- the Volume ID -----

  /** The second half of the answer is the one-block CMAC of the Volume ID in it, K1 being the double of
      the encrypted zero block. */
  ghost predicate MacValid(aes: Cipher, key: seq<byte>, data: seq<byte>)
    requires |data| == 36
  {
    forall k1: Block {:trigger ToPoly(k1)} :: ToPoly(k1) == Doubled(ToPoly(Buffered(aes(key, Zeros(16))))) ==>
      data[20..36] == aes(key, XorBlock(data[4..20], k1))
  }

  lemma MacMeaning(aes: Cipher, key: seq<byte>, data: seq<byte>)
    requires |data| == 36
    ensures Cmac16(aes, data[4..20], key) == data[20..36] <==> MacValid(aes, key, data)
  {
    hide ToPoly; hide Doubled; hide XorBlock; hide Subkey; hide Cmac16; hide Buffered;
    var l := Buffered(aes(key, Zeros(16)));
    SubkeyDoubles(l);
    CmacMeaning(aes, data[4..20], key, Subkey(l));
    forall k1: Block | ToPoly(k1) == Doubled(ToPoly(l))
      ensures Cmac16(aes, data[4..20], key) == aes(key, XorBlock(data[4..20], k1))
    {
      CmacMeaning(aes, data[4..20], key, k1);
    }
  }

  /** The Volume ID answer of the drive, if it gave one with a valid MAC. */
  ghost predicate VidShown(cfg: Config, auth: Auth, e: Event, vid: seq<byte>)
    requires auth.agid < 4
  {
    var got := Got(e, DiscStructureCdb(auth.agid, 0x80, 36), 36);
    got.Some? && MacValid(cfg.encrypt, auth.busKey, got.value) && vid == got.value[4..20]
  }

  /** What the read of the data keys comes to: an all-zero answer is no key. */
  function DataKeys(cfg: Config, auth: Auth, e: Event): Option<seq<byte>>
    requires auth.agid < 4
  {
    match Got(e, DiscStructureCdb(auth.agid, 0x84, 36), 36)
    case Some(d) => if d[4..36] == Zeros(32) then None else Some(cfg.decrypt(auth.busKey, d[4..20]))
    case None => None
  }

  lemma VidMeaning(env: Env, cfg: Config, w: World, auth: Auth)
    requires auth.agid < 4
    ensures var (o, w') := ReadVolumeId(env, cfg, w, auth); var seg := Since(w, w');
      var got := Got(seg[0], DiscStructureCdb(auth.agid, 0x80, 36), 36);
      && |seg| == 1 && w'.log == w.log + seg && Issued(seg[0], DiscStructureCdb(auth.agid, 0x80, 36))
      && (forall vid :: o == Ok(vid) <==> VidShown(cfg, auth, seg[0], vid))
      && (o == Err(VidMac) <==> got.Some? && !MacValid(cfg.encrypt, auth.busKey, got.value))
      && (o.Err? && IsTransport(o.error) <==> Broken(seg[0]))
  {
    hide MacValid; hide Cmac16;
    ReadMeaning(env, w, DiscStructureCdb(auth.agid, 0x80, 36), 36, VidRead);
    var (got, _) := ReadStep(env, w, DiscStructureCdb(auth.agid, 0x80, 36), 36, VidRead);
    if got.Ok? { MacMeaning(cfg.encrypt, auth.busKey, got.value); }
  }

  lemma DataKeysMeaning(env: Env, cfg: Config, w: World, auth: Auth)
    requires auth.agid < 4
    ensures var (o, w') := ReadDataKeys(env, cfg, w, auth); var seg := Since(w, w');
      && |seg| == 1 && w'.log == w.log + seg && Issued(seg[0], DiscStructureCdb(auth.agid, 0x84, 36))
      && (o == match DataKeys(cfg, auth, seg[0])
               case Some(k) => Ok(k)
               case None => Err(if Broken(seg[0]) then ScsiFailure(TRANSPORT_FAILURE, None) else DataKey))
  {
    ReadMeaning(env, w, DiscStructureCdb(auth.agid, 0x84, 36), 36, DataKey);
  }

  /** A finish that returns h: the Volume ID read, the data-key read under bus encryption, the release. */
  ghost predicate Finished(cfg: Config, auth: Auth, seg: seq<Event>, h: CertHandshake)
    requires auth.agid < 4
  {
    && |seg| == (if auth.busEncryption then 3 else 2) && VidShown(cfg, auth, seg[0], h.volumeId)
    && GivesBack(seg[|seg| - 1], auth.agid)
    && if auth.busEncryption
       then && Issued(seg[1], DiscStructureCdb(auth.agid, 0x84, 36)) && !Broken(seg[1])
            && h.readDataKey == DataKeys(cfg, auth, seg[1])
            && h.readDataKeyErr == (if h.readDataKey.Some? then None else Some(DataKey))
       else h.readDataKey == None && h.readDataKeyErr == None
  }

  predicate GivesBack(e: Event, agid: byte)
    requires agid < 4
  {
    e.Cleanup? && e.cdb == ReportKeyCdb(agid, 0x3F, 2)
  }

  /** `finish_auth`, for every drive: it returns a Volume ID exactly when the drive showed it with a valid
      MAC under the bus key, and tells a wrong MAC, a dead bus and everything else apart. */
  lemma FinishMeaning(env: Env, cfg: Config, w: World, auth: Auth)
    requires auth.agid < 4
    ensures var (o, w') := FinishAuth(env, cfg, w, auth); var seg := Since(w, w');
      var got := Got(seg[0], DiscStructureCdb(auth.agid, 0x80, 36), 36);
      && 2 <= |seg| <= 3 && w'.log == w.log + seg && GivesBack(seg[|seg| - 1], auth.agid)
      && Issued(seg[0], DiscStructureCdb(auth.agid, 0x80, 36))
      && (forall h :: o == Ok(h) <==> Finished(cfg, auth, seg, h))
      && (o == Err(FinishVidMac) <==> got.Some? && !MacValid(cfg.encrypt, auth.busKey, got.value))
      && (o == Err(FinishTransport) <==> Broken(seg[0]) || (|seg| == 3 && Broken(seg[1])))
  {
    hide MacValid; hide ReadVolumeId; hide ReadDataKeys; hide DataKeys; hide Got; hide DiscStructureCdb;
    hide VidShown; hide ReportKeyCdb;
    var vidCdb := DiscStructureCdb(auth.agid, 0x80, 36);
    VidMeaning(env, cfg, w, auth);
    var (vid, w1) := ReadVolumeId(env, cfg, w, auth);
    var (o, w') := FinishAuth(env, cfg, w, auth);
    if vid.Err? || !auth.busEncryption {
      assert w'.log[|w.log|..] == Since(w, w1) + [w'.log[|w1.log|]];
      NotShown(cfg, auth, Since(w, w1)[0]);
    } else {
      DataKeysMeaning(env, cfg, w1, auth);
      var (rdk, w2) := ReadDataKeys(env, cfg, w1, auth);
      assert w'.log[|w.log|..] == Since(w, w1) + Since(w1, w2) + [w'.log[|w2.log|]];
      NotShown(cfg, auth, Since(w, w1)[0]);
      NotShown(cfg, auth, Since(w1, w2)[0]);
    }
  }

  /** One event shows one Volume ID at most, and a broken one none. */
  lemma NotShown(cfg: Config, auth: Auth, e: Event)
    requires auth.agid < 4
    ensures forall u, v :: VidShown(cfg, auth, e, u) && VidShown(cfg, auth, e, v) ==> u == v
    ensures Broken(e) ==> Got(e, DiscStructureCdb(auth.agid, 0x80, 36), 36).None? && DataKeys(cfg, auth, e).None?
    ensures Got(e, DiscStructureCdb(auth.agid, 0x80, 36), 36).Some? ==>
      (MacValid(cfg.encrypt, auth.busKey, Got(e, DiscStructureCdb(auth.agid, 0x80, 36), 36).value) <==>
         exists v :: VidShown(cfg, auth, e, v))
  {
    hide MacValid;
    var got := Got(e, DiscStructureCdb(auth.agid, 0x80, 36), 36);
    if got.Some? && MacValid(cfg.encrypt, auth.busKey, got.value) { assert VidShown(cfg, auth, e, got.value[4..20]); }
  }

  // ----- the authentication -----

  /** Signed by the licensing authority: header, key point and signature, the signature over all before it. */
  ghost predicate Certified(sc: Scheme, cert: seq<byte>)
    requires WellFormed(sc)
  {
    var at, w := if sc.v1 then 12 else 4, if sc.v1 then 20 else 32;
    && |cert| >= at + 4 * w
    && Genuine(sc.suite, sc.laX, sc.laY, cert[at + 2 * w..at + 3 * w], cert[at + 3 * w..at + 4 * w], cert[..at + 2 * w])
  }

  lemma CertifiedMeaning(sc: Scheme, cert: seq<byte>)
    requires WellFormed(sc) && Hypotheses(sc.suite)
    ensures CertVerifies(sc, cert) <==> Certified(sc, cert)
  {
    hide Hypotheses; hide Verify; hide Genuine;
    if |cert| >= CertLen(sc) {
      var signed := KeyAt(sc) + 2 * sc.suite.width;
      VerifyMeaning(sc.suite, sc.laX, sc.laY, cert[signed..signed + sc.suite.width],
                    cert[signed + sc.suite.width..signed + 2 * sc.suite.width], cert[..signed]);
    }
  }

  /** The first byte tells the two generations of certificates apart. */
  function TypeOf(sc: Scheme): byte { if sc.v1 then 0x01 else 0x11 }

  /** A 1.0 exchange showed what no host certificate can make up for: a certificate of the other
      generation, or one the authority never signed. */
  ghost predicate Hopeless(sc: Scheme, cert: seq<byte>)
    requires WellFormed(sc) && |cert| > 0
  {
    sc.v1 && (cert[0] == 0x11 || (cert[0] == 0x01 && !Certified(sc, cert)))
  }

  lemma CheckMeaning(sc: Scheme, cert: seq<byte>)
    requires WellFormed(sc) && Hypotheses(sc.suite) && |cert| == CertLen(sc)
    ensures CheckDriveCert(sc, cert).None? <==> cert[0] == TypeOf(sc) && Certified(sc, cert)
    ensures CheckDriveCert(sc, cert) == Some(DriveCert) <==> Hopeless(sc, cert)
    ensures CheckDriveCert(sc, cert) in {None, Some(DriveCert), Some(Other(CertVerify))}
  {
    hide Hypotheses; hide CertVerifies; hide Certified;
    CertifiedMeaning(sc, cert);
  }

  /** A certificate is put together from a header, a point and a signature, a key message from a point and
      a signature: taking one apart gives back what it was put together from. */
  lemma WireLayout(sc: Scheme, head: seq<byte>, x: seq<byte>, y: seq<byte>, r: seq<byte>, s: seq<byte>)
    requires WellFormed(sc) && |head| == (if sc.v1 then 12 else 4)
    requires |x| == |y| == |r| == |s| == if sc.v1 then 20 else 32
    ensures var cert := head + x + y + r + s;
      |cert| == CertLen(sc) && CertX(sc, cert) == x && CertY(sc, cert) == y
      && (Certified(sc, cert) <==> Genuine(sc.suite, sc.laX, sc.laY, r, s, head + x + y))
    ensures var m := KeyMessage(sc, x, y, r, s);
      |m| == KeyMessageLen(sc) && m[..4] == [0, if sc.v1 then 82 else 130, 0, 0]
      && KeyField(sc, m, 0) == x && KeyField(sc, m, 1) == y && KeyField(sc, m, 2) == r && KeyField(sc, m, 3) == s
    ensures var cert := head + x + y + r + s;
      forall nonce: seq<byte> :: |nonce| == 20 ==>
        CertMessage(sc, nonce, cert) == [0, if sc.v1 then 114 else 154, 0, 0] + nonce + cert
  {
    hide Genuine;
    var cert := head + x + y + r + s;
    var w := |x|;
    assert cert[|head|..|head| + w] == x && cert[|head| + w..|head| + 2 * w] == y;
    assert cert[|head| + 2 * w..|head| + 3 * w] == r && cert[|head| + 3 * w..|head| + 4 * w] == s;
    assert cert[..|head| + 2 * w] == head + x + y;
    assert cert[..|cert|] == cert;
    var m := KeyMessage(sc, x, y, r, s);
    assert m[4..4 + w] == x && m[4 + w..4 + 2 * w] == y && m[4 + 2 * w..4 + 3 * w] == r && m[4 + 3 * w..4 + 4 * w] == s;
  }

  /** The bytes of the public point of a scalar: two coordinates of full width. */
  function PointBytes(su: Suite, e: nat): (seq<byte>, seq<byte>)
    requires Usable(su)
  {
    match Times(su.curve, e, su.g)
    case Affine(x, y) => (ToBytes(x, su.width), ToBytes(y, su.width))
    case Infinity => (ToBytes(0, su.width), ToBytes(0, su.width))
  }

  lemma PointBytesMeaning(su: Suite, e: nat)
    requires Hypotheses(su)
    ensures PublicBytes(su, e) == PointBytes(su, e)
  {
    hide EcMul; hide Times; hide ToBytes;
    EcMulMeaning(su.curve, e, su.g);
  }

  /** The low 128 bits of the x-coordinate of scalar times the other party's point, which has to lie on
      the curve. */
  ghost predicate SharedKey(su: Suite, e: nat, px: seq<byte>, py: seq<byte>, key: seq<byte>)
    requires Usable(su)
  {
    var q := Affine(FromBytes(px), FromBytes(py));
    && |key| == 16 && OnCurve(su.curve, q)
    && var shared := Times(su.curve, e % Pow256(su.width), q);
       shared.Affine? && FromBytes(key) == shared.x % Pow256(16)
  }

  lemma SharedKeyMeaning(su: Suite, e: nat, px: seq<byte>, py: seq<byte>)
    requires Hypotheses(su)
    ensures forall key :: BusKey(su, ToBytes(e, su.width), px, py) == Some(key) <==> SharedKey(su, e, px, py, key)
  {
    hide BusKey; hide OnCurve; hide Times; hide FromBytes; hide ToBytes; hide Pow256; hide Group;
    BusKeyMeaning(su, ToBytes(e, su.width), px, py);
    ToBytesValue(e, su.width);
    var k := BusKey(su, ToBytes(e, su.width), px, py);
    forall key | SharedKey(su, e, px, py, key) ensures k == Some(key) {
      FromBytesInjective(k.value, key);
    }
  }

  /** Certificates change hands: the host's own nonce and certificate out, and in return the drive's
      nonce and a certificate of the right type that the authority signed. */
  ghost predicate Exchanged(sc: Scheme, hist: seq<Event>, agid: byte, cert: seq<byte>, seg: seq<Event>,
                            nonce: seq<byte>, driveCert: seq<byte>)
    requires WellFormed(sc) && agid < 4 && |cert| >= CertLen(sc)
  {
    var n := CertMessageLen(sc);
    && |seg| == 2 && Took(seg[0], SendKeyCdb(agid, 1, n), CertMessage(sc, ToBytes(sc.nonce(hist), 20), cert))
    && var got := Got(seg[1], ReportKeyCdb(agid, 1, n), n);
       && got.Some? && nonce == got.value[4..24] && driveCert == got.value[24..]
       && driveCert[0] == TypeOf(sc) && Certified(sc, driveCert)
  }

  /** The commands of an authentication, in order. */
  function StepCdb(sc: Scheme, agid: byte, i: nat): Cdb
    requires WellFormed(sc) && agid < 4 && i < 4
  {
    match i
    case 0 => SendKeyCdb(agid, 1, CertMessageLen(sc))
    case 1 => ReportKeyCdb(agid, 1, CertMessageLen(sc))
    case 2 => ReportKeyCdb(agid, 2, KeyMessageLen(sc))
    case _ => SendKeyCdb(agid, 2, KeyMessageLen(sc))
  }

  predicate InOrder(sc: Scheme, agid: byte, seg: seq<Event>)
    requires WellFormed(sc) && agid < 4
  {
    |seg| <= 4 && forall i: nat :: i < |seg| ==> Issued(seg[i], StepCdb(sc, agid, i))
  }

  ghost predicate ShowsHopeless(sc: Scheme, agid: byte, seg: seq<Event>)
    requires WellFormed(sc) && agid < 4
  {
    |seg| == 2 &&
    var got := Got(seg[1], ReportKeyCdb(agid, 1, CertMessageLen(sc)), CertMessageLen(sc));
    got.Some? && Hopeless(sc, got.value[24..])
  }

  lemma ExchangeMeaning(env: Env, sc: Scheme, w: World, agid: byte, cert: seq<byte>)
    requires WellFormed(sc) && Hypotheses(sc.suite) && agid < 4 && |cert| >= CertLen(sc)
    ensures var (o, w') := ExchangeCerts(env, sc, w, agid, cert); var seg := Since(w, w');
      && 1 <= |seg| <= 2 && w'.log == w.log + seg
      && (forall a, b :: o == Ok((a, b)) <==> Exchanged(sc, w.log, agid, cert, seg, a, b))
      && (o == Err(DriveCert) <==> ShowsHopeless(sc, agid, seg)) && (DeadFail(o) <==> Breaks(seg))
      && InOrder(sc, agid, seg)
  {
    hide Hypotheses; hide Breaks; hide Issued; hide Certified; hide Got; hide Took; hide CheckDriveCert;
    hide SendKeyCdb; hide ReportKeyCdb;
    hide CertMessage; hide ToBytes; hide Hopeless; hide ReadStep; hide WriteStep; hide Since; hide Broken;
    var n, m := CertMessageLen(sc), CertMessage(sc, HostNonce(sc, w), cert);
    WriteMeaning(env, w, SendKeyCdb(agid, 1, n), m, CertRejected);
    var (sent, w1) := WriteStep(env, w, SendKeyCdb(agid, 1, n), m, CertRejected);
    BreaksOne(Since(w, w1));
    if sent.Ok? {
      ReadMeaning(env, w1, ReportKeyCdb(agid, 1, n), n, CertRead);
      var (got, w2) := ReadStep(env, w1, ReportKeyCdb(agid, 1, n), n, CertRead);
      Appended(w, w1, w2);
      BreaksConcat(Since(w, w1), Since(w1, w2));
      BreaksOne(Since(w1, w2));
      if got.Ok? {
        assert got.value[24..n] == got.value[24..];
        CheckMeaning(sc, got.value[24..n]);
      }
    }
  }

  /** The drive's key message, signed under its certificate over the host's nonce and its own point. */
  ghost predicate KeyShown(sc: Scheme, agid: byte, hostNonce: seq<byte>, driveCert: seq<byte>, e: Event, m: seq<byte>)
    requires WellFormed(sc) && agid < 4 && |driveCert| == CertLen(sc)
  {
    && Got(e, ReportKeyCdb(agid, 2, KeyMessageLen(sc)), KeyMessageLen(sc)) == Some(m)
    && Genuine(sc.suite, CertX(sc, driveCert), CertY(sc, driveCert), KeyField(sc, m, 2), KeyField(sc, m, 3),
               hostNonce + KeyField(sc, m, 0) + KeyField(sc, m, 1))
  }

  lemma DriveKeyMeaning(env: Env, sc: Scheme, w: World, agid: byte, nonce: seq<byte>, driveCert: seq<byte>)
    requires WellFormed(sc) && Hypotheses(sc.suite) && agid < 4 && |driveCert| == CertLen(sc)
    ensures var (o, w') := ReadDriveKey(env, sc, w, agid, nonce, driveCert); var seg := Since(w, w');
      && |seg| == 1 && w'.log == w.log + seg && (o.Err? ==> o.error.Other?)
      && (forall m :: o == Ok(m) <==> KeyShown(sc, agid, nonce, driveCert, seg[0], m))
      && (DeadFail(o) <==> Breaks(seg)) && Issued(seg[0], StepCdb(sc, agid, 2))
  {
    hide Hypotheses; hide Issued; hide Got; hide ReportKeyCdb; hide Verify; hide Genuine; hide CertX; hide CertY;
    hide KeyField;
    var n := KeyMessageLen(sc);
    ReadMeaning(env, w, ReportKeyCdb(agid, 2, n), n, KeyRead);
    var (got, w') := ReadStep(env, w, ReportKeyCdb(agid, 2, n), n, KeyRead);
    BreaksOne(Since(w, w'));
    if got.Ok? {
      var m := got.value;
      VerifyMeaning(sc.suite, CertX(sc, driveCert), CertY(sc, driveCert), KeyField(sc, m, 2), KeyField(sc, m, 3),
                    nonce + KeyField(sc, m, 0) + KeyField(sc, m, 1));
    }
  }

  /** The host's key message went out, with a signature good under its own certificate over the drive's
      nonce and the host's point. */
  ghost predicate KeySent(sc: Scheme, hist: seq<Event>, agid: byte, priv: seq<byte>, cert: seq<byte>,
                          nonce: seq<byte>, point: (seq<byte>, seq<byte>), e: Event)
    requires WellFormed(sc) && agid < 4 && |cert| >= CertLen(sc)
  {
    var data := nonce + point.0 + point.1;
    var (r, s) := sc.sign(hist, priv, data);
    && Genuine(sc.suite, CertX(sc, cert), CertY(sc, cert), r, s, data)
    && Took(e, SendKeyCdb(agid, 2, KeyMessageLen(sc)), KeyMessage(sc, point.0, point.1, r, s))
  }

  lemma HostKeyMeaning(env: Env, sc: Scheme, w: World, agid: byte, priv: seq<byte>, cert: seq<byte>,
                       nonce: seq<byte>, hx: seq<byte>, hy: seq<byte>)
    requires WellFormed(sc) && Hypotheses(sc.suite) && agid < 4 && |cert| >= CertLen(sc)
    ensures var (o, w') := SendHostKey(env, sc, w, agid, priv, cert, nonce, hx, hy); var seg := Since(w, w');
      && |seg| <= 1 && w'.log == w.log + seg && (o.Err? ==> o.error.Other?)
      && (o.Ok? <==> |seg| == 1 && KeySent(sc, w.log, agid, priv, cert, nonce, (hx, hy), seg[0]))
      && (DeadFail(o) <==> Breaks(seg)) && (|seg| == 1 ==> Issued(seg[0], StepCdb(sc, agid, 3)))
  {
    hide Hypotheses; hide Issued; hide Took; hide SendKeyCdb; hide Verify; hide Genuine; hide CertX; hide CertY;
    hide KeyMessage;
    var data := nonce + hx + hy;
    var (r, s) := sc.sign(w.log, priv, data);
    VerifyMeaning(sc.suite, CertX(sc, cert), CertY(sc, cert), r, s, data);
    WriteMeaning(env, w, SendKeyCdb(agid, 2, KeyMessageLen(sc)), KeyMessage(sc, hx, hy, r, s), KeyRejected);
    var (_, w') := WriteStep(env, w, SendKeyCdb(agid, 2, KeyMessageLen(sc)), KeyMessage(sc, hx, hy, r, s), KeyRejected);
    BreaksOne(Since(w, w'));
    SinceSelf(w);
  }

  /** What the drive showed of itself: its nonce, its certificate and its key message. */
  datatype Shown = Shown(nonce: seq<byte>, cert: seq<byte>, key: seq<byte>)

  /** A whole mutual authentication, from the history `hist` on. */
  ghost predicate Authenticated(sc: Scheme, hist: seq<Event>, priv: seq<byte>, cert: seq<byte>, seg: seq<Event>,
                                auth: Auth, d: Shown)
    requires WellFormed(sc) && auth.agid < 4 && |cert| >= CertLen(sc)
  {
    var e := sc.scalar(hist);
    && |seg| == 4 && Exchanged(sc, hist, auth.agid, cert, seg[..2], d.nonce, d.cert)
    && KeyShown(sc, auth.agid, ToBytes(sc.nonce(hist), 20), d.cert, seg[2], d.key)
    && KeySent(sc, hist + seg[..3], auth.agid, priv, cert, d.nonce, PointBytes(sc.suite, e), seg[3])
    && SharedKey(sc.suite, e, KeyField(sc, d.key, 0), KeyField(sc, d.key, 1), auth.busKey)
    && auth.busEncryption == (!sc.v1 || d.cert[1] % 2 == 1)
  }

  ghost predicate MutuallyAuthenticated(sc: Scheme, hist: seq<Event>, priv: seq<byte>, cert: seq<byte>,
                                        seg: seq<Event>, auth: Auth)
    requires WellFormed(sc) && |cert| >= CertLen(sc)
  {
    auth.agid < 4 && exists d :: Authenticated(sc, hist, priv, cert, seg, auth, d)
  }

  lemma AuthenticateMeaning(env: Env, sc: Scheme, w: World, agid: byte, priv: seq<byte>, cert: seq<byte>)
    requires WellFormed(sc) && Hypotheses(sc.suite) && agid < 4 && |cert| >= CertLen(sc)
    ensures var (o, w') := Authenticate(env, sc, w, agid, priv, cert); var seg := Since(w, w');
      && |seg| <= 4 && w'.log == w.log + seg
      && (forall a :: o == Ok(a) <==> a.agid == agid && MutuallyAuthenticated(sc, w.log, priv, cert, seg, a))
      && (o == Err(DriveCert) <==> ShowsHopeless(sc, agid, seg)) && (DeadFail(o) <==> Breaks(seg))
      && InOrder(sc, agid, seg) && |seg| >= 1
  {
    hide Hypotheses; hide Breaks; hide Issued; hide StepCdb; hide Exchanged; hide KeyShown; hide KeySent;
    hide ShowsHopeless; hide SharedKey; hide BusKey;
    hide ExchangeCerts; hide ReadDriveKey; hide SendHostKey; hide PublicBytes; hide PointBytes; hide KeyField;
    hide ToBytes;
    var (_, w') := Authenticate(env, sc, w, agid, priv, cert);
    var e := sc.scalar(w.log);
    PointBytesMeaning(sc.suite, e);
    var (hx, hy) := PublicBytes(sc.suite, e);
    ExchangeMeaning(env, sc, w, agid, cert);
    var (certs, w1) := ExchangeCerts(env, sc, w, agid, cert);
    OnlyTwo(sc, agid, Since(w, w'));
    if certs.Err? { return; }
    var (nonce, driveCert) := certs.value;
    DriveKeyMeaning(env, sc, w1, agid, HostNonce(sc, w), driveCert);
    var (key, w2) := ReadDriveKey(env, sc, w1, agid, HostNonce(sc, w), driveCert);
    ExchangedTwo(sc, w.log, agid, cert, Since(w, w1), nonce, driveCert);
    Appended(w, w1, w2);
    BreaksConcat(Since(w, w1), Since(w1, w2));
    if key.Err? { return; }
    HostKeyMeaning(env, sc, w2, agid, priv, cert, nonce, hx, hy);
    var (sent, w3) := SendHostKey(env, sc, w2, agid, priv, cert, nonce, hx, hy);
    var seg := Since(w, w3);
    Appended(w, w2, w3);
    BreaksConcat(Since(w, w2), Since(w2, w3));
    SharedKeyMeaning(sc.suite, e, KeyField(sc, key.value, 0), KeyField(sc, key.value, 1));
    if |seg| == 4 {
      assert seg[..2] == Since(w, w1) && seg[2] == Since(w1, w2)[0] && seg[3] == Since(w2, w3)[0];
      assert w.log + seg[..3] == w2.log;
      forall a: Auth, d | a.agid < 4 && Authenticated(sc, w.log, priv, cert, seg, a, d)
        ensures a.agid == agid ==> d == Shown(nonce, driveCert, key.value) {
      }
      forall a: Auth | Authenticate(env, sc, w, agid, priv, cert).0 == Ok(a)
        ensures Authenticated(sc, w.log, priv, cert, seg, a, Shown(nonce, driveCert, key.value)) {
      }
    }
  }

  lemma OnlyTwo(sc: Scheme, agid: byte, seg: seq<Event>)
    requires WellFormed(sc) && agid < 4
    ensures ShowsHopeless(sc, agid, seg) ==> |seg| == 2
  {
  }

  lemma ExchangedTwo(sc: Scheme, hist: seq<Event>, agid: byte, cert: seq<byte>, seg: seq<Event>,
                     nonce: seq<byte>, driveCert: seq<byte>)
    requires WellFormed(sc) && agid < 4 && |cert| >= CertLen(sc)
    requires Exchanged(sc, hist, agid, cert, seg, nonce, driveCert)
    ensures |seg| == 2 && |driveCert| == CertLen(sc)
  {
  }

  /** The invalidate sweep: every AGID from i on, answers ignored. */
  predicate Swept(seg: seq<Event>, i: nat)
    requires i <= 4
  {
    |seg| == 4 - i && forall j :: i <= j < 4 ==> Issued(seg[j - i], ReportKeyCdb(j, 0x3F, 2))
  }

  lemma {:induction false} SweepMeaning(env: Env, w: World, i: nat)
    requires i <= 4
    ensures var w' := Sweep(env, w, i); w'.log == w.log + Since(w, w') && Swept(Since(w, w'), i)
    decreases 4 - i
  {
    hide Executed; hide Issued; hide Since; hide ReportKeyCdb;
    SinceSelf(w);
    if i < 4 {
      var (_, w1) := Executed(env, w, ReportKeyCdb(i, 0x3F, 2), []);
      ExecuteIssued(env, w, ReportKeyCdb(i, 0x3F, 2), []);
      SweepMeaning(env, w1, i + 1);
      Appended(w, w1, Sweep(env, w1, i + 1));
    }
  }

  lemma ExecuteIssued(env: Env, w: World, cdb: Cdb, out: seq<byte>)
    ensures var w' := Executed(env, w, cdb, out).1;
      |Since(w, w')| == 1 && w'.log == w.log + Since(w, w') && Issued(Since(w, w')[0], cdb)
  {
    assert Since(w, Executed(env, w, cdb, out).1)[0] == Executed(env, w, cdb, out).1.log[|w.log|];
  }

  lemma SinceSelf(w: World)
    ensures Since(w, w) == []
  {
  }

  lemma Appended(w: World, w1: World, w2: World)
    requires w1.log == w.log + Since(w, w1) && w2.log == w1.log + Since(w1, w2)
    ensures Since(w, w2) == Since(w, w1) + Since(w1, w2) && w2.log == w.log + Since(w, w2)
  {
  }

  /** One exchange that hands over an authenticated AGID: the sweep, the allocation, the authentication. */
  ghost predicate Established(sc: Scheme, hist: seq<Event>, priv: seq<byte>, cert: seq<byte>, seg: seq<Event>,
                              auth: Auth)
    requires WellFormed(sc)
  {
    && |cert| >= CertLen(sc) && |seg| == 9 && Swept(seg[..4], 0)
    && var alloc := Got(seg[4], ReportKeyCdb(0, 0, 8), 8);
       && alloc.Some? && auth.agid == alloc.value[7] / 64
       && MutuallyAuthenticated(sc, hist + seg[..5], priv, cert, seg[5..], auth)
  }

  /** One that shows a certificate no 1.0 exchange can use: it ends there, with the AGID given back. */
  ghost predicate EndsHopeless(sc: Scheme, cert: seq<byte>, seg: seq<Event>)
    requires WellFormed(sc)
  {
    && |cert| >= CertLen(sc) && |seg| == 8 && Swept(seg[..4], 0)
    && var alloc := Got(seg[4], ReportKeyCdb(0, 0, 8), 8);
       alloc.Some? && ShowsHopeless(sc, alloc.value[7] / 64, seg[5..7]) && GivesBack(seg[7], alloc.value[7] / 64)
  }

  /** One that hands over nothing: a certificate too short to try, an allocation not granted, or an
      authentication broken off, its AGID given back. */
  predicate Fails(sc: Scheme, cert: seq<byte>, seg: seq<Event>)
    requires WellFormed(sc)
  {
    if |cert| < CertLen(sc) then seg == []
    else
      && |seg| >= 5 && Swept(seg[..4], 0) && Issued(seg[4], ReportKeyCdb(0, 0, 8))
      && match Got(seg[4], ReportKeyCdb(0, 0, 8), 8)
         case None => |seg| == 5
         case Some(alloc) =>
           var agid, last := alloc[7] / 64, |seg| - 1;
           last >= 6 && InOrder(sc, agid, seg[5..last]) && GivesBack(seg[last], agid)
  }

  /** `aacs1_ake` and its P-256 sibling, for every drive: they succeed exactly when the history shows a
      whole mutual authentication, and report the drive's certificate exactly when it is hopeless. */
  lemma AkeMeaning(env: Env, sc: Scheme, w: World, priv: seq<byte>, cert: seq<byte>)
    requires WellFormed(sc) && Hypotheses(sc.suite)
    ensures var (o, w') := Ake(env, sc, w, priv, cert); var seg := Since(w, w');
      && w'.log == w.log + seg
      && (forall a :: o == Ok(a) <==> Established(sc, w.log, priv, cert, seg, a))
      && (o == Err(DriveCert) <==> EndsHopeless(sc, cert, seg))
      && (DeadFail(o) <==> |seg| > 4 && Breaks(seg[4..]))
      && (o.Err? ==> Fails(sc, cert, seg))
      && (o.Err? && |seg| >= 9 ==> forall a :: !Established(sc, w.log, priv, cert, seg[..9], a))
  {
    hide Hypotheses; hide Breaks; hide Authenticate; hide Got; hide ReportKeyCdb; hide MutuallyAuthenticated;
    hide ShowsHopeless;
    hide Sweep; hide Swept; hide Issued; hide ReadStep; hide Broken; hide GivesBack; hide InOrder;
    hide Since; hide Executed; hide Released;
    if |cert| < CertLen(sc) { SinceSelf(w); return; }
    SweepMeaning(env, w, 0);
    var w1 := Sweep(env, w, 0);
    SweptFour(Since(w, w1));
    ReadMeaning(env, w1, ReportKeyCdb(0, 0, 8), 8, AgidAlloc);
    var (alloc, w2) := ReadStep(env, w1, ReportKeyCdb(0, 0, 8), 8, AgidAlloc);
    Appended(w, w1, w2);
    BreaksOne(Since(w1, w2));
    var sweep, one := Since(w, w1), Since(w1, w2);
    if alloc.Err? { Parts(w.log, sweep, one, [], []); return; }
    var agid := alloc.value[7] / 64;
    AuthenticateMeaning(env, sc, w2, agid, priv, cert);
    var (auth, w3) := Authenticate(env, sc, w2, agid, priv, cert);
    var four := Since(w2, w3);
    Appended(w, w2, w3);
    OnlyTwo(sc, agid, four);
    BreaksConcat(one, four);
    if auth.Ok? {
      Parts(w.log, sweep, one, four, []);
      EstablishedFour(sc, w2.log, priv, cert, four, auth.value);
    } else {
      ReleaseMeaning(env, w3, agid);
      var w' := Released(env, w3, agid);
      Appended(w, w3, w');
      Parts(w.log, sweep, one, four, Since(w3, w'));
      BreaksConcat(one + four, Since(w3, w'));
      EndsMeaning(sc, cert, sweep, one, four, Since(w3, w'), agid);
      if |four| >= 3 { NotEstablished(sc, w.log, priv, cert, sweep, one, four, Since(w3, w'), agid); }
      assert |Since(w, w')| == 9 ==> Since(w, w')[..9] == Since(w, w');
    }
  }

  lemma NotEstablished(sc: Scheme, hist: seq<Event>, priv: seq<byte>, cert: seq<byte>, sweep: seq<Event>,
                       one: seq<Event>, four: seq<Event>, last: seq<Event>, agid: byte)
    requires WellFormed(sc) && |cert| >= CertLen(sc) && |sweep| == 4 && |one| == 1 && |last| == 1
    requires 3 <= |four| <= 4 && agid < 4 && GivesBack(last[0], agid)
    requires Got(one[0], ReportKeyCdb(0, 0, 8), 8).Some?
    requires Got(one[0], ReportKeyCdb(0, 0, 8), 8).value[7] / 64 == agid
    requires forall a: Auth :: a.agid == agid ==> !MutuallyAuthenticated(sc, hist + sweep + one, priv, cert, four, a)
    ensures forall a :: !Established(sc, hist, priv, cert, (sweep + one + four + last)[..9], a)
  {
    hide Got; hide ReportKeyCdb; hide MutuallyAuthenticated; hide Swept;
    var nine := (sweep + one + four + last)[..9];
    assert hist + nine[..5] == hist + sweep + one && nine[4] == one[0];
    assert nine[5..] == if |four| == 4 then four else four + last;
    forall a | MutuallyAuthenticated(sc, hist + sweep + one, priv, cert, nine[5..], a) ensures |four| == 4 {
      EstablishedFour(sc, hist + sweep + one, priv, cert, nine[5..], a);
    }
  }

  lemma EndsMeaning(sc: Scheme, cert: seq<byte>, sweep: seq<Event>, one: seq<Event>, four: seq<Event>,
                    last: seq<Event>, agid: byte)
    requires WellFormed(sc) && |cert| >= CertLen(sc) && |sweep| == 4 && |one| == 1 && |last| == 1
    requires Swept(sweep, 0) && Got(one[0], ReportKeyCdb(0, 0, 8), 8).Some? && agid < 4 && GivesBack(last[0], agid)
    requires agid == Got(one[0], ReportKeyCdb(0, 0, 8), 8).value[7] / 64
    ensures EndsHopeless(sc, cert, sweep + one + four + last) <==> ShowsHopeless(sc, agid, four)
  {
    hide Got; hide ReportKeyCdb; hide ShowsHopeless; hide Swept; hide GivesBack;
    OnlyTwo(sc, agid, four);
    Parts([], sweep, one, four, last);
  }

  lemma ReleaseMeaning(env: Env, w: World, agid: byte)
    requires agid < 4
    ensures var w' := Released(env, w, agid);
      && |Since(w, w')| == 1 && w'.log == w.log + Since(w, w') && GivesBack(Since(w, w')[0], agid)
      && !Breaks(Since(w, w'))
  {
    assert Since(w, Released(env, w, agid))[0] == Released(env, w, agid).log[|w.log|];
  }

  lemma Parts(hist: seq<Event>, sweep: seq<Event>, one: seq<Event>, four: seq<Event>, last: seq<Event>)
    requires |sweep| == 4 && |one| == 1
    ensures var seg := sweep + one + four + last;
      && |seg| == 5 + |four| + |last| && seg[..4] == sweep && seg[4] == one[0] && hist + seg[..5] == hist + sweep + one
      && seg[4..] == one + four + last && seg[5..] == four + last && seg[5..][..|four|] == four
      && seg[5..5 + |four|] == four
      && (|four| == 2 && |last| == 1 ==> seg[5..7] == four && seg[7] == last[0])
      && (last == [] ==> seg == sweep + one + four && seg[5..] == four && seg[4..] == one + four)
      && (|last| == 1 ==> seg[|seg| - 1] == last[0] && (|four| == 3 ==> seg[5..][3] == last[0]))
      && (four == [] && last == [] ==> seg == sweep + one && seg[4..] == one)
  {
    var seg := sweep + one + four + last;
    assert seg[..5] == sweep + one;
  }

  lemma SweptFour(seg: seq<Event>)
    requires Swept(seg, 0)
    ensures |seg| == 4
  {
  }

  lemma EstablishedFour(sc: Scheme, hist: seq<Event>, priv: seq<byte>, cert: seq<byte>, seg: seq<Event>, auth: Auth)
    requires WellFormed(sc) && |cert| >= CertLen(sc) && MutuallyAuthenticated(sc, hist, priv, cert, seg, auth)
    ensures |seg| == 4 && seg[3].Exec? && auth.agid < 4
  {
    hide Exchanged; hide KeyShown; hide SharedKey;
  }
}
