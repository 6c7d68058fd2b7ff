/** A whole honest session on the curve of seven points, with any hash and any Volume ID: what the
    theorems on honest runs ask for can be met, and the run they promise takes place. */
module SmallSession {
  import opened Wrappers
  import opened Modular
  import opened Curve
  import opened Bytes
  import opened Scsi
  import opened Unlock
  import opened Ecdsa
  import opened Cmac
  import opened Handshake
  import opened Ledger
  import opened Honest
  import opened SmallCurve

  function Tiny(width: nat, hash: seq<byte> -> seq<byte>): Suite { Suite(TINY, 7, Multiple(1), width, hash) }

  // ----- signatures -----

  /** The signing loop over the draws 2 and 3. */
  function TinySign(su: Suite, priv: seq<byte>, data: seq<byte>): (seq<byte>, seq<byte>)
    requires Usable(su)
  {
    var first := SignOnce(su, FromBytes(priv), Z(su, data), 2);
    match if first.Some? then first else SignOnce(su, FromBytes(priv), Z(su, data), 3)
    case None => ([], [])
    case Some(sig) => (ToBytes(sig.0, su.width), ToBytes(sig.1, su.width))
  }

  lemma TinyR(width: nat, hash: seq<byte> -> seq<byte>)
    requires width >= 16
    ensures Hypotheses(Tiny(width, hash)) && SigR(Tiny(width, hash), 2) == 1 && SigR(Tiny(width, hash), 3) == 2
  {
    hide EcMul; hide Times; hide OnCurve; hide Group; hide Prime;
    HypothesesMet(width, hash);
    TinyTimes(2);
    TinyTimes(3);
    EcMulMeaning(TINY, 2, Multiple(1));
    EcMulMeaning(TINY, 3, Multiple(1));
  }

  /** One of the two draws always serves, whatever the hash. */
  lemma TinySigns(width: nat, hash: seq<byte> -> seq<byte>, priv: seq<byte>, data: seq<byte>)
    requires width >= 16 && FromBytes(priv) % 7 != 0
    ensures var su := Tiny(width, hash);
            var (r, s) := TinySign(su, priv, data);
            IsSignature(su, priv, data, r, s)
  {
    hide SignOnce; hide SigR; hide Hypotheses; hide FromBytes; hide ToBytes;
    var su := Tiny(width, hash);
    TinyR(width, hash);
    SigningPossible(su, FromBytes(priv), Z(su, data), 2, 3);
    var (r, s) := TinySign(su, priv, data);
    var k: nat := if SignOnce(su, FromBytes(priv), Z(su, data), 2).Some? then 2 else 3;
    assert SignedWith(su, priv, data, k, r, s);
  }

  // ----- the two sides -----

  function TinyScheme(v1: bool, hash: seq<byte> -> seq<byte>): (sc: Scheme)
    ensures WellFormed(sc)
  {
    var su := Tiny(if v1 then 20 else 32, hash);
    Scheme(v1, su, ToBytes(0, su.width), ToBytes(1, su.width), _ => 0, _ => 1,
           (_, priv, data) => TinySign(su, priv, data))
  }

  function TinyConfig(hash: seq<byte> -> seq<byte>): (cfg: Config)
    ensures ValidConfig(cfg)
  {
    Config(TinyScheme(true, hash), TinyScheme(false, hash), (_, _) => Zeros(16), (_, _) => Zeros(16), false)
  }

  /** The one private key of this world. */
  const KEY: seq<byte> := [1]

  function TinySigned(): seq<byte> { [1] + Zeros(11) + ToBytes(0, 20) + ToBytes(1, 20) }

  /** The certificate of either side, signed by the authority. */
  function TinyCert(hash: seq<byte> -> seq<byte>): seq<byte> {
    var (r, s) := TinySign(Tiny(20, hash), KEY, TinySigned());
    TinySigned() + r + s
  }

  function TinyDrive(hash: seq<byte> -> seq<byte>, vid: Block): DriveKeys {
    DriveKeys(KEY, TinyCert(hash), Zeros(20), 1, 0, vid)
  }

  function Good(data: seq<byte>): Reply { Answered(0, |data|, Sense(0, 0, 0), data) }

  lemma GoodGives(data: seq<byte>)
    ensures Gives(Good(data), data) && Accepts(Good(data)) && Outcome(Good(data), |data|) == Ok(data)
  {
  }

  function TinyKeyMessage(hash: seq<byte> -> seq<byte>, hostNonce: seq<byte>): seq<byte> {
    var sc := TinyScheme(true, hash);
    var (x, y) := PublicBytes(sc.suite, 1);
    var (r, s) := TinySign(sc.suite, KEY, hostNonce + x + y);
    KeyMessage(sc, x, y, r, s)
  }

  /** The bus key the drive derives from the host's key message. */
  function TinyBusKey(hash: seq<byte> -> seq<byte>, m: seq<byte>): Option<seq<byte>>
    requires |m| == 84
  {
    var sc := TinyScheme(true, hash);
    BusKey(sc.suite, ToBytes(1, 20), KeyField(sc, m, 0), KeyField(sc, m, 1))
  }

  /** The drive: it follows the protocol and takes everything else. */
  function TinyAnswer(hash: seq<byte> -> seq<byte>, vid: Block, log: seq<Event>, cdb: Cdb): Reply {
    var cert, key := LastSent(log, 1), LastSent(log, 2);
    if cdb == ReportKeyCdb(0, 0, 8) then Good(Zeros(8))
    else if cdb == ReportKeyCdb(0, 1, 116) then Good([0, 114, 0, 0] + Zeros(20) + TinyCert(hash))
    else if cdb == ReportKeyCdb(0, 2, 84) && cert.Some? && |cert.value| == 116 then
      Good(TinyKeyMessage(hash, cert.value[4..24]))
    else if cdb == DiscStructureCdb(0, 0x80, 36) && key.Some? && |key.value| == 84
      && TinyBusKey(hash, key.value).Some? then
      Good([0, 0x22, 0, 0] + vid + Buffered(Cmac16(TinyConfig(hash).encrypt, vid, TinyBusKey(hash, key.value).value)))
    else Good([])
  }

  function TinyEnv(hash: seq<byte> -> seq<byte>, vid: Block): Env {
    Env((log, cdb, _) => TinyAnswer(hash, vid, log, cdb), _ => false)
  }

  lemma CommandsDiffer()
    ensures ReportKeyCdb(0, 0, 8) != ReportKeyCdb(0, 1, 116) && ReportKeyCdb(0, 0, 8) != ReportKeyCdb(0, 2, 84)
    ensures ReportKeyCdb(0, 1, 116) != ReportKeyCdb(0, 2, 84)
    ensures DiscStructureCdb(0, 0x80, 36) !in {ReportKeyCdb(0, 0, 8), ReportKeyCdb(0, 1, 116), ReportKeyCdb(0, 2, 84)}
    ensures DiscStructureCdb(0, 0x84, 36) !in {ReportKeyCdb(0, 0, 8), ReportKeyCdb(0, 1, 116), ReportKeyCdb(0, 2, 84),
                                               DiscStructureCdb(0, 0x80, 36)}
    ensures SendKeyCdb(0, 1, 116) !in {ReportKeyCdb(0, 0, 8), ReportKeyCdb(0, 1, 116), ReportKeyCdb(0, 2, 84),
                                       DiscStructureCdb(0, 0x80, 36)}
    ensures SendKeyCdb(0, 2, 84) !in {ReportKeyCdb(0, 0, 8), ReportKeyCdb(0, 1, 116), ReportKeyCdb(0, 2, 84),
                                      DiscStructureCdb(0, 0x80, 36)}
  {
  }

  lemma KeyIsOne()
    ensures FromBytes(KEY) == 1
  {
    assert KEY[..0] == [];
  }

  lemma KeyPoint()
    ensures FromBytes(KEY) == 1 && FromBytes(ToBytes(0, 20)) == 0 && FromBytes(ToBytes(1, 20)) == 1
  {
    hide FromBytes; hide ToBytes; hide Pow256;
    PowersExceed(20);
    ToBytesValue(0, 20);
    ToBytesValue(1, 20);
    KeyIsOne();
  }

  /** The key pair of this world. */
  lemma TinyPair(hash: seq<byte> -> seq<byte>)
    ensures KeyPair(Tiny(20, hash), KEY, ToBytes(0, 20), ToBytes(1, 20)) && Hypotheses(Tiny(20, hash))
  {
    hide FromBytes; hide ToBytes; hide Hypotheses;
    KeyPoint();
    TinyR(20, hash);
    TimesOne(TINY, Multiple(1));
  }

  /** The signature on a message of this world, of full length. */
  lemma TinySignature(hash: seq<byte> -> seq<byte>, data: seq<byte>) returns (r: seq<byte>, s: seq<byte>)
    ensures (r, s) == TinySign(Tiny(20, hash), KEY, data) && |r| == 20 && |s| == 20
    ensures IsSignature(Tiny(20, hash), KEY, data, r, s)
  {
    hide IsSignature; hide TinySign; hide FromBytes;
    KeyPoint();
    TinySigns(20, hash, KEY, data);
    var sig := TinySign(Tiny(20, hash), KEY, data);
    r, s := sig.0, sig.1;
    SignatureLengths(Tiny(20, hash), KEY, data, r, s);
  }

  /** The certificate is what the authority signed: the point of the key, with a valid signature. */
  lemma TinyCertParts(hash: seq<byte> -> seq<byte>)
    ensures var sc, cert := TinyScheme(true, hash), TinyCert(hash);
            && |cert| == 92 && cert[0] == 1 && cert[..92] == cert
            && CertX(sc, cert) == ToBytes(0, 20) && CertY(sc, cert) == ToBytes(1, 20) && CertVerifies(sc, cert)
  {
    hide IsSignature; hide TinySign; hide FromBytes; hide ToBytes; hide Verify; hide KeyPair; hide Hypotheses;
    hide Usable;
    var sc, cert, signed := TinyScheme(true, hash), TinyCert(hash), TinySigned();
    var r, s := TinySignature(hash, signed);
    TinyPair(hash);
    assert cert == signed + r + s;
    assert cert[..52] == signed && cert[52..72] == r && cert[72..92] == s;
    assert cert[12..32] == ToBytes(0, 20) && cert[32..52] == ToBytes(1, 20);
    SignVerify(sc.suite, KEY, ToBytes(0, 20), ToBytes(1, 20), signed, r, s);
  }

  lemma TinyValid(hash: seq<byte> -> seq<byte>, vid: Block)
    ensures ValidDrive(TinyScheme(true, hash), TinyDrive(hash, vid))
  {
    hide CertVerifies; hide KeyPair; hide TinyCert; hide ToBytes;
    TinyCertParts(hash);
    TinyPair(hash);
  }

  lemma TinyKeyAnswer(hash: seq<byte> -> seq<byte>, vid: Block, hostNonce: seq<byte>)
    ensures GivesSignedKey(TinyScheme(true, hash), TinyDrive(hash, vid), hostNonce,
        Good(TinyKeyMessage(hash, hostNonce)))
  {
    hide IsSignature; hide TinySign; hide PublicBytes; hide KeyMessage; hide Usable; hide Gives;
    var sc, d := TinyScheme(true, hash), TinyDrive(hash, vid);
    var (x, y) := PublicBytes(sc.suite, 1);
    var r, s := TinySignature(hash, hostNonce + x + y);
    GoodGives(KeyMessage(sc, x, y, r, s));
    assert x == DriveX(sc, d) && y == DriveY(sc, d);
    assert Gives(Good(TinyKeyMessage(hash, hostNonce)), KeyMessage(sc, DriveX(sc, d), DriveY(sc, d), r, s));
  }

  lemma TinyHonest(hash: seq<byte> -> seq<byte>, vid: Block, log: seq<Event>, cdb: Cdb, out: seq<byte>)
    requires ValidDrive(TinyScheme(true, hash), TinyDrive(hash, vid))
    ensures HonestAnswer(TinyConfig(hash), TinyDrive(hash, vid), log, cdb, out, TinyAnswer(hash, vid, log, cdb))
  {
    hide ValidDrive; hide GivesSignedKey; hide HostKeyValid; hide CertVerifies; hide TinyCert; hide TinyKeyMessage;
    hide ReportKeyCdb; hide SendKeyCdb; hide DiscStructureCdb; hide KeyField; hide BusKey; hide LastSent; hide Cmac16;
    hide Buffered; hide Gives; hide Outcome; hide Accepts; hide IsDeadBus;
    var cfg, d := TinyConfig(hash), TinyDrive(hash, vid);
    CommandsDiffer();
    GoodGives([]);
    GoodGives(Zeros(8));
    NotDead([]);
    GoodGives(CertMessage(cfg.s1, d.nonce, d.cert)) by { TinyCertParts(hash); }
    assert CertMessage(cfg.s1, d.nonce, d.cert) == [0, 114, 0, 0] + Zeros(20) + TinyCert(hash) by {
      TinyCertParts(hash);
    }
    if LastSent(log, 1).Some? && |LastSent(log, 1).value| == 116 {
      TinyKeyAnswer(hash, vid, LastSent(log, 1).value[4..24]);
    }
    if LastSent(log, 2).Some? && |LastSent(log, 2).value| == 84 && TinyBusKey(hash, LastSent(log, 2).value).Some? {
      GoodGives([0, 0x22, 0, 0] + vid +
        Buffered(Cmac16(cfg.encrypt, vid, TinyBusKey(hash, LastSent(log, 2).value).value)));
    }
  }

  lemma NotDead(data: seq<byte>)
    ensures !IsDeadBus(Good(data))
  {
  }

  /** The hypotheses of an honest run can be met, with any hash and any Volume ID. */
  lemma SessionMet(hash: seq<byte> -> seq<byte>, vid: Block)
    ensures HonestEnv(TinyConfig(hash), TinyDrive(hash, vid), TinyEnv(hash, vid))
    ensures Hypotheses(TinyConfig(hash).s1.suite)
  {
    hide HonestAnswer; hide ValidDrive; hide IsSignature; hide TinySign; hide TinyAnswer; hide Hypotheses;
    hide FromBytes;
    hide TinyDrive;
    var cfg, d, env := TinyConfig(hash), TinyDrive(hash, vid), TinyEnv(hash, vid);
    TinyValid(hash, vid);
    TinyPair(hash);
    forall log, cdb, out ensures HonestAnswer(cfg, d, log, cdb, out, env.drive(log, cdb, out)) {
      TinyHonest(hash, vid, log, cdb, out);
    }
    forall h: seq<Event>, priv: seq<byte>, data: seq<byte> | FromBytes(priv) % cfg.s1.suite.n != 0
      ensures IsSignature(cfg.s1.suite, priv, data, cfg.s1.sign(h, priv, data).0, cfg.s1.sign(h, priv, data).1)
    {
      TinySigns(20, hash, priv, data);
    }
  }

  /** And the run takes place: the host comes back with the drive's own Volume ID. */
  lemma SessionRuns(hash: seq<byte> -> seq<byte>, vid: Block)
    ensures var certs := [HostCert(KEY, TinyCert(hash), None, None)];
            var (o, _) := CertLoop(TinyEnv(hash, vid), TinyConfig(hash), World([], false, 0), certs, 0, false);
            o.Ok? && o.value.volumeId == vid
  {
    hide HonestEnv; hide Hypotheses; hide TinyCert; hide CertVerifies; hide KeyPair; hide KeyPairMatches; hide CertLoop;
    hide TinyEnv; hide CertX; hide CertY; hide ToBytes;
    var cfg, hc := TinyConfig(hash), HostCert(KEY, TinyCert(hash), None, None);
    SessionMet(hash, vid);
    TinyCertParts(hash);
    TinyPair(hash);
    KeyPairMatchesMeaning(cfg.s1.suite, KEY, CertX(cfg.s1, hc.cert), CertY(cfg.s1, hc.cert));
    assert V1Usable(cfg, hc);
    assert UsableCerts(cfg, [hc]) == [hc] + UsableCerts(cfg, [hc][1..]);
    HonestRun(cfg, TinyDrive(hash, vid), TinyEnv(hash, vid), World([], false, 0), [hc]);
  }
}
