/** The other party of the TLS 1.3 handshake: a server that follows RFC 8446, and that this client accepts it. */
module HonestTls {
  import opened Bytes
  import opened RecordLayer
  import opened KeySchedule
  import opened ServerFlight
  import opened Tls13Client
  import opened TlsHistory
  import ClientHello
  import Der
  import TlsReference
  import Primitives

  // ---- ServerHello ----

  function SuiteCode(s: Suite): u16 {
    match s
    case Aes128GcmSha256 => 0x1301
    case Aes256GcmSha384 => 0x1302
    case ChaCha20Poly1305Sha256 => 0x1303
  }

  /** A handshake message of the given type (section 4 of RFC 8446). */
  function Message(kind: byte, body: bytes): bytes { [kind] + PutU24(|body|) + body }

  /** supported_versions (0x002b) with 0x0304, then key_share (0x0033) with a single x25519 (0x001d) entry. */
  function ServerExts(share: bytes): bytes {
    PutU16(0x002b) + (PutU16(2) + ([0x03, 0x04] + (PutU16(0x0033) + (PutU16(36)
    + (PutU16(0x001d) + (PutU16(32) + share))))))
  }

  function ServerHelloBody(suite: Suite, random: bytes, sid: bytes, share: bytes): bytes {
    [0x03, 0x03] + (random + ([|sid| % 256] + (sid + (PutU16(SuiteCode(suite))
    + ([0x00] + (PutU16(46) + ServerExts(share)))))))
  }

  function ServerHelloMessage(suite: Suite, random: bytes, sid: bytes, share: bytes): bytes {
    Message(0x02, ServerHelloBody(suite, random, sid, share))
  }

  function ServerHelloRecord(message: bytes): bytes { [0x16, 0x03, 0x03] + PutU16(|message|) + message }

  lemma ReadShExtOf(k2: bytes, l2: bytes, data: bytes, rest: bytes, left: int, share: Option<bytes>)
    requires |k2| == 2 && |l2| == 2 && U16(l2[0], l2[1]) == |data| && left > 0
    ensures ReadShExts(k2 + (l2 + (data + rest)), left, share) ==
            var next :- if U16(k2[0], k2[1]) == ClientHello.EXT_KEY_SHARE then ReadShare(data, share) else Ok(share);
            ReadShExts(rest, left - 4 - |data|, next)
  {
    hide ReadShare, U16;
    ClientHello.CutHead(k2, l2 + (data + rest));
    ClientHello.CutHead(l2, data + rest);
    ClientHello.CutHead(data, rest);
  }

  /** An entry is taken exactly if it is an x25519 one of 32 bytes; any other leaves what was found before. */
  lemma ReadShareOf(g2: bytes, l2: bytes, key: bytes, share: Option<bytes>)
    requires |g2| == 2 && |l2| == 2 && U16(l2[0], l2[1]) == |key|
    ensures ReadShare(g2 + (l2 + key), share)
         == Ok(if U16(g2[0], g2[1]) == 0x001d && |key| == 32 then Some(key) else share)
  {
    hide U16;
    ClientHello.CutHead(g2, l2 + key);
    ClientHello.CutHead(l2, key);
    assert key + [] == key;
    ClientHello.CutHead(key, []);
  }

  lemma ServerExtsRead(share: bytes)
    requires |share| == 32
    ensures |ServerExts(share)| == 46 && ReadShExts(ServerExts(share), 46, None) == Ok(Some(share))
  {
    hide PutU16, U16, ReadShExts, ReadShare;
    var entry := PutU16(ClientHello.GROUP_X25519) + (PutU16(32) + share);
    var second := PutU16(ClientHello.EXT_KEY_SHARE) + (PutU16(36) + (entry + []));
    assert entry + [] == entry;
    ReadShareOf(PutU16(ClientHello.GROUP_X25519), PutU16(32), share, None);
    ReadShExtOf(PutU16(0x002b), PutU16(2), [0x03, 0x04], second, 46, None);
    ReadShExtOf(PutU16(ClientHello.EXT_KEY_SHARE), PutU16(36), entry, [], 40, None);
    assert ReadShExts([], 0, Some(share)) == Ok(Some(share)) by { NoExtsLeft(share); }
  }

  lemma NoExtsLeft(share: bytes)
    ensures ReadShExts([], 0, Some(share)) == Ok(Some(share))
  {
  }

  lemma ServerHelloOf(random: bytes, sid: bytes, s2: bytes, e2: bytes, exts: bytes)
    requires |random| == 32 && |sid| < 256 && |s2| == 2 && |e2| == 2 && SuiteOf(U16(s2[0], s2[1])).Some?
    ensures ReadServerHello([0x03, 0x03] + (random + ([|sid| % 256] + (sid + (s2 + ([0x00] + (e2 + exts))))))) ==
            var share :- ReadShExts(exts, U16(e2[0], e2[1]), None);
            Ok((SuiteOf(U16(s2[0], s2[1])).value, share))
  {
    hide U16, ReadShExts, SuiteOf, ClientHello.Cut, ClientHello.CutU8, ClientHello.CutU16;
    var r5 := [0x00] + (e2 + exts);
    var r3 := sid + (s2 + r5);
    ClientHello.CutHead([0x03, 0x03], random + ([|sid|] + r3));
    ClientHello.CutHead(random, [|sid|] + r3);
    ClientHello.CutHeadU8(|sid|, r3);
    ClientHello.CutHead(sid, s2 + r5);
    CutPair(s2, r5);
    ClientHello.CutHeadU8(0x00, e2 + exts);
    CutPair(e2, exts);
  }

  /** Any other suite is refused, whatever follows it. */
  lemma OtherSuitesAreRefused(code: u16, random: bytes, sid: bytes, rest: bytes)
    requires |random| == 32 && |sid| < 256 && code != 0x1301 && code != 0x1302 && code != 0x1303
    ensures ReadServerHello([0x03, 0x03] + (random + ([|sid| % 256] + (sid + (PutU16(code) + rest)))))
         == Err(BadCipherSuite)
  {
    hide U16, PutU16, ReadShExts, ClientHello.Cut, ClientHello.CutU8;
    var r3 := sid + (PutU16(code) + rest);
    ClientHello.CutHead([0x03, 0x03], random + ([|sid|] + r3));
    ClientHello.CutHead(random, [|sid|] + r3);
    ClientHello.CutHeadU8(|sid|, r3);
    ClientHello.CutHead(sid, PutU16(code) + rest);
    ClientHello.CutHeadU16(code, rest);
  }

  lemma CutPair(l2: bytes, rest: bytes)
    requires |l2| == 2
    ensures ClientHello.CutU16(l2 + rest) == Ok((U16(l2[0], l2[1]), rest))
  {
    ClientHello.CutHead(l2, rest);
  }

  lemma RecordOf(l2: bytes, message: bytes)
    requires |l2| == 2 && U16(l2[0], l2[1]) == |message|
    ensures var wire := [CONTENT_HANDSHAKE, 0x03, 0x03] + l2 + message;
            && |wire| == 5 + |message| && wire[0] == CONTENT_HANDSHAKE
            && U16(wire[3], wire[4]) == |message| && wire[5..5 + |message|] == message
  {
    hide U16;
    var wire := [CONTENT_HANDSHAKE, 0x03, 0x03] + l2 + message;
    assert wire[3] == l2[0] && wire[4] == l2[1];
  }

  /** A ServerHello message cut off inside its own header passes the checks before the slice that aborts the call. */
  lemma CutServerHelloAborts(rest: bytes)
    requires |rest| < 3
    ensures HelloParsed(ServerHelloRecord([0x02] + rest)) == Err(Aborted)
  {
    hide PutU16, U16, ReadServerHello;
    var m := [0x02] + rest;
    RecordOf(PutU16(|m|), m);
  }

  /** The client reads back the suite and the key share of every such ServerHello. */
  lemma ServerHelloRead(suite: Suite, random: bytes, sid: bytes, share: bytes)
    requires |random| == 32 && |sid| <= 32 && |share| == 32
    ensures var m := ServerHelloMessage(suite, random, sid, share);
            HelloParsed(ServerHelloRecord(m)) == Ok(HelloFields(suite, Some(share), m))
  {
    hide PutU16, PutU24, U16, ReadServerHello, ServerExts, ReadShExts;
    ServerExtsRead(share);
    var body := ServerHelloBody(suite, random, sid, share);
    ServerHelloOf(random, sid, PutU16(SuiteCode(suite)), PutU16(46), ServerExts(share));
    var m := ServerHelloMessage(suite, random, sid, share);
    assert |m| < 0x1_0000 && m[4..] == body && m[0] == HS_SERVER_HELLO;
    RecordOf(PutU16(|m|), m);
  }

  // ---- the server's own key schedule ----

  /** The server's view of the session: what both sides share once ServerHello is sent. */
  datatype Party = Party(suite: Suite, shared: bytes, transcript: bytes)

  function HashFor(p: Party): HashAlg { TlsReference.HashOf(p.suite) }

  function Zero(p: Party): bytes { Zeros(TlsReference.HashSize(HashFor(p))) }

  /** The schedule of section 7.1 of RFC 8446, without pre-shared key. */
  function HandshakeSecret(c: Tls, p: Party): bytes
    requires Lawful(c)
  {
    var h := HashFor(p);
    c.hmac(h, TlsReference.Derive(c, h, c.hmac(h, Zero(p), Zero(p)), TlsReference.DERIVED, []), p.shared)
  }

  function MasterSecret(c: Tls, p: Party): bytes
    requires Lawful(c)
  {
    var h := HashFor(p);
    c.hmac(h, TlsReference.Derive(c, h, HandshakeSecret(c, p), TlsReference.DERIVED, []), Zero(p))
  }

  /** The server writes its flight under "s hs traffic" and reads the client's under "c hs traffic". */
  function ServerTraffic(c: Tls, p: Party): bytes
    requires Lawful(c)
  {
    TlsReference.Derive(c, HashFor(p), HandshakeSecret(c, p), TlsReference.S_HS_TRAFFIC, p.transcript)
  }

  function ClientTraffic(c: Tls, p: Party): bytes
    requires Lawful(c)
  {
    TlsReference.Derive(c, HashFor(p), HandshakeSecret(c, p), TlsReference.C_HS_TRAFFIC, p.transcript)
  }

  /** The client's schedule, step by step, arrives at the same secrets. */
  lemma ScheduleAgrees(c: Tls, p: Party)
    requires Lawful(c)
    ensures var h := SuiteHash(p.suite);
            var zero, empty, th := Zeros(HashLen(h)), c.hash(h, []), c.hash(h, p.transcript);
            var hs := Extract(c, h, DeriveSecret(c, h, Extract(c, h, zero, zero), "derived", empty), p.shared);
            && hs == HandshakeSecret(c, p)
            && Extract(c, h, DeriveSecret(c, h, hs, "derived", empty), zero) == MasterSecret(c, p)
            && DeriveSecret(c, h, hs, "s hs traffic", th) == ServerTraffic(c, p)
            && DeriveSecret(c, h, hs, "c hs traffic", th) == ClientTraffic(c, p)
  {
    hide DeriveSecret, TlsReference.Derive, Zeros;
    TlsReference.LabelsAgree();
    TlsReference.TrafficLabelsAgree();
    hide Primitives.Ascii;
    var h := HashFor(p);
    TlsReference.DeriveAgrees(c, h, c.hmac(h, Zero(p), Zero(p)), "derived", TlsReference.DERIVED, []);
    var hs := HandshakeSecret(c, p);
    TlsReference.DeriveAgrees(c, h, hs, "derived", TlsReference.DERIVED, []);
    TlsReference.DeriveAgrees(c, h, hs, "s hs traffic", TlsReference.S_HS_TRAFFIC, p.transcript);
    TlsReference.DeriveAgrees(c, h, hs, "c hs traffic", TlsReference.C_HS_TRAFFIC, p.transcript);
  }

  // ---- the server's flight ----

  /** The leaf certificate: its fields, and the RSA key in its SubjectPublicKeyInfo as integer contents. */
  datatype Leaf = Leaf(x: Der.Certificate, n: bytes, e: bytes, params: bytes, extra: bytes, more: bytes)

  predicate RsaLeaf(l: Leaf) {
    && Der.WellFormed(l.x) && |Der.TbsBytes(l.x)| < 0x8000_0000
    && Der.Fits(l.n) && Der.Fits(l.e) && Der.Fits(l.params) && Der.Fits(l.extra) && Der.Fits(l.more)
    && l.x.spki == Der.RsaSpkiContent(l.n, l.e, l.params, l.extra, l.more)
  }

  /**
    * What the client's check makes of a signature under such a leaf: exactly the scheme, the key and the RSA verdict.
    */
  lemma LeafVerdict(c: Tls, l: Leaf, cv: CertVerify)
    requires RsaLeaf(l)
    ensures var n, e := Der.StripSign(l.n), Der.StripSign(l.e);
            VerifySignature(c, cv, Der.CertBytes(l.x)) ==
            if !c.rsaKeyValid(n, e) || !TlsReference.RsaScheme(cv.scheme) then Err(BadScheme)
            else if c.rsaVerify(cv.scheme, n, e, cv.sig, cv.tbs) then Ok(())
            else Err(CertVerifyRejected)
  {
    hide Der.CertSpki, Der.RsaSpki, Der.CertBytes, Der.TbsBytes, Der.RsaSpkiContent, Der.Encode, Der.StripSign,
         KnownScheme, TlsReference.RsaScheme;
    SchemesAgree(cv.scheme);
    Der.CertSpkiIsExact(l.x, []);
    assert Der.CertBytes(l.x) + [] == Der.CertBytes(l.x);
    Der.RsaSpkiIsExact(l.n, l.e, l.params, l.extra, l.more, []);
    var spki := Der.RsaSpkiBytes(l.n, l.e, l.params, l.extra, l.more);
    assert spki + [] == spki;
  }

  /** `certificateLate` is the order the standard forbids: Certificate only after CertificateVerify. */
  datatype ServerSide = ServerSide(extensions: bytes, leaf: Leaf, entries: seq<CertEntry>, scheme: u16, sig: bytes,
                                   certificateLate: bool)

  function CertificateMessage(entries: seq<CertEntry>): bytes {
    Message(0x0b, [0x00] + (PutU24(|EntriesBytes(entries)|) + EntriesBytes(entries)))
  }

  function CertVerifyMessage(scheme: u16, sig: bytes): bytes {
    Message(0x0f, PutU16(scheme) + PutU16(|sig|) + sig)
  }

  /** The transcript the signature is over. */
  function BeforeVerify(p: Party, s: ServerSide): bytes {
    p.transcript + Message(0x08, s.extensions) + if s.certificateLate then [] else CertificateMessage(s.entries)
  }

  function BeforeFinished(p: Party, s: ServerSide): bytes {
    BeforeVerify(p, s) + CertVerifyMessage(s.scheme, s.sig) + if s.certificateLate then CertificateMessage(s.entries)
                                                              else []
  }

  function ServerFinished(c: Tls, p: Party, s: ServerSide): bytes
    requires Lawful(c)
  {
    Message(0x14, TlsReference.VerifyData(c, HashFor(p), ServerTraffic(c, p), BeforeFinished(p, s)))
  }

  function FlightBytes(c: Tls, p: Party, s: ServerSide): bytes
    requires Lawful(c)
  {
    var cert, cv := CertificateMessage(s.entries), CertVerifyMessage(s.scheme, s.sig);
    Message(0x08, s.extensions)
    + ((if s.certificateLate then cv else cert) + ((if s.certificateLate then cert else cv) + ServerFinished(c, p, s)))
  }

  /**
    * Sizes that fit their fields, an RSA leaf whose key the primitive takes, a scheme of the standard, and a
    * signature that verifies under that key over the transcript before it.
    */
  ghost predicate WellMade(c: Tls, p: Party, s: ServerSide)
    requires Lawful(c)
  {
    && |s.extensions| < 0x100_0000 && |s.sig| < 0x1_0000 && |EntriesBytes(s.entries)| + 4 < 0x100_0000
    && s.entries != [] && (forall e | e in s.entries :: |e.cert| < 0x100_0000 && |e.exts| < 0x1_0000)
    && RsaLeaf(s.leaf) && s.entries[0].cert == Der.CertBytes(s.leaf.x)
    && TlsReference.RsaScheme(s.scheme)
    && var n, e := Der.StripSign(s.leaf.n), Der.StripSign(s.leaf.e);
       && c.rsaKeyValid(n, e)
       && c.rsaVerify(s.scheme, n, e, s.sig, TlsReference.SignedContent(c.hash(HashFor(p), BeforeVerify(p, s))))
  }

  /** A server that follows the standard also sends its Certificate first. */
  ghost predicate Honest(c: Tls, p: Party, s: ServerSide)
    requires Lawful(c)
  {
    WellMade(c, p, s) && !s.certificateLate
  }

  lemma MessageShape(kind: byte, body: bytes, rest: bytes)
    requires |body| < 0x100_0000
    ensures var m := Message(kind, body);
            && IsMessage(m) && m[0] == kind && m[4..] == body
            && HasMessage(m + rest) && MessageLen(m + rest) == |m| && (m + rest)[..|m|] == m
            && (m + rest)[|m|..] == rest
  {
    hide PutU24, U24;
    var l := PutU24(|body|);
    var m := [kind] + l + body;
    assert m[1] == l[0] && m[2] == l[1] && m[3] == l[2];
    assert (m + rest)[1] == l[0] && (m + rest)[2] == l[1] && (m + rest)[3] == l[2];
  }

  /** A message that is not Finished, at the front of a stream. */
  lemma StreamStep(c: Tls, h: HashAlg, shts: Option<bytes>, kind: byte, body: bytes, rest: bytes, s: Scan)
    requires Lawful(c) && |body| < 0x100_0000
    ensures var o := Absorb(c, h, shts, s, Message(kind, body));
            Streamed(c, h, shts, Message(kind, body) + rest, s) ==
            if o.verdict.Err? then StreamEnd(o.scan, Some(o.verdict.error))
            else if o.verdict.value then StreamEnd(o.scan, None)
            else Streamed(c, h, shts, rest, o.scan)
  {
    hide Absorb, Message, HasMessage, MessageLen;
    MessageShape(kind, body, rest);
  }

  lemma AbsorbCertificate(c: Tls, h: HashAlg, shts: Option<bytes>, s: Scan, entries: seq<CertEntry>)
    requires Lawful(c) && |EntriesBytes(entries)| + 4 < 0x100_0000
    requires forall e | e in entries :: |e.cert| < 0x100_0000 && |e.exts| < 0x1_0000
    ensures Absorb(c, h, shts, s, CertificateMessage(entries))
         == Outcome(s.(transcript := s.transcript + CertificateMessage(entries), chain := Certs(entries)), Ok(false))
  {
    hide EntriesBytes, CertEntries, PutU24, Message, U24;
    var list := EntriesBytes(entries);
    var l3 := PutU24(|list|);
    var body := [0x00] + (l3 + list);
    MessageShape(HS_CERTIFICATE, body, []);
    assert CertChain(body) == Ok(Certs(entries)) by {
      ClientHello.CutHeadU8(0x00, l3 + list);
      assert [] + (l3 + list) == l3 + list;
      ClientHello.CutHead([], l3 + list);
      ClientHello.CutHead(l3, list);
      assert list + [] == list;
      ClientHello.CutHead(list, []);
      CertEntriesInverts(entries);
    }
  }

  lemma CertVerifyRead(s2: bytes, l2: bytes, sig: bytes, before: bytes)
    requires |s2| == 2 && |l2| == 2 && U16(l2[0], l2[1]) == |sig|
    ensures ReadCertVerify(s2 + l2 + sig, before) == Ok(CertVerify(U16(s2[0], s2[1]), sig, ToBeSigned(before)))
  {
    hide U16, ToBeSigned;
    var body := s2 + l2 + sig;
    assert body[0] == s2[0] && body[1] == s2[1] && body[2] == l2[0] && body[3] == l2[1];
    assert body[4..4 + |sig|] == sig;
  }

  lemma AbsorbCertVerify(c: Tls, h: HashAlg, shts: Option<bytes>, s: Scan, scheme: u16, sig: bytes)
    requires Lawful(c) && |sig| < 0x1_0000
    ensures Absorb(c, h, shts, s, CertVerifyMessage(scheme, sig))
         == Outcome(s.(transcript := s.transcript + CertVerifyMessage(scheme, sig),
                       cv := Some(CertVerify(scheme, sig, ToBeSigned(c.hash(h, s.transcript))))), Ok(false))
  {
    hide PutU16, Message, U16, ToBeSigned, ReadCertVerify;
    CertVerifyRead(PutU16(scheme), PutU16(|sig|), sig, c.hash(h, s.transcript));
    MessageShape(HS_CERTIFICATE_VERIFY, PutU16(scheme) + PutU16(|sig|) + sig, []);
  }

  lemma AbsorbFinished(c: Tls, h: HashAlg, shts: bytes, s: Scan)
    requires Lawful(c)
    ensures var m := Message(HS_FINISHED, c.hmac(h, FinishedKey(c, h, shts), c.hash(h, s.transcript)));
            Absorb(c, h, Some(shts), s, m) == Outcome(s.(transcript := s.transcript + m), Ok(true))
  {
    hide FinishedKey, Message;
    MessageShape(HS_FINISHED, c.hmac(h, FinishedKey(c, h, shts), c.hash(h, s.transcript)), []);
  }

  lemma AbsorbExtensions(c: Tls, h: HashAlg, shts: Option<bytes>, s: Scan, extensions: bytes)
    requires Lawful(c) && |extensions| < 0x100_0000
    ensures Absorb(c, h, shts, s, Message(0x08, extensions))
         == Outcome(s.(transcript := s.transcript + Message(0x08, extensions)), Ok(false))
  {
    hide Message;
    MessageShape(0x08, extensions, []);
  }

  /** The flight as a message stream, whatever follows Finished. */
  lemma WellMadeStream(c: Tls, p: Party, s: ServerSide, more: bytes)
    requires Lawful(c) && WellMade(c, p, s)
    ensures var h := SuiteHash(p.suite);
            var cv := CertVerify(s.scheme, s.sig, ToBeSigned(c.hash(h, BeforeVerify(p, s))));
            Streamed(c, h, Some(ServerTraffic(c, p)), FlightBytes(c, p, s) + more, Scan(p.transcript, [], None))
            == StreamEnd(Scan(BeforeFinished(p, s) + ServerFinished(c, p, s), Certs(s.entries), Some(cv)), None)
  {
    hide Message, Absorb, Streamed, ServerTraffic, FinishedKey, EntriesBytes, Certs, ToBeSigned, CertificateMessage,
         CertVerifyMessage;
    var h, shts := SuiteHash(p.suite), Some(ServerTraffic(c, p));
    var ee, cert, cvm, fin := Message(0x08, s.extensions), CertificateMessage(s.entries),
        CertVerifyMessage(s.scheme, s.sig), ServerFinished(c, p, s);
    var s0 := Scan(p.transcript, [], None);
    var s1 := s0.(transcript := p.transcript + ee);
    AbsorbExtensions(c, h, shts, s0, s.extensions);
    assert p.transcript + ee + [] == p.transcript + ee;
    if s.certificateLate {
      NestFour(ee, cvm, cert, fin, more);
      StreamStep(c, h, shts, 0x08, s.extensions, cvm + (cert + (fin + more)), s0);
      var s2 := CvStep(c, h, shts, s1, s, cert + (fin + more));
      var s3 := CertStep(c, h, shts, s2, s, fin + more);
      FinishedStep(c, p, s, s3, more);
    } else {
      NestFour(ee, cert, cvm, fin, more);
      StreamStep(c, h, shts, 0x08, s.extensions, cert + (cvm + (fin + more)), s0);
      var s2 := CertStep(c, h, shts, s1, s, cvm + (fin + more));
      var s3 := CvStep(c, h, shts, s2, s, fin + more);
      assert s3.transcript + [] == s3.transcript;
      FinishedStep(c, p, s, s3, more);
    }
  }

  lemma CertStep(c: Tls, h: HashAlg, shts: Option<bytes>, before: Scan, s: ServerSide, rest: bytes)
    returns (after: Scan)
    requires Lawful(c) && |EntriesBytes(s.entries)| + 4 < 0x100_0000
    requires forall e | e in s.entries :: |e.cert| < 0x100_0000 && |e.exts| < 0x1_0000
    ensures after == before.(transcript := before.transcript + CertificateMessage(s.entries), chain := Certs(s.entries))
    ensures Streamed(c, h, shts, CertificateMessage(s.entries) + rest, before) == Streamed(c, h, shts, rest, after)
  {
    hide Message, Absorb, Streamed, EntriesBytes, Certs, PutU24;
    after := before.(transcript := before.transcript + CertificateMessage(s.entries), chain := Certs(s.entries));
    AbsorbCertificate(c, h, shts, before, s.entries);
    StreamStep(c, h, shts, HS_CERTIFICATE, [0x00] + (PutU24(|EntriesBytes(s.entries)|) + EntriesBytes(s.entries)), rest,
               before);
  }

  lemma CvStep(c: Tls, h: HashAlg, shts: Option<bytes>, before: Scan, s: ServerSide, rest: bytes) returns (after: Scan)
    requires Lawful(c) && |s.sig| < 0x1_0000
    ensures after == before.(transcript := before.transcript + CertVerifyMessage(s.scheme, s.sig),
                             cv := Some(CertVerify(s.scheme, s.sig, ToBeSigned(c.hash(h, before.transcript)))))
    ensures Streamed(c, h, shts, CertVerifyMessage(s.scheme, s.sig) + rest, before) == Streamed(c, h, shts, rest, after)
  {
    hide Message, Absorb, Streamed, ToBeSigned, PutU16;
    after := before.(transcript := before.transcript + CertVerifyMessage(s.scheme, s.sig),
                     cv := Some(CertVerify(s.scheme, s.sig, ToBeSigned(c.hash(h, before.transcript)))));
    AbsorbCertVerify(c, h, shts, before, s.scheme, s.sig);
    StreamStep(c, h, shts, HS_CERTIFICATE_VERIFY, PutU16(s.scheme) + PutU16(|s.sig|) + s.sig, rest, before);
  }

  lemma FinishedStep(c: Tls, p: Party, s: ServerSide, before: Scan, more: bytes)
    requires Lawful(c) && before.transcript == BeforeFinished(p, s)
    ensures Streamed(c, SuiteHash(p.suite), Some(ServerTraffic(c, p)), ServerFinished(c, p, s) + more, before)
         == StreamEnd(before.(transcript := before.transcript + ServerFinished(c, p, s)), None)
  {
    hide Message, Absorb, Streamed, ServerTraffic, FinishedKey, BeforeFinished, TlsReference.VerifyData;
    var h := SuiteHash(p.suite);
    AbsorbFinished(c, h, ServerTraffic(c, p), before);
    TlsReference.VerifyDataAgrees(c, h, ServerTraffic(c, p), before.transcript);
    StreamStep(c, h, Some(ServerTraffic(c, p)), 0x14,
               TlsReference.VerifyData(c, h, ServerTraffic(c, p), before.transcript), more, before);
  }

  lemma NestFour(a: bytes, b: bytes, c: bytes, d: bytes, e: bytes)
    ensures a + (b + (c + d)) + e == a + (b + (c + (d + e)))
  {
  }

  // ---- the handshake between the two ----

  /** The client state both sides' computations meet in. */
  ghost predicate Agrees(c: Tls, cl: Client, p: Party)
    requires Lawful(c)
  {
    && Typed(cl) && cl.suite == Some(p.suite) && cl.transcript == Some(p.transcript)
    && cl.shts == Some(ServerTraffic(c, p)) && cl.chts == Some(ClientTraffic(c, p))
    && cl.master == Some(MasterSecret(c, p))
    && cl.hsRead == Some(TlsReference.TrafficChannel(c, p.suite, ServerTraffic(c, p)))
    && cl.hsWrite == Some(TlsReference.TrafficChannel(c, p.suite, ClientTraffic(c, p)))
  }

  /** Feeding the hello, the ServerHello and the shared secret puts the client in agreement with the server. */
  lemma ClientAgrees(c: Tls, record: bytes, suite: Suite, random: bytes, sid: bytes, share: bytes, shared: bytes)
    requires Lawful(c) && |record| >= 5 && |random| == 32 && |sid| <= 32 && |share| == 32
    ensures var m := ServerHelloMessage(suite, random, sid, share);
            var calls := [SetHello(record), Hello(ServerHelloRecord(m)), Derive(shared)];
            Agrees(c, After(c, calls), Party(suite, shared, record[5..] + m))
  {
    hide DeriveSecret, ChannelFrom, ServerHelloMessage, ServerHelloRecord, HelloParsed, Extract, SuiteHash, HashLen,
         After, HandshakeSecret, MasterSecret, ServerTraffic, ClientTraffic, TlsReference.TrafficChannel,
         WithFlight, WithClientFinished, WithSealed, WithOpened;
    var m := ServerHelloMessage(suite, random, sid, share);
    var p := Party(suite, shared, record[5..] + m);
    ScheduleAgrees(c, p);
    TlsReference.ChannelAgrees(c, suite, ServerTraffic(c, p));
    TlsReference.ChannelAgrees(c, suite, ClientTraffic(c, p));
    ServerHelloRead(suite, random, sid, share);
    AfterThree(c, SetHello(record), Hello(ServerHelloRecord(m)), Derive(shared));
  }

  lemma AfterThree(c: Tls, first: Call, second: Call, third: Call)
    requires Lawful(c)
    ensures After(c, [first, second, third]) == Did(c, Did(c, Did(c, NEW, first), second), third)
  {
    hide Did;
    var calls := [first, second, third];
    assert calls[..2] == [first, second] && [first, second][..1] == [first] && [first][..0] == [];
    assert After(c, [first, second]) == Did(c, After(c, [first]), second);
    assert After(c, [first]) == Did(c, After(c, []), first);
  }

  /** The application secrets a server derives once its flight is sent. */
  function AppSecrets(c: Tls, p: Party, s: ServerSide): Secrets
    requires Lawful(c)
  {
    var h, final := HashFor(p), BeforeFinished(p, s) + ServerFinished(c, p, s);
    Secrets(Certs(s.entries), TlsReference.Derive(c, h, MasterSecret(c, p), TlsReference.C_AP_TRAFFIC, final),
            TlsReference.Derive(c, h, MasterSecret(c, p), TlsReference.S_AP_TRAFFIC, final))
  }

  /**
    * What accepting the flight leaves the client with: the server's certificates, transcript and application channels.
    */
  ghost predicate Accepts(c: Tls, p: Party, s: ServerSide, before: Client, after: Client,
                          r: Result<Secrets, Tls13Error>)
    requires Lawful(c)
  {
    var secrets := AppSecrets(c, p, s);
    && r == Ok(secrets)
    && after.transcript == Some(BeforeFinished(p, s) + ServerFinished(c, p, s))
    && after.appWrite == Some(TlsReference.TrafficChannel(c, p.suite, secrets.clientApp))
    && after.appRead == Some(TlsReference.TrafficChannel(c, p.suite, secrets.serverApp))
    && after.suite == before.suite && after.chts == before.chts && after.hsWrite == before.hsWrite
  }

  lemma WellMadeFlightIsAccepted(c: Tls, cl: Client, p: Party, s: ServerSide, items: seq<Item>, more: bytes)
    requires Lawful(c) && Agrees(c, cl, p) && WellMade(c, p, s) && Fitting(items)
    requires Payload(items) == FlightBytes(c, p, s) + more
    ensures var (after, r) := WithFlight(c, cl, ItemsBytes(c, cl.hsRead.value, items)); Accepts(c, p, s, cl, after, r)
  {
    hide Flight, Streamed, ServerTraffic, ClientTraffic, MasterSecret, ChannelFrom, DeriveSecret, ItemsBytes, Payload,
         VerifySignature, ToBeSigned, FlightBytes, BeforeFinished, BeforeVerify, ServerFinished, Certs, EntriesBytes,
         RsaLeaf, TlsReference.RsaScheme, Der.CertBytes, Der.StripSign, TlsReference.Derive,
         TlsReference.TrafficChannel,
         TlsReference.SignedContent;
    var h := SuiteHash(p.suite);
    WellMadeStream(c, p, s, more);
    FlightIsStream(c, h, cl.shts, cl.hsRead.value, items, [], Scan(p.transcript, [], None));
    assert [] + Payload(items) == Payload(items);
    FirstCert(s.entries);
    SignedContentAgrees(c.hash(h, BeforeVerify(p, s)));
    LeafVerdict(c, s.leaf, CertVerify(s.scheme, s.sig, ToBeSigned(c.hash(h, BeforeVerify(p, s)))));
    AppSecretsAgree(c, p, s);
  }

  lemma AppSecretsAgree(c: Tls, p: Party, s: ServerSide)
    requires Lawful(c)
    ensures var h, secrets := SuiteHash(p.suite), AppSecrets(c, p, s);
            var th := c.hash(h, BeforeFinished(p, s) + ServerFinished(c, p, s));
            && DeriveSecret(c, h, MasterSecret(c, p), "c ap traffic", th) == secrets.clientApp
            && DeriveSecret(c, h, MasterSecret(c, p), "s ap traffic", th) == secrets.serverApp
            && ChannelFrom(c, p.suite, secrets.clientApp) == TlsReference.TrafficChannel(c, p.suite, secrets.clientApp)
            && ChannelFrom(c, p.suite, secrets.serverApp) == TlsReference.TrafficChannel(c, p.suite, secrets.serverApp)
  {
    hide DeriveSecret, TlsReference.Derive, MasterSecret, BeforeFinished, ServerFinished, ChannelFrom,
         TlsReference.TrafficChannel, Certs;
    TlsReference.TrafficLabelsAgree();
    hide Primitives.Ascii;
    var h, final, secrets := HashFor(p), BeforeFinished(p, s) + ServerFinished(c, p, s), AppSecrets(c, p, s);
    TlsReference.DeriveAgrees(c, h, MasterSecret(c, p), "c ap traffic", TlsReference.C_AP_TRAFFIC, final);
    TlsReference.DeriveAgrees(c, h, MasterSecret(c, p), "s ap traffic", TlsReference.S_AP_TRAFFIC, final);
    TlsReference.ChannelAgrees(c, p.suite, secrets.clientApp);
    TlsReference.ChannelAgrees(c, p.suite, secrets.serverApp);
  }

  /**
    * Completeness: in whatever records the honest flight arrives, with anything after it, the client accepts
    * it, reports exactly the server's certificates, and its application channels are the ones the server
    * derives from the same transcript, client to server for writing and server to client for reading. The
    * signature is over the transcript through the Certificate.
    */
  lemma HonestFlightIsAccepted(c: Tls, cl: Client, p: Party, s: ServerSide, items: seq<Item>, more: bytes)
    requires Lawful(c) && Agrees(c, cl, p) && Honest(c, p, s) && Fitting(items)
    requires Payload(items) == FlightBytes(c, p, s) + more
    ensures var (after, r) := WithFlight(c, cl, ItemsBytes(c, cl.hsRead.value, items)); Accepts(c, p, s, cl, after, r)
    ensures BeforeVerify(p, s) == p.transcript + Message(0x08, s.extensions) + CertificateMessage(s.entries)
  {
    hide WithFlight, Accepts, Agrees, WellMade, FlightBytes, Payload, ItemsBytes, Fitting, CertificateMessage, Message;
    WellMadeFlightIsAccepted(c, cl, p, s, items, more);
  }

  /**
    * The client also accepts a flight whose Certificate comes only after CertificateVerify, which section 4.4.3 of
    * RFC 8446 forbids: its signature is over a transcript that says nothing about the certificates reported.
    */
  lemma LateCertificateIsAccepted(c: Tls, cl: Client, p: Party, s: ServerSide, items: seq<Item>, more: bytes)
    requires Lawful(c) && Agrees(c, cl, p) && WellMade(c, p, s) && s.certificateLate && Fitting(items)
    requires Payload(items) == FlightBytes(c, p, s) + more
    ensures var (after, r) := WithFlight(c, cl, ItemsBytes(c, cl.hsRead.value, items)); Accepts(c, p, s, cl, after, r)
    ensures forall other :: BeforeVerify(p, s.(entries := other)) == BeforeVerify(p, s)
  {
    hide WithFlight, Accepts, Agrees, WellMade, FlightBytes, Payload, ItemsBytes, Fitting, CertificateMessage, Message;
    WellMadeFlightIsAccepted(c, cl, p, s, items, more);
  }

  lemma FirstCert(entries: seq<CertEntry>)
    requires entries != []
    ensures Certs(entries) != [] && Certs(entries)[0] == entries[0].cert
  {
  }

  /**
    * The client's own Finished opens at the server to a message whose MAC the server can check over the same
    * transcript.
    */
  lemma ClientFinishedIsAccepted(c: Tls, cl: Client, p: Party, transcript: bytes)
    requires Lawful(c) && Typed(cl) && cl.suite == Some(p.suite) && cl.transcript == Some(transcript)
    requires cl.chts == Some(ClientTraffic(c, p))
             && cl.hsWrite == Some(TlsReference.TrafficChannel(c, p.suite, ClientTraffic(c, p)))
    ensures var (after, r) := WithClientFinished(c, cl);
            var expected := Message(0x14, TlsReference.VerifyData(c, HashFor(p), ClientTraffic(c, p), transcript));
            && r.Ok? && |r.value| >= 5 && |r.value| == 5 + U16(r.value[3], r.value[4]) as int
            && Opened(c, TlsReference.TrafficChannel(c, p.suite, ClientTraffic(c, p)), r.value) == Ok((0x16, expected))
            && after.transcript == Some(transcript + expected)
  {
    hide ClientTraffic, ChannelFrom, FinishedKey, Sealed, Opened, U16, TlsReference.TrafficChannel,
         TlsReference.VerifyData;
    var h := SuiteHash(p.suite);
    var verify := c.hmac(h, FinishedKey(c, h, ClientTraffic(c, p)), c.hash(h, transcript));
    TlsReference.VerifyDataAgrees(c, h, ClientTraffic(c, p), transcript);
    var m := FinishedMessage(c, h, ClientTraffic(c, p), transcript);
    assert PutU24(|verify|) == [0, 0, |verify|];
    assert m == Message(0x14, verify);
    OpenInvertsSeal(c, cl.hsWrite.value, CONTENT_HANDSHAKE, m, 0);
  }

  // ---- the whole session ----

  /** What the client seals for a list of payloads, one call after the other. */
  function SealedBy(c: Tls, cl: Client, payloads: seq<bytes>): Result<seq<bytes>, Tls13Error>
    requires Typed(cl)
    decreases |payloads|
  {
    if payloads == [] then Ok([])
    else
      var (next, r) := WithSealed(c, cl, payloads[0]);
      var first :- r;
      var rest :- SealedBy(c, next, payloads[1..]);
      Ok([first] + rest)
  }

  /** What the client opens from a list of records, one call after the other. */
  function OpenedBy(c: Tls, cl: Client, wires: seq<bytes>): Result<seq<bytes>, Tls13Error>
    requires Typed(cl)
    decreases |wires|
  {
    if wires == [] then Ok([])
    else
      var (next, r) := WithOpened(c, cl, wires[0]);
      var first :- r;
      if first.0 != CONTENT_APPDATA then Err(UnexpectedRecord)
      else
        var rest :- OpenedBy(c, next, wires[1..]);
        Ok([first.1] + rest)
  }

  lemma {:induction false} SealedByIsSealAll(c: Tls, cl: Client, payloads: seq<bytes>)
    requires Typed(cl) && cl.appWrite.Some?
    ensures SealedBy(c, cl, payloads) == Ok(SealAll(c, cl.appWrite.value, payloads))
    decreases |payloads|
  {
    hide AppSealed;
    if payloads != [] { SealedByIsSealAll(c, WithSealed(c, cl, payloads[0]).0, payloads[1..]); }
  }

  lemma {:induction false} OpenedByInverts(c: Tls, cl: Client, payloads: seq<bytes>)
    requires Lawful(c) && Typed(cl) && cl.appRead.Some?
    requires forall p | p in payloads :: |p| <= MAX_APP_PAYLOAD
    ensures OpenedBy(c, cl, SealAll(c, cl.appRead.value, payloads)) == Ok(payloads)
    decreases |payloads|
  {
    hide AppSealed, Opened, U16;
    if payloads != [] {
      var ch, p := cl.appRead.value, payloads[0];
      assert |p| <= MAX_APP_PAYLOAD;
      FirstOpens(c, ch, p);
      var wires := SealAll(c, ch, payloads);
      assert wires[0] == AppSealed(c, ch, p) && wires[1..] == SealAll(c, Advanced(ch), payloads[1..]);
      OpenedByInverts(c, WithOpened(c, cl, wires[0]).0, payloads[1..]);
      assert [p] + payloads[1..] == payloads;
    }
  }

  lemma FirstOpens(c: Tls, ch: Channel, p: bytes)
    requires Lawful(c) && Usable(ch) && |p| <= MAX_APP_PAYLOAD
    ensures var wire := AppSealed(c, ch, p);
            && |wire| >= 5 && wire[0] == CONTENT_APPDATA && |wire| == 5 + U16(wire[3], wire[4]) as int
            && Opened(c, ch, wire) == Ok((CONTENT_APPDATA, p))
  {
    hide Sealed, Opened, U16;
    OpenInvertsSeal(c, ch, CONTENT_APPDATA, p, 0);
  }

  /** The client's calls up to its own Finished. */
  function HandshakeCalls(c: Tls, record: bytes, hello: bytes, shared: bytes, flight: bytes): seq<Call> {
    [SetHello(record), Hello(ServerHelloRecord(hello)), Derive(shared)] + [TakeFlight(flight)] + [Finish]
  }

  /** Client and server agree: the server's view of the client's Finished, and both directions of application data. */
  ghost predicate Established(c: Tls, p: Party, s: ServerSide, before: Client, cl: Client)
    requires Lawful(c) && Typed(before)
  {
    var secrets := AppSecrets(c, p, s);
    var final := BeforeFinished(p, s) + ServerFinished(c, p, s);
    var finished := WithClientFinished(c, before).1;
    && cl.appWrite == Some(TlsReference.TrafficChannel(c, p.suite, secrets.clientApp))
    && cl.appRead == Some(TlsReference.TrafficChannel(c, p.suite, secrets.serverApp))
    && finished.Ok? && |finished.value| >= 5 && |finished.value| == 5 + U16(finished.value[3], finished.value[4]) as int
    && Opened(c, TlsReference.TrafficChannel(c, p.suite, ClientTraffic(c, p)), finished.value)
       == Ok((0x16, Message(0x14, TlsReference.VerifyData(c, HashFor(p), ClientTraffic(c, p), final))))
  }

  lemma CallsEstablish(c: Tls, record: bytes, suite: Suite, random: bytes, sid: bytes, share: bytes, shared: bytes,
                       s: ServerSide, items: seq<Item>, more: bytes)
    requires Lawful(c) && |record| >= 5 && |random| == 32 && |sid| <= 32 && |share| == 32 && Fitting(items)
    requires var p := Party(suite, shared, record[5..] + ServerHelloMessage(suite, random, sid, share));
             Honest(c, p, s) && Payload(items) == FlightBytes(c, p, s) + more
    ensures var m := ServerHelloMessage(suite, random, sid, share);
            var p := Party(suite, shared, record[5..] + m);
            var calls := HandshakeCalls(c, record, m, shared,
                                        ItemsBytes(c, TlsReference.TrafficChannel(c, suite, ServerTraffic(c, p)),
                                                   items));
            Established(c, p, s, After(c, calls[..4]), After(c, calls))
  {
    hide ServerHelloMessage, ServerHelloRecord, After, FlightBytes, Payload, ItemsBytes, Fitting, WithFlight,
         WithClientFinished, Honest, ChannelFrom, TlsReference.TrafficChannel, TlsReference.VerifyData,
         ServerTraffic, ClientTraffic, MasterSecret, AppSecrets, BeforeFinished, ServerFinished, Message, Opened, U16,
         FinishedKey;
    var m := ServerHelloMessage(suite, random, sid, share);
    var p := Party(suite, shared, record[5..] + m);
    var flight := ItemsBytes(c, TlsReference.TrafficChannel(c, suite, ServerTraffic(c, p)), items);
    var three := [SetHello(record), Hello(ServerHelloRecord(m)), Derive(shared)];
    var four := three + [TakeFlight(flight)];
    ClientAgrees(c, record, suite, random, sid, share, shared);
    AfterSnoc(c, three, TakeFlight(flight));
    AfterSnoc(c, four, Finish);
    assert HandshakeCalls(c, record, m, shared, flight)[..4] == four;
    HonestFlightIsAccepted(c, After(c, three), p, s, items, more);
    ClientFinishedIsAccepted(c, After(c, four), p, BeforeFinished(p, s) + ServerFinished(c, p, s));
    FinishKeepsAppKeys(c, After(c, four));
  }

  lemma FinishKeepsAppKeys(c: Tls, cl: Client)
    requires Lawful(c) && Typed(cl)
    ensures var after := WithClientFinished(c, cl).0; after.appWrite == cl.appWrite && after.appRead == cl.appRead
  {
  }

  /**
    * A whole TLS 1.3 session with a server that follows the standard: after hello, ServerHello, shared secret, the
    * flight in any records, and the client's Finished, the server opens the client's Finished to the message it
    * expects; whatever payloads the client then seals, the server opens, in order; and whatever the server seals, the
    * client opens, in order.
    */
  lemma TlsSessionCarries(c: Tls, record: bytes, suite: Suite, random: bytes, sid: bytes, share: bytes, shared: bytes,
                          s: ServerSide, items: seq<Item>, more: bytes, outbound: seq<bytes>, inbound: seq<bytes>)
    requires Lawful(c) && |record| >= 5 && |random| == 32 && |sid| <= 32 && |share| == 32 && Fitting(items)
    requires var p := Party(suite, shared, record[5..] + ServerHelloMessage(suite, random, sid, share));
             Honest(c, p, s) && Payload(items) == FlightBytes(c, p, s) + more
    requires forall p | p in outbound || p in inbound :: |p| <= MAX_APP_PAYLOAD
    ensures var m := ServerHelloMessage(suite, random, sid, share);
            var p := Party(suite, shared, record[5..] + m);
            var calls := HandshakeCalls(c, record, m, shared,
                                        ItemsBytes(c, TlsReference.TrafficChannel(c, suite, ServerTraffic(c, p)),
                                                   items));
            var cl, secrets := After(c, calls), AppSecrets(c, p, s);
            && Established(c, p, s, After(c, calls[..4]), cl)
            && SealedBy(c, cl, outbound).Ok?
            && OpenAll(c, TlsReference.TrafficChannel(c, suite, secrets.clientApp), SealedBy(c, cl, outbound).value)
               == Ok(outbound)
            && OpenedBy(c, cl, SealAll(c, TlsReference.TrafficChannel(c, suite, secrets.serverApp), inbound))
               == Ok(inbound)
  {
    hide ServerHelloMessage, ServerHelloRecord, After, FlightBytes, Payload, ItemsBytes, Fitting, Honest,
         TlsReference.TrafficChannel, TlsReference.VerifyData,
         ServerTraffic, AppSecrets,
         SealedBy, OpenedBy, SealAll, OpenAll, WithClientFinished, BeforeFinished, ServerFinished, Opened,
         ClientTraffic, Message, U16;
    CallsEstablish(c, record, suite, random, sid, share, shared, s, items, more);
    var m := ServerHelloMessage(suite, random, sid, share);
    var p := Party(suite, shared, record[5..] + m);
    var cl := After(c, HandshakeCalls(c, record, m, shared,
                                      ItemsBytes(c, TlsReference.TrafficChannel(c, suite, ServerTraffic(c, p)),
                                                 items)));
    SealedByIsSealAll(c, cl, outbound);
    StreamRoundTrip(c, cl.appWrite.value, outbound);
    OpenedByInverts(c, cl, inbound);
  }
}
