/** The encrypted server flight: records reassembled into messages, a running transcript, and its verification. */
module ServerFlight {
  import opened Bytes
  import opened RecordLayer
  import opened KeySchedule
  import ClientHello
  import Der
  import HelloReader
  import Primitives
  import TlsReference

  const HS_CERTIFICATE: byte := 0x0b
  const HS_CERTIFICATE_VERIFY: byte := 0x0f
  const HS_FINISHED: byte := 0x14
  const CHANGE_CIPHER_SPEC: byte := 0x14

  // ---- the Certificate message ----

  function Lift<T>(r: Result<T, ClientHello.TlsError>): Result<T, Tls13Error> {
    match r
    case Ok(v) => Ok(v)
    case Err(_) => Err(Truncated)
  }

  function CertEntries(w: bytes): Result<seq<bytes>, Tls13Error>
    decreases |w|
  {
    if w == [] then Ok([])
    else
      var (certLen, r1) :- Lift(ClientHello.CutU24(w));
      var (cert, r2) :- Lift(ClientHello.Cut(r1, certLen));
      var (extLen, r3) :- Lift(ClientHello.CutU16(r2));
      var (_, r4) :- Lift(ClientHello.Cut(r3, extLen));
      var rest :- CertEntries(r4);
      Ok([cert] + rest)
  }

  function CertChain(body: bytes): Result<seq<bytes>, Tls13Error> {
    var (contextLen, r1) :- Lift(ClientHello.CutU8(body));
    var (_, r2) :- Lift(ClientHello.Cut(r1, contextLen));
    var (listLen, r3) :- Lift(ClientHello.CutU24(r2));
    var (list, _) :- Lift(ClientHello.Cut(r3, listLen));
    CertEntries(list)
  }

  function Chained(out: seq<bytes>, r: Result<seq<bytes>, Tls13Error>): Result<seq<bytes>, Tls13Error> {
    var rest :- r;
    Ok(out + rest)
  }

  method ParseCertEntries(list: bytes) returns (r: Result<seq<bytes>, Tls13Error>)
    ensures r == CertEntries(list)
  {
    hide ClientHello.Cut, ClientHello.CutU16, ClientHello.CutU24;
    var lr := new HelloReader.Reader(list);
    var out := [];
    if CertEntries(list).Ok? { assert [] + CertEntries(list).value == CertEntries(list).value; }
    while lr.pos < |lr.buf|
      invariant lr.Valid()
      invariant CertEntries(list) == Chained(out, CertEntries(lr.Rest()))
      decreases |lr.Rest()|
    {
      ghost var before := out;
      var certLen := lr.U24();
      if certLen.Err? { return Err(Truncated); }
      var cert := lr.Take(certLen.value);
      if cert.Err? { return Err(Truncated); }
      var extLen := lr.U16();
      if extLen.Err? { return Err(Truncated); }
      var exts := lr.Take(extLen.value);
      if exts.Err? { return Err(Truncated); }
      out := out + [cert.value];
      ghost var rest := CertEntries(lr.Rest());
      if rest.Ok? { assert before + ([cert.value] + rest.value) == out + rest.value; }
    }
    assert lr.Rest() == [] && out + [] == out;
    return Ok(out);
  }

  datatype CertEntry = CertEntry(cert: bytes, exts: bytes)

  function EntryBytes(e: CertEntry): bytes { PutU24(|e.cert|) + (e.cert + (PutU16(|e.exts|) + e.exts)) }

  function EntriesBytes(es: seq<CertEntry>): bytes {
    if es == [] then [] else EntryBytes(es[0]) + EntriesBytes(es[1..])
  }

  function Certs(es: seq<CertEntry>): seq<bytes> {
    if es == [] then [] else [es[0].cert] + Certs(es[1..])
  }

  lemma EntryAtFront(l3: bytes, cert: bytes, e2: bytes, exts: bytes, rest: bytes)
    requires |l3| == 3 && U24(l3[0], l3[1], l3[2]) == |cert| && |e2| == 2 && U16(e2[0], e2[1]) == |exts|
    ensures CertEntries(l3 + (cert + (e2 + exts)) + rest) == Chained([cert], CertEntries(rest))
  {
    hide U24, U16;
    var w := l3 + (cert + (e2 + exts)) + rest;
    assert w == l3 + (cert + (e2 + (exts + rest)));
    ClientHello.CutHead(l3, cert + (e2 + (exts + rest)));
    ClientHello.CutHead(cert, e2 + (exts + rest));
    ClientHello.CutHead(e2, exts + rest);
    ClientHello.CutHead(exts, rest);
  }

  /** The chain read from an encoded certificate list is the list's certificates, in order. */
  lemma {:induction false} CertEntriesInverts(es: seq<CertEntry>)
    requires forall e | e in es :: |e.cert| < 0x100_0000 && |e.exts| < 0x1_0000
    ensures CertEntries(EntriesBytes(es)) == Ok(Certs(es))
    decreases |es|
  {
    hide PutU16, PutU24;
    if es != [] {
      var e := es[0];
      EntryAtFront(PutU24(|e.cert|), e.cert, PutU16(|e.exts|), e.exts, EntriesBytes(es[1..]));
      CertEntriesInverts(es[1..]);
    }
  }

  // ---- messages and their effect ----

  function MessageLen(p: bytes): nat
    requires |p| >= 4
  {
    4 + U24(p[1], p[2], p[3])
  }

  /** A complete handshake message is at the front. */
  predicate HasMessage(p: bytes) { |p| >= 4 && |p| >= MessageLen(p) }

  datatype CertVerify = CertVerify(scheme: u16, sig: bytes, tbs: bytes)

  /** What the flight has established so far; the transcript is the bytes hashed. */
  datatype Scan = Scan(transcript: bytes, chain: seq<bytes>, cv: Option<CertVerify>)

  /** Sixty-four spaces, the context string, a zero byte, the transcript hash (section 4.4.3 of RFC 8446). */
  function ToBeSigned(transcriptHash: bytes): bytes {
    seq(64, _ => 0x20) + Primitives.Ascii("TLS 1.3, server CertificateVerify") + [0] + transcriptHash
  }

  function ReadCertVerify(body: bytes, hashBefore: bytes): Result<CertVerify, Tls13Error> {
    if |body| < 4 || |body| < 4 + U16(body[2], body[3]) as int then Err(BadHandshake)
    else Ok(CertVerify(U16(body[0], body[1]), body[4..4 + U16(body[2], body[3]) as int], ToBeSigned(hashBefore)))
  }

  datatype Outcome = Outcome(scan: Scan, verdict: Result<bool, Tls13Error>)

  /**
    * One message: it enters the transcript, and is judged over the transcript before it. The verdict says whether it
    * was Finished.
    */
  function Absorb(c: Tls, h: HashAlg, shts: Option<bytes>, s: Scan, msg: bytes): (o: Outcome)
    requires Lawful(c) && |msg| >= 4
    ensures o.scan.transcript == s.transcript + msg
  {
    var before := c.hash(h, s.transcript);
    var next := s.(transcript := s.transcript + msg);
    var body := msg[4..];
    if msg[0] == HS_CERTIFICATE then
      match CertChain(body)
      case Err(e) => Outcome(next, Err(e))
      case Ok(chain) => Outcome(next.(chain := chain), Ok(false))
    else if msg[0] == HS_CERTIFICATE_VERIFY then
      match ReadCertVerify(body, before)
      case Err(e) => Outcome(next, Err(e))
      case Ok(cv) => Outcome(next.(cv := Some(cv)), Ok(false))
    else if msg[0] == HS_FINISHED then
      if shts.None? then Outcome(next, Err(BadHandshake))
      else if body != c.hmac(h, FinishedKey(c, h, shts.value), before) then Outcome(next, Err(FinishedMismatch))
      else Outcome(next, Ok(true))
    else Outcome(next, Ok(false))
  }

  datatype StreamEnd = StreamEnd(scan: Scan, err: Option<Tls13Error>)

  /** The flight as a plain byte stream of messages, up to Finished. */
  function Streamed(c: Tls, h: HashAlg, shts: Option<bytes>, stream: bytes, s: Scan): StreamEnd
    requires Lawful(c)
    decreases |stream|
  {
    if !HasMessage(stream) then StreamEnd(s, Some(Truncated))
    else
      var n := MessageLen(stream);
      var o := Absorb(c, h, shts, s, stream[..n]);
      match o.verdict
      case Err(e) => StreamEnd(o.scan, Some(e))
      case Ok(true) => StreamEnd(o.scan, None)
      case Ok(false) => Streamed(c, h, shts, stream[n..], o.scan)
  }

  // ---- records ----

  predicate Keyed(ch: Option<Channel>) { ch.Some? ==> Usable(ch.value) }

  /** One protected handshake record: the sequence number moves on even when opening fails. */
  function HsOpened(c: Tls, ch: Option<Channel>, rec: bytes): (r: (Option<Channel>, Result<(byte, bytes), Tls13Error>))
    requires Keyed(ch)
    ensures Keyed(r.0)
  {
    if |rec| < 5 || rec[0] != CONTENT_APPDATA then (ch, Err(BadRecord))
    else if |rec| < 5 + U16(rec[3], rec[4]) as int then (ch, Err(Truncated))
    else if ch.None? then (ch, Err(BadRecord))
    else (Some(Advanced(ch.value)), Opened(c, ch.value, rec))
  }

  datatype FlightEnd = FlightEnd(ch: Option<Channel>, scan: Scan, err: Option<Tls13Error>)

  /** The flight loop: take a message if one is complete, otherwise the next record. */
  function Flight(c: Tls, h: HashAlg, shts: Option<bytes>, ch: Option<Channel>, rest: bytes, pending: bytes, s: Scan)
    : (e: FlightEnd)
    requires Lawful(c) && Keyed(ch)
    ensures Keyed(e.ch)
    decreases |rest|, |pending|
  {
    if HasMessage(pending) then
      var n := MessageLen(pending);
      var o := Absorb(c, h, shts, s, pending[..n]);
      match o.verdict
      case Err(e) => FlightEnd(ch, o.scan, Some(e))
      case Ok(true) => FlightEnd(ch, o.scan, None)
      case Ok(false) => Flight(c, h, shts, ch, rest, pending[n..], o.scan)
    else if |rest| < 5 || |rest| < 5 + U16(rest[3], rest[4]) as int then FlightEnd(ch, s, Some(Truncated))
    else
      var n := 5 + U16(rest[3], rest[4]) as int;
      if rest[0] == CHANGE_CIPHER_SPEC then Flight(c, h, shts, ch, rest[n..], pending, s)
      else
        var (ch1, plain) := HsOpened(c, ch, rest[..n]);
        match plain
        case Err(e) => FlightEnd(ch1, s, Some(e))
        case Ok((content, payload)) =>
          if content != CONTENT_HANDSHAKE then FlightEnd(ch1, s, Some(UnexpectedRecord))
          else Flight(c, h, shts, ch1, rest[n..], pending + payload, s)
  }

  // ---- any split into records is the same stream ----

  /** A record of the flight: a ChangeCipherSpec to be skipped, or a chunk of handshake bytes with padding. */
  datatype Item = Ccs(version: bytes, body: bytes) | Chunk(data: bytes, pad: nat)

  predicate Fits(it: Item) {
    match it
    case Ccs(version, body) => |version| == 2 && |body| < 0x1_0000
    case Chunk(data, pad) => |data| + 1 + pad + 16 < 0x1_0000
  }

  predicate Fitting(items: seq<Item>) { forall k | 0 <= k < |items| :: Fits(items[k]) }

  function ItemBytes(c: Tls, ch: Channel, it: Item): bytes
    requires Usable(ch)
  {
    match it
    case Ccs(version, body) => [0x14] + version + PutU16(|body|) + body
    case Chunk(data, pad) => Sealed(c, ch, CONTENT_HANDSHAKE, data, pad)
  }

  function ItemsBytes(c: Tls, ch: Channel, items: seq<Item>): bytes
    requires Usable(ch)
    decreases |items|
  {
    if items == [] then []
    else ItemBytes(c, ch, items[0]) + ItemsBytes(c, if items[0].Chunk? then Advanced(ch) else ch, items[1..])
  }

  /** The handshake bytes a record list carries. */
  function Payload(items: seq<Item>): bytes {
    if items == [] then [] else (if items[0].Chunk? then items[0].data else []) + Payload(items[1..])
  }

  /** A record at the front of the rest, with its declared length. */
  predicate RecordAt(rest: bytes, rec: bytes, tail: bytes) {
    && |rec| >= 5 && rest == rec + tail && |rec| == 5 + U16(rec[3], rec[4]) as int
  }

  lemma RecordSplit(rest: bytes, rec: bytes, tail: bytes)
    requires RecordAt(rest, rec, tail)
    ensures |rest| >= 5 && U16(rest[3], rest[4]) == U16(rec[3], rec[4]) && |rest| >= |rec| && rest[0] == rec[0]
    ensures rest[..|rec|] == rec && rest[|rec|..] == tail
  {
    hide U16;
    assert rest[3] == rec[3] && rest[4] == rec[4];
  }

  lemma CcsRecord(version: bytes, body: bytes, tail: bytes)
    requires |version| == 2 && |body| < 0x1_0000
    ensures var rec := [CHANGE_CIPHER_SPEC] + version + PutU16(|body|) + body;
            RecordAt(rec + tail, rec, tail) && rec[0] == CHANGE_CIPHER_SPEC
  {
    hide PutU16, U16;
    var len := PutU16(|body|);
    var rec := [CHANGE_CIPHER_SPEC] + version + len + body;
    assert rec[3] == len[0] && rec[4] == len[1];
  }

  lemma SkipCcs(c: Tls, h: HashAlg, shts: Option<bytes>, ch: Option<Channel>, version: bytes, body: bytes, tail: bytes,
                pending: bytes, s: Scan)
    requires Lawful(c) && Keyed(ch) && |version| == 2 && |body| < 0x1_0000 && !HasMessage(pending)
    ensures Flight(c, h, shts, ch, [CHANGE_CIPHER_SPEC] + version + PutU16(|body|) + body + tail, pending, s)
         == Flight(c, h, shts, ch, tail, pending, s)
  {
    hide PutU16, U16, HasMessage, Absorb, HsOpened;
    var rec := [CHANGE_CIPHER_SPEC] + version + PutU16(|body|) + body;
    CcsRecord(version, body, tail);
    RecordSplit(rec + tail, rec, tail);
  }

  lemma TakeChunk(c: Tls, h: HashAlg, shts: Option<bytes>, ch: Channel, data: bytes, pad: nat, tail: bytes,
                  pending: bytes, s: Scan)
    requires Lawful(c) && Usable(ch) && |data| + 1 + pad + 16 < 0x1_0000 && !HasMessage(pending)
    ensures Flight(c, h, shts, Some(ch), Sealed(c, ch, CONTENT_HANDSHAKE, data, pad) + tail, pending, s)
         == Flight(c, h, shts, Some(Advanced(ch)), tail, pending + data, s)
  {
    hide Sealed, U16, HasMessage, Absorb, Opened, Advanced;
    var rec := Sealed(c, ch, CONTENT_HANDSHAKE, data, pad);
    OpenInvertsSeal(c, ch, CONTENT_HANDSHAKE, data, pad);
    RecordSplit(rec + tail, rec, tail);
  }

  lemma MessageSurvivesMore(pending: bytes, more: bytes)
    requires HasMessage(pending)
    ensures HasMessage(pending + more) && MessageLen(pending + more) == MessageLen(pending)
    ensures (pending + more)[..MessageLen(pending)] == pending[..MessageLen(pending)]
    ensures (pending + more)[MessageLen(pending)..] == pending[MessageLen(pending)..] + more
  {
    hide U24;
  }

  /** The flight loop over any well-formed record list computes what the message stream it carries means. */
  lemma {:induction false} FlightIsStream(c: Tls, h: HashAlg, shts: Option<bytes>, ch: Channel, items: seq<Item>,
                                          pending: bytes, s: Scan)
    requires Lawful(c) && Usable(ch) && Fitting(items)
    ensures var e := Flight(c, h, shts, Some(ch), ItemsBytes(c, ch, items), pending, s);
            StreamEnd(e.scan, e.err) == Streamed(c, h, shts, pending + Payload(items), s)
    decreases |items|, |pending|
  {
    hide HasMessage, Absorb, U16, Sealed, PutU16, HsOpened, MessageLen;
    if HasMessage(pending) {
      MessageLenPositive(pending);
      MessageSurvivesMore(pending, Payload(items));
      var o := Absorb(c, h, shts, s, pending[..MessageLen(pending)]);
      if o.verdict == Ok(false) { FlightIsStream(c, h, shts, ch, items, pending[MessageLen(pending)..], o.scan); }
    } else if items == [] {
      assert pending + Payload(items) == pending;
    } else {
      var rest := items[1..];
      match items[0]
      case Ccs(version, body) =>
        SkipCcs(c, h, shts, Some(ch), version, body, ItemsBytes(c, ch, rest), pending, s);
        FlightIsStream(c, h, shts, ch, rest, pending, s);
        assert [] + Payload(rest) == Payload(rest);
      case Chunk(data, pad) =>
        TakeChunk(c, h, shts, ch, data, pad, ItemsBytes(c, Advanced(ch), rest), pending, s);
        FlightIsStream(c, h, shts, Advanced(ch), rest, pending + data, s);
        assert pending + (data + Payload(rest)) == pending + data + Payload(rest);
    }
  }

  lemma MessageLenPositive(p: bytes)
    requires HasMessage(p)
    ensures 4 <= MessageLen(p) <= |p|
  {
  }

  // ---- conclusion ----

  predicate KnownScheme(scheme: u16) {
    scheme == 0x0804 || scheme == 0x0805 || scheme == 0x0806 || scheme == 0x0401 || scheme == 0x0501 || scheme == 0x0601
  }

  /** The signature check over the leaf's RSA key; signature decoding is part of the opaque verifier. */
  function VerifySignature(c: Tls, cv: CertVerify, leaf: bytes): Result<(), Tls13Error> {
    match Der.CertSpki(leaf)
    case None => Err(BadScheme)
    case Some(spki) =>
      match Der.RsaSpki(spki)
      case None => Err(BadScheme)
      case Some(key) =>
        if !c.rsaKeyValid(key.n, key.e) || !KnownScheme(cv.scheme) then Err(BadScheme)
        else if c.rsaVerify(cv.scheme, key.n, key.e, cv.sig, cv.tbs) then Ok(())
        else Err(CertVerifyRejected)
  }

  datatype Secrets = Secrets(chain: seq<bytes>, clientApp: bytes, serverApp: bytes)

  function Concluded(c: Tls, h: HashAlg, master: Option<bytes>, s: Scan): Result<Secrets, Tls13Error>
    requires Lawful(c)
  {
    if s.cv.None? || s.chain == [] then Err(BadHandshake)
    else
      var _ :- VerifySignature(c, s.cv.value, s.chain[0]);
      if master.None? then Err(BadHandshake)
      else
        var th := c.hash(h, s.transcript);
        Ok(Secrets(s.chain, DeriveSecret(c, h, master.value, "c ap traffic", th),
                   DeriveSecret(c, h, master.value, "s ap traffic", th)))
  }

  /** The whole of `process_server_flight` on the records: final channel, transcript, and outcome. */
  function Processed(c: Tls, h: HashAlg, shts: Option<bytes>, master: Option<bytes>, ch: Option<Channel>,
                     records: bytes, transcript: bytes)
    : (r: (Option<Channel>, bytes, Result<Secrets, Tls13Error>))
    requires Lawful(c) && Keyed(ch)
    ensures Keyed(r.0)
  {
    var e := Flight(c, h, shts, ch, records, [], Scan(transcript, [], None));
    (e.ch, e.scan.transcript, if e.err.Some? then Err(e.err.value) else Concluded(c, h, master, e.scan))
  }

  /**
    * However the same handshake bytes are cut into records, padded, and interleaved with ChangeCipherSpec
    * records, the flight ends with the same chain, the same secrets (or the same error) and the same transcript.
    */
  lemma SplitIndependence(c: Tls, h: HashAlg, shts: Option<bytes>, master: Option<bytes>, ch: Channel, a: seq<Item>,
                          b: seq<Item>, transcript: bytes)
    requires Lawful(c) && Usable(ch) && Payload(a) == Payload(b)
    requires Fitting(a) && Fitting(b)
    ensures var x := Processed(c, h, shts, master, Some(ch), ItemsBytes(c, ch, a), transcript);
            var y := Processed(c, h, shts, master, Some(ch), ItemsBytes(c, ch, b), transcript);
            x.1 == y.1 && x.2 == y.2
  {
    hide Flight, Streamed, Concluded, ItemsBytes, Payload;
    var s := Scan(transcript, [], None);
    FlightIsStream(c, h, shts, ch, a, [], s);
    FlightIsStream(c, h, shts, ch, b, [], s);
    assert [] + Payload(a) == Payload(a);
  }

  // ---- what an accepted flight proves ----

  lemma SignedContentAgrees(hash: bytes)
    ensures ToBeSigned(hash) == TlsReference.SignedContent(hash)
  {
    ContextAgrees();
    hide Primitives.Ascii;
    var signed := ToBeSigned(hash);
    assert signed[..64] == TlsReference.Spaces();
    assert signed[64..] == TlsReference.SERVER_CONTEXT + [0] + hash;
    assert signed == signed[..64] + signed[64..];
  }

  lemma ContextAgrees()
    ensures Primitives.Ascii("TLS 1.3, server CertificateVerify") == TlsReference.SERVER_CONTEXT
  {
  }

  lemma SchemesAgree(scheme: u16)
    ensures KnownScheme(scheme) <==> TlsReference.RsaScheme(scheme)
  {
  }

  predicate IsMessage(m: bytes) { |m| >= 4 && |m| == MessageLen(m) }

  predicate Messages(msgs: seq<bytes>) { forall k | 0 <= k < |msgs| :: IsMessage(msgs[k]) }

  /** Absorbing a list of messages in order, none of them Finished but possibly the last. */
  function AbsorbAll(c: Tls, h: HashAlg, shts: Option<bytes>, s: Scan, msgs: seq<bytes>): Outcome
    requires Lawful(c) && Messages(msgs)
    decreases |msgs|
  {
    if msgs == [] then Outcome(s, Ok(false))
    else
      var o := Absorb(c, h, shts, s, msgs[0]);
      if o.verdict.Err? || msgs[1..] == [] then o
      else if o.verdict.value then Outcome(o.scan, Err(UnexpectedRecord))
      else AbsorbAll(c, h, shts, o.scan, msgs[1..])
  }

  /** A flight that reaches Finished consumed a list of whole messages. */
  lemma {:induction false} FlightConsumesMessages(c: Tls, h: HashAlg, shts: Option<bytes>, ch: Option<Channel>,
                                                  rest: bytes, pending: bytes, s: Scan)
    returns (msgs: seq<bytes>)
    requires Lawful(c) && Keyed(ch) && Flight(c, h, shts, ch, rest, pending, s).err.None?
    ensures msgs != [] && Messages(msgs)
    ensures AbsorbAll(c, h, shts, s, msgs) == Outcome(Flight(c, h, shts, ch, rest, pending, s).scan, Ok(true))
    decreases |rest|, |pending|
  {
    hide Absorb, U16, HsOpened, U24;
    if HasMessage(pending) {
      var n := MessageLen(pending);
      var m := pending[..n];
      assert IsMessage(m);
      var o := Absorb(c, h, shts, s, m);
      if o.verdict == Ok(true) {
        msgs := [m];
      } else {
        var more := FlightConsumesMessages(c, h, shts, ch, rest, pending[n..], o.scan);
        msgs := [m] + more;
        assert msgs[1..] == more;
      }
    } else {
      var n := 5 + U16(rest[3], rest[4]) as int;
      if rest[0] == CHANGE_CIPHER_SPEC {
        msgs := FlightConsumesMessages(c, h, shts, ch, rest[n..], pending, s);
      } else {
        var (ch1, plain) := HsOpened(c, ch, rest[..n]);
        msgs := FlightConsumesMessages(c, h, shts, ch1, rest[n..], pending + plain.value.1, s);
      }
    }
  }

  /** The transcript up to, not including, message `k`. */
  function Upto(start: bytes, msgs: seq<bytes>, k: nat): bytes
    requires k <= |msgs|
  {
    start + Flatten(msgs[..k])
  }

  /** The last message matched the MAC over everything before it. */
  ghost predicate FinishedMatched(c: Tls, h: HashAlg, shts: bytes, start: bytes, msgs: seq<bytes>)
    requires Lawful(c) && msgs != [] && Messages(msgs)
  {
    var last := |msgs| - 1;
    && msgs[last][0] == HS_FINISHED
    && msgs[last][4..] == TlsReference.VerifyData(c, h, shts, Upto(start, msgs, last))
  }

  /** No message after position `k` is of this kind. */
  predicate LastOfKind(msgs: seq<bytes>, kind: byte, k: int)
    requires Messages(msgs)
  {
    forall m | k < m < |msgs| && m >= 0 :: msgs[m][0] != kind
  }

  /** The stored signature is that of the last CertificateVerify message, over the transcript before it. */
  ghost predicate CvFrom(c: Tls, h: HashAlg, start: bytes, msgs: seq<bytes>, cv: CertVerify, k: nat)
    requires Lawful(c) && Messages(msgs)
  {
    && k < |msgs| && msgs[k][0] == HS_CERTIFICATE_VERIFY
    && ReadCertVerify(msgs[k][4..], c.hash(h, Upto(start, msgs, k))) == Ok(cv)
    && cv.tbs == TlsReference.SignedContent(c.hash(h, Upto(start, msgs, k)))
    && LastOfKind(msgs, HS_CERTIFICATE_VERIFY, k)
  }

  /** The stored chain is that of the last Certificate message. */
  ghost predicate ChainFrom(msgs: seq<bytes>, chain: seq<bytes>, k: nat)
    requires Messages(msgs)
  {
    k < |msgs| && msgs[k][0] == HS_CERTIFICATE && CertChain(msgs[k][4..]) == Ok(chain)
        && LastOfKind(msgs, HS_CERTIFICATE, k)
  }

  lemma UptoShift(start: bytes, m: bytes, rest: seq<bytes>, k: nat)
    requires k <= |rest|
    ensures Upto(start, [m] + rest, k + 1) == Upto(start + m, rest, k)
  {
    var msgs := [m] + rest;
    assert msgs[..k + 1][0] == m && msgs[..k + 1][1..] == rest[..k];
    assert start + (m + Flatten(rest[..k])) == start + m + Flatten(rest[..k]);
  }

  /** Either no such message came and what was stored before stands, or the last one is what is stored. */
  ghost predicate CvKept(c: Tls, h: HashAlg, start: bytes, msgs: seq<bytes>, before: Option<CertVerify>,
                         after: Option<CertVerify>)
    requires Lawful(c) && Messages(msgs)
  {
    || (after == before && LastOfKind(msgs, HS_CERTIFICATE_VERIFY, -1))
    || (after.Some? && exists k: nat :: CvFrom(c, h, start, msgs, after.value, k))
  }

  ghost predicate ChainKept(msgs: seq<bytes>, before: seq<bytes>, after: seq<bytes>)
    requires Messages(msgs)
  {
    || (after == before && LastOfKind(msgs, HS_CERTIFICATE, -1))
    || exists k: nat :: ChainFrom(msgs, after, k)
  }

  /** Reading the evidence back out of the absorbed messages. */
  lemma {:induction false} EvidenceFrom(c: Tls, h: HashAlg, shts: Option<bytes>, s: Scan, msgs: seq<bytes>)
    requires Lawful(c) && msgs != [] && Messages(msgs)
    requires AbsorbAll(c, h, shts, s, msgs).verdict == Ok(true)
    ensures var o := AbsorbAll(c, h, shts, s, msgs);
            && o.scan.transcript == s.transcript + Flatten(msgs)
            && shts.Some? && FinishedMatched(c, h, shts.value, s.transcript, msgs)
            && CvKept(c, h, s.transcript, msgs, s.cv, o.scan.cv)
            && ChainKept(msgs, s.chain, o.scan.chain)
    decreases |msgs|
  {
    hide CertChain, ReadCertVerify, FinishedKey, MessageLen, CvKept, ChainKept;
    var m, rest := msgs[0], msgs[1..];
    assert msgs == [m] + rest;
    var first := Absorb(c, h, shts, s, m);
    var final := AbsorbAll(c, h, shts, s, msgs).scan;
    assert Upto(s.transcript, msgs, 0) == s.transcript by {
      assert msgs[..0] == [];
      assert s.transcript + [] == s.transcript;
    }
    if rest == [] {
      assert Flatten(msgs) == m + [] == m;
      TlsReference.VerifyDataAgrees(c, h, shts.value, s.transcript);
      FinishedAlone(c, h, s, msgs);
    } else {
      EvidenceFrom(c, h, shts, first.scan, rest);
      FinishedLifted(c, h, shts.value, s.transcript, m, rest);
      CvLifted(c, h, shts, s, m, rest, final.cv);
      ChainLifted(c, h, shts, s, m, rest, final.chain);
      assert s.transcript + m + Flatten(rest) == s.transcript + Flatten(msgs);
    }
  }

  lemma FinishedAlone(c: Tls, h: HashAlg, s: Scan, msgs: seq<bytes>)
    requires Lawful(c) && |msgs| == 1 && Messages(msgs) && msgs[0][0] == HS_FINISHED
    ensures CvKept(c, h, s.transcript, msgs, s.cv, s.cv) && ChainKept(msgs, s.chain, s.chain)
  {
  }

  /** Evidence about the later messages is evidence about all of them. */
  lemma FinishedLifted(c: Tls, h: HashAlg, shts: bytes, start: bytes, m: bytes, rest: seq<bytes>)
    requires Lawful(c) && IsMessage(m) && rest != [] && Messages(rest)
    requires FinishedMatched(c, h, shts, start + m, rest)
    ensures FinishedMatched(c, h, shts, start, [m] + rest)
  {
    hide FinishedKey, MessageLen, Upto;
    var msgs := [m] + rest;
    UptoShift(start, m, rest, |rest| - 1);
    assert msgs[|msgs| - 1] == rest[|rest| - 1];
  }

  lemma LastShift(m: bytes, rest: seq<bytes>, kind: byte, k: int)
    requires IsMessage(m) && Messages(rest) && LastOfKind(rest, kind, k) && k >= -1
    ensures LastOfKind([m] + rest, kind, k + 1)
    ensures k == -1 && m[0] != kind ==> LastOfKind([m] + rest, kind, -1)
  {
    var msgs := [m] + rest;
    forall i | k + 1 < i < |msgs| && i >= 0
      ensures msgs[i][0] != kind
    {
      assert msgs[i] == rest[i - 1];
    }
  }

  lemma CvLifted(c: Tls, h: HashAlg, shts: Option<bytes>, s: Scan, m: bytes, rest: seq<bytes>,
                 final: Option<CertVerify>)
    requires Lawful(c) && IsMessage(m) && Messages(rest) && Absorb(c, h, shts, s, m).verdict == Ok(false)
    requires CvKept(c, h, s.transcript + m, rest, Absorb(c, h, shts, s, m).scan.cv, final)
    ensures CvKept(c, h, s.transcript, [m] + rest, s.cv, final)
  {
    hide CertChain, ReadCertVerify, MessageLen, Upto, LastOfKind;
    var msgs := [m] + rest;
    if final.Some? && exists k: nat :: CvFrom(c, h, s.transcript + m, rest, final.value, k) {
      var k: nat :| CvFrom(c, h, s.transcript + m, rest, final.value, k);
      UptoShift(s.transcript, m, rest, k);
      LastShift(m, rest, HS_CERTIFICATE_VERIFY, k);
      assert msgs[k + 1] == rest[k];
      assert CvFrom(c, h, s.transcript, msgs, final.value, k + 1);
    } else {
      LastShift(m, rest, HS_CERTIFICATE_VERIFY, -1);
      if m[0] == HS_CERTIFICATE_VERIFY {
        UptoNothing(s.transcript, msgs);
        SignedContentAgrees(c.hash(h, s.transcript));
        CvSigned(m[4..], c.hash(h, s.transcript));
        assert CvFrom(c, h, s.transcript, msgs, final.value, 0);
      }
    }
  }

  lemma CvSigned(body: bytes, hashBefore: bytes)
    ensures ReadCertVerify(body, hashBefore).Ok?
            ==> ReadCertVerify(body, hashBefore).value.tbs == ToBeSigned(hashBefore)
  {
  }

  lemma UptoNothing(start: bytes, msgs: seq<bytes>)
    ensures Upto(start, msgs, 0) == start
  {
    assert msgs[..0] == [] && start + [] == start;
  }

  lemma ChainLifted(c: Tls, h: HashAlg, shts: Option<bytes>, s: Scan, m: bytes, rest: seq<bytes>, final: seq<bytes>)
    requires Lawful(c) && IsMessage(m) && Messages(rest) && Absorb(c, h, shts, s, m).verdict == Ok(false)
    requires ChainKept(rest, Absorb(c, h, shts, s, m).scan.chain, final)
    ensures ChainKept([m] + rest, s.chain, final)
  {
    hide CertChain, ReadCertVerify, MessageLen, LastOfKind;
    var msgs := [m] + rest;
    if exists k: nat :: ChainFrom(rest, final, k) {
      var k: nat :| ChainFrom(rest, final, k);
      LastShift(m, rest, HS_CERTIFICATE, k);
      assert msgs[k + 1] == rest[k];
      assert ChainFrom(msgs, final, k + 1);
    } else {
      LastShift(m, rest, HS_CERTIFICATE, -1);
      if m[0] == HS_CERTIFICATE { assert ChainFrom(msgs, final, 0); }
    }
  }

  /** Everything a completed flight stands on. */
  ghost predicate Verified(c: Tls, h: HashAlg, shts: bytes, start: bytes, final: bytes, secrets: Secrets) {
    && Lawful(c)
    && exists msgs, cv, i: nat, j: nat ::
         && msgs != [] && Messages(msgs)
         && final == start + Flatten(msgs)
         && FinishedMatched(c, h, shts, start, msgs)
         && CvFrom(c, h, start, msgs, cv, i)
         && ChainFrom(msgs, secrets.chain, j) && secrets.chain != []
         && TlsReference.RsaScheme(cv.scheme) && VerifySignature(c, cv, secrets.chain[0]).Ok?
  }

  /** The transcript before message `i` goes through message `j` exactly if `j` comes before `i`. */
  lemma SignedThrough(start: bytes, msgs: seq<bytes>, i: nat, j: nat)
    requires Messages(msgs) && i < |msgs| && j < |msgs|
    ensures Upto(start, msgs, j + 1) <= Upto(start, msgs, i) <==> j < i
  {
    if j < i {
      UptoSplit(start, msgs, j + 1, i);
    } else {
      UptoSplit(start, msgs, i, j + 1);
      assert msgs[i..j + 1][0] == msgs[i];
    }
  }

  lemma UptoSplit(start: bytes, msgs: seq<bytes>, a: nat, b: nat)
    requires a <= b <= |msgs|
    ensures Upto(start, msgs, b) == Upto(start, msgs, a) + Flatten(msgs[a..b])
  {
    assert msgs[..b] == msgs[..a] + msgs[a..b];
    FlattenConcat(msgs[..a], msgs[a..b]);
  }

  /**
    * If the flight is accepted, its transcript is the old transcript followed by the messages consumed, the
    * last of which is a Finished whose body is the MAC of the transcript before it; and a CertificateVerify
    * among them, the last, verified, under the leaf of the last Certificate, over the transcript before it
    * (`SignedThrough` says when that transcript goes through that Certificate).
    */
  lemma AcceptedFlightIsVerified(c: Tls, h: HashAlg, shts: Option<bytes>, master: Option<bytes>, ch: Option<Channel>,
                                 records: bytes, transcript: bytes)
    requires Lawful(c) && Keyed(ch) && Processed(c, h, shts, master, ch, records, transcript).2.Ok?
    ensures var r := Processed(c, h, shts, master, ch, records, transcript);
            shts.Some? && Verified(c, h, shts.value, transcript, r.1, r.2.value)
  {
    hide Flight, AbsorbAll, VerifySignature, IsMessage, DeriveSecret, FinishedMatched, CvFrom, ChainFrom, LastOfKind,
         Upto;
    var s := Scan(transcript, [], None);
    var e := Flight(c, h, shts, ch, records, [], s);
    var msgs := FlightConsumesMessages(c, h, shts, ch, records, [], s);
    EvidenceFrom(c, h, shts, s, msgs);
    var i: nat :| CvFrom(c, h, transcript, msgs, e.scan.cv.value, i);
    var j: nat :| ChainFrom(msgs, e.scan.chain, j);
    assert VerifySignature(c, e.scan.cv.value, e.scan.chain[0]).Ok?;
    assert KnownScheme(e.scan.cv.value.scheme) by { VerifiedSchemeIsKnown(c, e.scan.cv.value, e.scan.chain[0]); }
    SchemesAgree(e.scan.cv.value.scheme);
  }

  lemma VerifiedSchemeIsKnown(c: Tls, cv: CertVerify, leaf: bytes)
    requires VerifySignature(c, cv, leaf).Ok?
    ensures KnownScheme(cv.scheme)
  {
  }
}
