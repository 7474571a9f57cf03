/**
  * The TLS 1.3 client object: its optional secrets, its four record channels, and what every sequence of calls
  * guarantees.
  */
module Tls13Client {
  import opened Bytes
  import opened RecordLayer
  import opened KeySchedule
  import opened ServerFlight
  import ClientHello
  import HelloReader

  const HS_SERVER_HELLO: byte := 0x02

  datatype Client = Client(
    hello: Option<bytes>, suite: Option<Suite>, transcript: Option<bytes>, early: Option<bytes>,
    handshake: Option<bytes>,
    master: Option<bytes>, chts: Option<bytes>, shts: Option<bytes>, cets: Option<bytes>, sets: Option<bytes>,
    hsRead: Option<Channel>, hsWrite: Option<Channel>, appRead: Option<Channel>, appWrite: Option<Channel>)

  const NEW := Client(None, None, None, None, None, None, None, None, None, None, None, None, None, None)

  /** A set suite implies a set transcript and early secret, so no unwrap fails; channels have twelve-byte IVs. */
  predicate Typed(cl: Client) {
    && (cl.suite.Some? ==> cl.transcript.Some? && cl.early.Some?)
    && Keyed(cl.hsRead) && Keyed(cl.hsWrite) && Keyed(cl.appRead) && Keyed(cl.appWrite)
    && (cl.chts.Some? <==> cl.hsWrite.Some?) && (cl.shts.Some? <==> cl.hsRead.Some?)
  }

  // ---- ServerHello ----

  datatype HelloFields = HelloFields(suite: Suite, share: Option<bytes>, body: bytes)

  function SuiteOf(v: u16): Option<Suite> {
    if v == 0x1301 then Some(Aes128GcmSha256)
    else if v == 0x1302 then Some(Aes256GcmSha384)
    else if v == 0x1303 then Some(ChaCha20Poly1305Sha256)
    else None
  }

  /** A single key share entry, without a list around it. */
  function ReadShare(data: bytes, share: Option<bytes>): Result<Option<bytes>, Tls13Error> {
    var (group, r1) :- Lift(ClientHello.CutU16(data));
    var (klen, r2) :- Lift(ClientHello.CutU16(r1));
    var (key, _) :- Lift(ClientHello.Cut(r2, klen));
    Ok(if group == ClientHello.GROUP_X25519 && klen == 32 then Some(key) else share)
  }

  function ReadShExts(w: bytes, left: int, share: Option<bytes>): Result<Option<bytes>, Tls13Error>
    decreases |w|
  {
    if left <= 0 then Ok(share)
    else
      var (kind, r1) :- Lift(ClientHello.CutU16(w));
      var (len, r2) :- Lift(ClientHello.CutU16(r1));
      var (data, r3) :- Lift(ClientHello.Cut(r2, len));
      var next :- if kind == ClientHello.EXT_KEY_SHARE then ReadShare(data, share) else Ok(share);
      ReadShExts(r3, left - 4 - len, next)
  }

  function ReadServerHello(sh: bytes): Result<(Suite, Option<bytes>), Tls13Error> {
    var (_, r1) :- Lift(ClientHello.Cut(sh, 2));
    var (_, r2) :- Lift(ClientHello.Cut(r1, 32));
    var (sidLen, r3) :- Lift(ClientHello.CutU8(r2));
    var (_, r4) :- Lift(ClientHello.Cut(r3, sidLen));
    var (negotiated, r5) :- Lift(ClientHello.CutU16(r4));
    if SuiteOf(negotiated).None? then Err(BadCipherSuite)
    else
      var (_, r6) :- Lift(ClientHello.CutU8(r5));
      var (extTotal, r7) :- Lift(ClientHello.CutU16(r6));
      var share :- ReadShExts(r7, extTotal, None);
      Ok((SuiteOf(negotiated).value, share))
  }

  /** `Aborted` stands for the unchecked slice of a ServerHello message shorter than its own header. */
  function HelloParsed(wire: bytes): Result<HelloFields, Tls13Error> {
    if |wire| < 5 || wire[0] != CONTENT_HANDSHAKE then Err(BadRecord)
    else if |wire| < 5 + U16(wire[3], wire[4]) as int then Err(Truncated)
    else
      var body := wire[5..5 + U16(wire[3], wire[4]) as int];
      if body == [] || body[0] != HS_SERVER_HELLO then Err(BadHandshake)
      else if |body| < 4 then Err(Aborted)
      else
        var (suite, share) :- ReadServerHello(body[4..]);
        Ok(HelloFields(suite, share, body))
  }

  /** The transcript starts here: the stored ClientHello without its record header, then the ServerHello. */
  function WithServerHello(c: Tls, cl: Client, wire: bytes): (Client, Result<bytes, Tls13Error>) {
    match HelloParsed(wire)
    case Err(e) => (cl, Err(e))
    case Ok(f) =>
      if cl.hello.None? || |cl.hello.value| < 5 then (cl, Err(BadHandshake))
      else
        var h := SuiteHash(f.suite);
        var next := cl.(transcript := Some(cl.hello.value[5..] + f.body), suite := Some(f.suite),
                        early := Some(Extract(c, h, Zeros(HashLen(h)), Zeros(HashLen(h)))));
        (next, if f.share.None? then Err(NoKeyShare) else Ok(f.share.value))
  }

  // ---- key schedule ----

  function WithHandshakeKeys(c: Tls, cl: Client, shared: bytes): (Client, Result<(), Tls13Error>)
    requires Lawful(c) && Typed(cl)
  {
    if cl.suite.None? then (cl, Err(BadHandshake))
    else
      var h := SuiteHash(cl.suite.value);
      var empty := c.hash(h, []);
      var hs := Extract(c, h, DeriveSecret(c, h, cl.early.value, "derived", empty), shared);
      var th := c.hash(h, cl.transcript.value);
      var shts := DeriveSecret(c, h, hs, "s hs traffic", th);
      var chts := DeriveSecret(c, h, hs, "c hs traffic", th);
      (cl.(handshake := Some(hs),
           master := Some(Extract(c, h, DeriveSecret(c, h, hs, "derived", empty), Zeros(HashLen(h)))),
           shts := Some(shts), chts := Some(chts),
           hsRead := Some(ChannelFrom(c, cl.suite.value, shts)), hsWrite := Some(ChannelFrom(c, cl.suite.value, chts))),
       Ok(()))
  }

  // ---- the flight ----

  function WithAppKeys(c: Tls, cl: Client, suite: Suite, secrets: Secrets): Client
    requires Lawful(c)
  {
    cl.(cets := Some(secrets.clientApp), sets := Some(secrets.serverApp),
        appWrite := Some(ChannelFrom(c, suite, secrets.clientApp)),
        appRead := Some(ChannelFrom(c, suite, secrets.serverApp)))
  }

  function WithFlight(c: Tls, cl: Client, records: bytes): (Client, Result<Secrets, Tls13Error>)
    requires Lawful(c) && Typed(cl)
  {
    if cl.suite.None? then (cl, Err(BadHandshake))
    else
      var (ch, transcript, r) :=
        Processed(c, SuiteHash(cl.suite.value), cl.shts, cl.master, cl.hsRead, records, cl.transcript.value);
      var next := cl.(hsRead := ch, transcript := Some(transcript));
      (if r.Ok? then WithAppKeys(c, next, cl.suite.value, r.value) else next, r)
  }

  function FinishedMessage(c: Tls, h: HashAlg, chts: bytes, transcript: bytes): bytes
    requires Lawful(c)
  {
    var verify := c.hmac(h, FinishedKey(c, h, chts), c.hash(h, transcript));
    [HS_FINISHED, 0, 0, |verify| % 256] + verify
  }

  function WithClientFinished(c: Tls, cl: Client): (Client, Result<bytes, Tls13Error>)
    requires Lawful(c) && Typed(cl)
  {
    if cl.suite.None? || cl.chts.None? then (cl, Err(BadHandshake))
    else
      var msg := FinishedMessage(c, SuiteHash(cl.suite.value), cl.chts.value, cl.transcript.value);
      var ch := cl.hsWrite.value;
      (cl.(transcript := Some(cl.transcript.value + msg), hsWrite := Some(Advanced(ch))),
       Ok(Sealed(c, ch, CONTENT_HANDSHAKE, msg, 0)))
  }

  // ---- application records ----

  function WithSealed(c: Tls, cl: Client, data: bytes): (Client, Result<bytes, Tls13Error>)
    requires Typed(cl)
  {
    if cl.appWrite.None? then (cl, Err(UnexpectedRecord))
    else (cl.(appWrite := Some(Advanced(cl.appWrite.value))), Ok(AppSealed(c, cl.appWrite.value, data)))
  }

  function WithOpened(c: Tls, cl: Client, wire: bytes): (Client, Result<(byte, bytes), Tls13Error>)
    requires Typed(cl)
  {
    if |wire| < 5 || wire[0] != CONTENT_APPDATA then (cl, Err(UnexpectedRecord))
    else if |wire| < 5 + U16(wire[3], wire[4]) as int then (cl, Err(Truncated))
    else if cl.appRead.None? then (cl, Err(UnexpectedRecord))
    else (cl.(appRead := Some(Advanced(cl.appRead.value))), Opened(c, cl.appRead.value, wire))
  }

  // ---- the object ----

  class ClientObject {
    const c: Tls
    var hello: Option<bytes>
    var suite: Option<Suite>
    var transcript: Option<bytes>
    var early: Option<bytes>
    var handshake: Option<bytes>
    var master: Option<bytes>
    var chts: Option<bytes>
    var shts: Option<bytes>
    var cets: Option<bytes>
    var sets: Option<bytes>
    var hsRead: Option<Channel>
    var hsWrite: Option<Channel>
    var appRead: Option<Channel>
    var appWrite: Option<Channel>

    ghost function View(): Client
      reads this
    {
      Client(hello, suite, transcript, early, handshake, master, chts, shts, cets, sets, hsRead, hsWrite, appRead,
             appWrite)
    }

    ghost predicate Valid()
      reads this
    {
      Lawful(c) && Typed(View())
    }

    constructor (prims: Tls)
      requires Lawful(prims)
      ensures Valid() && View() == NEW && c == prims
    {
      c := prims;
      hello, suite, transcript, early, handshake, master := None, None, None, None, None, None;
      chts, shts, cets, sets, hsRead, hsWrite, appRead, appWrite := None, None, None, None, None, None, None, None;
    }

    method SetClientHello(record: bytes)
      requires Valid()
      modifies this
      ensures Valid() && View() == old(View()).(hello := Some(record))
    {
      hello := Some(record);
    }

    method ProcessServerHello(wire: bytes) returns (r: Result<bytes, Tls13Error>)
      requires Valid()
      modifies this
      ensures Valid() && (View(), r) == WithServerHello(c, old(View()), wire)
    {
      hide ReadServerHello;
      if |wire| < 5 || wire[0] != CONTENT_HANDSHAKE { return Err(BadRecord); }
      var recLen := U16(wire[3], wire[4]) as int;
      if |wire| < 5 + recLen { return Err(Truncated); }
      var body := wire[5..5 + recLen];
      if body == [] || body[0] != HS_SERVER_HELLO { return Err(BadHandshake); }
      if |body| < 4 { return Err(Aborted); }
      var parsed :- ParseServerHello(body[4..]);
      var (negotiated, share) := parsed;
      if hello.None? || |hello.value| < 5 { return Err(BadHandshake); }
      transcript := Some(hello.value[5..] + body);
      suite := Some(negotiated);
      var h := SuiteHash(negotiated);
      early := Some(Extract(c, h, Zeros(HashLen(h)), Zeros(HashLen(h))));
      if share.None? { return Err(NoKeyShare); }
      return Ok(share.value);
    }

    method DeriveHandshakeKeys(shared: bytes) returns (r: Result<(), Tls13Error>)
      requires Valid()
      modifies this
      ensures Valid() && (View(), r) == WithHandshakeKeys(c, old(View()), shared)
    {
      hide DeriveSecret, Extract, ChannelFrom, SuiteHash, HashLen, Lawful, Zeros;
      if suite.None? { return Err(BadHandshake); }
      var h := SuiteHash(suite.value);
      var derived := DeriveSecret(c, h, early.value, "derived", c.hash(h, []));
      var hs := Extract(c, h, derived, shared);
      var derived2 := DeriveSecret(c, h, hs, "derived", c.hash(h, []));
      var ms := Extract(c, h, derived2, Zeros(HashLen(h)));
      var th := c.hash(h, transcript.value);
      var s := DeriveSecret(c, h, hs, "s hs traffic", th);
      var k := DeriveSecret(c, h, hs, "c hs traffic", th);
      handshake, master, shts, chts := Some(hs), Some(ms), Some(s), Some(k);
      hsRead, hsWrite := Some(ChannelFrom(c, suite.value, s)), Some(ChannelFrom(c, suite.value, k));
      return Ok(());
    }

    method OpenHsRecord(rec: bytes) returns (r: Result<(byte, bytes), Tls13Error>)
      requires Lawful(c) && Keyed(hsRead)
      modifies this`hsRead
      ensures (hsRead, r) == HsOpened(c, old(hsRead), rec)
    {
      if |rec| < 5 || rec[0] != CONTENT_APPDATA { return Err(BadRecord); }
      var recLen := U16(rec[3], rec[4]) as int;
      if |rec| < 5 + recLen { return Err(Truncated); }
      if hsRead.None? { return Err(BadRecord); }
      var ch := hsRead.value;
      var nonce := ComputeNonce(ch.iv, ch.seqno);
      hsRead := Some(Advanced(ch));
      var plain := c.unseal(ch.suite, ch.key, nonce, rec[..5], rec[5..5 + recLen]);
      if plain.None? { return Err(DecryptFailed); }
      r := StripInnerPadding(plain.value);
    }

    /** Take one complete message off the pending bytes into the transcript; the hash is the one before it. */
    method TakeMessage(buf: bytes, h: HashAlg) returns (rest: bytes, taken: Option<(bytes, bytes)>)
      requires transcript.Some?
      modifies this`transcript
      ensures transcript.Some?
      ensures !HasMessage(buf) ==> taken.None? && rest == buf && transcript == old(transcript)
      ensures HasMessage(buf) ==>
                && taken == Some((buf[..MessageLen(buf)], c.hash(h, old(transcript).value)))
                && rest == buf[MessageLen(buf)..] && transcript.value == old(transcript).value + buf[..MessageLen(buf)]
    {
      if |buf| < 4 { return buf, None; }
      var len := U24(buf[1], buf[2], buf[3]);
      if |buf| < 4 + len { return buf, None; }
      var before := c.hash(h, transcript.value);
      transcript := Some(transcript.value + buf[..4 + len]);
      return buf[4 + len..], Some((buf[..4 + len], before));
    }

    method ProcessServerFlight(records: bytes) returns (r: Result<Secrets, Tls13Error>)
      requires Valid()
      modifies this
      ensures Valid() && (View(), r) == WithFlight(c, old(View()), records)
    {
      hide Concluded, ChannelFrom, Flight;
      FlightKeepsTyped(c, View(), records);
      if suite.None? { return Err(BadHandshake); }
      var h := SuiteHash(suite.value);
      var scan, err := ScanFlight(records, h);
      if err.Some? { return Err(err.value); }
      var secrets :- Concluded(c, h, master, scan);
      cets, sets := Some(secrets.clientApp), Some(secrets.serverApp);
      appWrite := Some(ChannelFrom(c, suite.value, secrets.clientApp));
      appRead := Some(ChannelFrom(c, suite.value, secrets.serverApp));
      return Ok(secrets);
    }

    /**
      * The record and message loop up to Finished; it ends because every round shortens the records left, or the
      * pending bytes.
      */
    method ScanFlight(records: bytes, h: HashAlg) returns (scan: Scan, err: Option<Tls13Error>)
      requires Lawful(c) && Keyed(hsRead) && transcript.Some?
      modifies this`hsRead, this`transcript
      ensures transcript.Some? && Keyed(hsRead)
      ensures FlightEnd(hsRead, scan, err) == Flight(c, h, shts, old(hsRead), records, [],
                                                     Scan(old(transcript).value, [], None))
      ensures scan.transcript == transcript.value
    {
      hide Absorb, HsOpened, U16, U24;
      var pending: bytes := [];
      var rest := records;
      scan := Scan(transcript.value, [], None);
      var gotFinished := false;
      ghost var whole := Flight(c, h, shts, hsRead, records, [], scan);
      while !gotFinished
        invariant transcript.Some? && scan.transcript == transcript.value && Keyed(hsRead)
        invariant gotFinished ==> whole == FlightEnd(hsRead, scan, None)
        invariant !gotFinished ==> whole == Flight(c, h, shts, hsRead, rest, pending, scan)
        decreases !gotFinished, |rest|, |pending|
      {
        if |pending| < 4 || |pending| < 4 + U24(pending[1], pending[2], pending[3]) {
          if |rest| < 5 { return scan, Some(Truncated); }
          var recLen := U16(rest[3], rest[4]) as int;
          if |rest| < 5 + recLen { return scan, Some(Truncated); }
          var rec := rest[..5 + recLen];
          if rec[0] == CHANGE_CIPHER_SPEC {
            rest := rest[5 + recLen..];
            continue;
          }
          var plain := OpenHsRecord(rec);
          if plain.Err? { return scan, Some(plain.error); }
          if plain.value.0 != CONTENT_HANDSHAKE { return scan, Some(UnexpectedRecord); }
          pending := pending + plain.value.1;
          rest := rest[5 + recLen..];
          continue;
        }
        ghost var before := pending;
        var left, taken := TakeMessage(pending, h);
        pending := left;
        if taken.None? { continue; }
        var o := Judge(h, scan, taken.value.0, taken.value.1);
        scan := o.scan;
        if o.verdict.Err? { return scan, Some(o.verdict.error); }
        gotFinished := o.verdict.value;
      }
      return scan, None;
    }

    /** The per-message match, over the hash of the transcript before the message. */
    method Judge(h: HashAlg, s: Scan, msg: bytes, before: bytes) returns (o: Outcome)
      requires Lawful(c) && |msg| >= 4 && before == c.hash(h, s.transcript)
      ensures o == Absorb(c, h, shts, s, msg)
    {
      hide CertChain, ReadCertVerify, FinishedKey;
      var next := s.(transcript := s.transcript + msg);
      var body := msg[4..];
      if msg[0] == HS_CERTIFICATE {
        var chain := CertChain(body);
        if chain.Err? { return Outcome(next, Err(chain.error)); }
        return Outcome(next.(chain := chain.value), Ok(false));
      } else if msg[0] == HS_CERTIFICATE_VERIFY {
        var cv := ReadCertVerify(body, before);
        if cv.Err? { return Outcome(next, Err(cv.error)); }
        return Outcome(next.(cv := Some(cv.value)), Ok(false));
      } else if msg[0] == HS_FINISHED {
        if shts.None? { return Outcome(next, Err(BadHandshake)); }
        var expected := c.hmac(h, FinishedKey(c, h, shts.value), before);
        if body != expected { return Outcome(next, Err(FinishedMismatch)); }
        return Outcome(next, Ok(true));
      }
      return Outcome(next, Ok(false));
    }

    method ClientFinishedRecord() returns (r: Result<bytes, Tls13Error>)
      requires Valid()
      modifies this
      ensures Valid() && (View(), r) == WithClientFinished(c, old(View()))
    {
      if suite.None? { return Err(BadHandshake); }
      if chts.None? { return Err(BadHandshake); }
      var msg := FinishedMessage(c, SuiteHash(suite.value), chts.value, transcript.value);
      transcript := Some(transcript.value + msg);
      var ch := hsWrite.value;
      hsWrite := Some(Advanced(ch));
      return Ok(Sealed(c, ch, CONTENT_HANDSHAKE, msg, 0));
    }

    method SealAppRecord(data: bytes) returns (r: Result<bytes, Tls13Error>)
      requires Valid()
      modifies this
      ensures Valid() && (View(), r) == WithSealed(c, old(View()), data)
    {
      hide PutU16, RecordNonce;
      var record := RecordHeader(|data| + 1 + 16);
      var inner := data + [CONTENT_APPDATA];
      if appWrite.None? { return Err(UnexpectedRecord); }
      var ch := appWrite.value;
      var nonce := ComputeNonce(ch.iv, ch.seqno);
      appWrite := Some(Advanced(ch));
      assert inner == data + [CONTENT_APPDATA] + Zeros(0);
      return Ok(record + c.seal(ch.suite, ch.key, nonce, record, inner));
    }

    method OpenRecord(wire: bytes) returns (r: Result<(byte, bytes), Tls13Error>)
      requires Valid()
      modifies this
      ensures Valid() && (View(), r) == WithOpened(c, old(View()), wire)
    {
      hide RecordNonce, StripInner;
      if |wire| < 5 || wire[0] != CONTENT_APPDATA { return Err(UnexpectedRecord); }
      var recLen := U16(wire[3], wire[4]) as int;
      if |wire| < 5 + recLen { return Err(Truncated); }
      if appRead.None? { return Err(UnexpectedRecord); }
      var ch := appRead.value;
      var nonce := ComputeNonce(ch.iv, ch.seqno);
      appRead := Some(Advanced(ch));
      var plain := c.unseal(ch.suite, ch.key, nonce, wire[..5], wire[5..5 + recLen]);
      if plain.None? { return Err(DecryptFailed); }
      r := StripInnerPadding(plain.value);
    }
  }

  method ParseServerHello(sh: bytes) returns (r: Result<(Suite, Option<bytes>), Tls13Error>)
    ensures r == ReadServerHello(sh)
  {
    hide ClientHello.Cut, ClientHello.CutU8, ClientHello.CutU16, ReadShare;
    var rd := new HelloReader.Reader(sh);
    var version := rd.Take(2);
    if version.Err? { return Err(Truncated); }
    var random := rd.Take(32);
    if random.Err? { return Err(Truncated); }
    var sidLen := rd.U8();
    if sidLen.Err? { return Err(Truncated); }
    var sid := rd.Take(sidLen.value);
    if sid.Err? { return Err(Truncated); }
    var negotiated := rd.U16();
    if negotiated.Err? { return Err(Truncated); }
    if SuiteOf(negotiated.value).None? { return Err(BadCipherSuite); }
    var compression := rd.U8();
    if compression.Err? { return Err(Truncated); }
    var extTotal := rd.U16();
    if extTotal.Err? { return Err(Truncated); }
    var share := ParseShExts(rd, extTotal.value);
    if share.Err? { return Err(share.error); }
    return Ok((SuiteOf(negotiated.value).value, share.value));
  }

  method ParseShExts(rd: HelloReader.Reader, extTotal: u16) returns (r: Result<Option<bytes>, Tls13Error>)
    requires rd.Valid()
    modifies rd
    ensures r == ReadShExts(old(rd.Rest()), extTotal, None)
  {
    hide ClientHello.Cut, ClientHello.CutU16, ReadShare;
    var share: Option<bytes> := None;
    var read: int := 0;
    while read < extTotal
      invariant rd.Valid()
      invariant ReadShExts(old(rd.Rest()), extTotal, None) == ReadShExts(rd.Rest(), extTotal as int - read, share)
      decreases |rd.Rest()|
    {
      var kind := rd.U16();
      if kind.Err? { return Err(Truncated); }
      var len := rd.U16();
      if len.Err? { return Err(Truncated); }
      var data := rd.Take(len.value);
      if data.Err? { return Err(Truncated); }
      read := read + 4 + len.value;
      if kind.value == ClientHello.EXT_KEY_SHARE { share :- ReadShare(data.value, share); }
    }
    return Ok(share);
  }

  // ---- every sequence of calls ----

  datatype Call =
    | SetHello(record: bytes) | Hello(wire: bytes) | Derive(shared: bytes) | TakeFlight(records: bytes) | Finish
    | Seal(data: bytes) | Open(wire: bytes)

  function Did(c: Tls, cl: Client, call: Call): (r: Client)
    requires Lawful(c) && Typed(cl)
    ensures Typed(r)
  {
    match call
    case SetHello(record) => cl.(hello := Some(record))
    case Hello(wire) => WithServerHello(c, cl, wire).0
    case Derive(shared) => WithHandshakeKeys(c, cl, shared).0
    case TakeFlight(records) =>
      FlightKeepsTyped(c, cl, records);
      WithFlight(c, cl, records).0
    case Finish => WithClientFinished(c, cl).0
    case Seal(data) => WithSealed(c, cl, data).0
    case Open(wire) => WithOpened(c, cl, wire).0
  }

  lemma FlightChannel(c: Tls, h: HashAlg, shts: Option<bytes>, ch: Option<Channel>, rest: bytes, pending: bytes,
                      s: Scan)
    requires Lawful(c) && Keyed(ch)
    ensures Flight(c, h, shts, ch, rest, pending, s).ch.Some? <==> ch.Some?
    decreases |rest|, |pending|
  {
    hide Absorb, U16, U24, Opened;
    if HasMessage(pending) {
      var n := MessageLen(pending);
      var o := Absorb(c, h, shts, s, pending[..n]);
      if o.verdict == Ok(false) { FlightChannel(c, h, shts, ch, rest, pending[n..], o.scan); }
    } else if |rest| >= 5 && |rest| >= 5 + U16(rest[3], rest[4]) as int {
      var n := 5 + U16(rest[3], rest[4]) as int;
      var (ch1, plain) := HsOpened(c, ch, rest[..n]);
      FlightChannel(c, h, shts, ch, rest[n..], pending, s);
      if plain.Ok? { FlightChannel(c, h, shts, ch1, rest[n..], pending + plain.value.1, s); }
    }
  }

  lemma FlightKeepsTyped(c: Tls, cl: Client, records: bytes)
    requires Lawful(c) && Typed(cl)
    ensures Typed(WithFlight(c, cl, records).0)
  {
    hide Flight, Concluded;
    if cl.suite.Some? {
      FlightChannel(c, SuiteHash(cl.suite.value), cl.shts, cl.hsRead, records, [], Scan(cl.transcript.value, [], None));
    }
  }

  /** The client after a list of calls, failing ones included. */
  function After(c: Tls, calls: seq<Call>): (r: Client)
    requires Lawful(c)
    ensures Typed(r)
    decreases |calls|
  {
    if calls == [] then NEW else Did(c, After(c, calls[..|calls| - 1]), calls[|calls| - 1])
  }

  /** The client just before call `k`. */
  function Before(c: Tls, calls: seq<Call>, k: nat): Client
    requires Lawful(c) && k <= |calls|
  {
    After(c, calls[..k])
  }

  /**
    * Call `k` was a flight that passed, on Finished and CertificateVerify over the transcripts before them, and these
    * are its keys.
    */
  ghost predicate FlightGaveKeys(c: Tls, calls: seq<Call>, k: nat, write: Channel, read: Channel)
    requires Lawful(c)
  {
    && k < |calls| && calls[k].TakeFlight?
    && var before := Before(c, calls, k);
       && before.suite.Some? && before.shts.Some?
       && var (after, r) := WithFlight(c, before, calls[k].records);
          && r.Ok?
          && Verified(c, SuiteHash(before.suite.value), before.shts.value, before.transcript.value,
                      after.transcript.value, r.value)
          && write.(seqno := 0) == ChannelFrom(c, before.suite.value, r.value.clientApp)
          && read.(seqno := 0) == ChannelFrom(c, before.suite.value, r.value.serverApp)
  }

  lemma BeforeShorter(c: Tls, calls: seq<Call>, k: nat)
    requires Lawful(c) && k < |calls|
    ensures Before(c, calls[..|calls| - 1], k) == Before(c, calls, k)
  {
    assert calls[..|calls| - 1][..k] == calls[..k];
  }

  lemma GaveKeysLonger(c: Tls, calls: seq<Call>, k: nat, write: Channel, read: Channel)
    requires Lawful(c) && calls != [] && FlightGaveKeys(c, calls[..|calls| - 1], k, write, read)
    ensures FlightGaveKeys(c, calls, k, write, read)
  {
    hide WithFlight, Verified, ChannelFrom, Before;
    BeforeShorter(c, calls, k);
  }

  /** Any call but an accepted flight leaves the application channels alone, save for their sequence numbers. */
  lemma OtherCallsKeepAppKeys(c: Tls, cl: Client, call: Call)
    requires Lawful(c) && Typed(cl)
    requires call.TakeFlight? ==> WithFlight(c, cl, call.records).1.Err?
    ensures var next := Did(c, cl, call);
            && (next.appWrite.Some? <==> cl.appWrite.Some?) && (next.appRead.Some? <==> cl.appRead.Some?)
            && (cl.appWrite.Some? ==> next.appWrite.value.(seqno := 0) == cl.appWrite.value.(seqno := 0))
            && (cl.appRead.Some? ==> next.appRead.value.(seqno := 0) == cl.appRead.value.(seqno := 0))
  {
    hide HelloParsed, Processed, DeriveSecret, ChannelFrom, Sealed, Opened, FinishedMessage, AppSealed;
  }

  /**
    * Over every sequence of calls from a new client, application records can be sealed or opened only under
    * keys given by an earlier flight whose Finished matched the MAC of the transcript before it and whose
    * CertificateVerify verified over the transcript before it; both directions come from the same flight.
    */
  lemma {:induction false} AppKeysComeFromAVerifiedFlight(c: Tls, calls: seq<Call>)
    requires Lawful(c)
    ensures var cl := After(c, calls);
            && (cl.appWrite.Some? <==> cl.appRead.Some?)
            && (cl.appWrite.Some? ==> exists k: nat :: FlightGaveKeys(c, calls, k, cl.appWrite.value, cl.appRead.value))
    decreases |calls|
  {
    hide FlightGaveKeys, Did, WithFlight;
    if calls != [] {
      var prior, call := calls[..|calls| - 1], calls[|calls| - 1];
      var cl, next := After(c, prior), After(c, calls);
      AppKeysComeFromAVerifiedFlight(c, prior);
      if call.TakeFlight? && WithFlight(c, cl, call.records).1.Ok? {
        NewKeys(c, calls);
      } else {
        OtherCallsKeepAppKeys(c, cl, call);
        if next.appWrite.Some? {
          var k: nat :| FlightGaveKeys(c, prior, k, cl.appWrite.value, cl.appRead.value);
          GaveKeysLonger(c, calls, k, cl.appWrite.value, cl.appRead.value);
          SameKeys(c, calls, k, cl.appWrite.value, cl.appRead.value, next.appWrite.value, next.appRead.value);
        }
      }
    }
  }

  lemma SameKeys(c: Tls, calls: seq<Call>, k: nat, w: Channel, r: Channel, w': Channel, r': Channel)
    requires Lawful(c) && FlightGaveKeys(c, calls, k, w, r) && w.(seqno := 0) == w'.(seqno := 0)
             && r.(seqno := 0) == r'.(seqno := 0)
    ensures FlightGaveKeys(c, calls, k, w', r')
  {
    hide WithFlight, Verified, ChannelFrom, Before;
  }

  lemma NewKeys(c: Tls, calls: seq<Call>)
    requires Lawful(c) && calls != [] && calls[|calls| - 1].TakeFlight?
    requires WithFlight(c, After(c, calls[..|calls| - 1]), calls[|calls| - 1].records).1.Ok?
    ensures var cl := After(c, calls);
            && cl.appWrite.Some? && cl.appRead.Some?
            && FlightGaveKeys(c, calls, |calls| - 1, cl.appWrite.value, cl.appRead.value)
  {
    hide Processed, Verified, DeriveSecret, ExpandLabel;
    var before := After(c, calls[..|calls| - 1]);
    var records := calls[|calls| - 1].records;
    assert before.suite.Some?;
    AcceptedFlightIsVerified(c, SuiteHash(before.suite.value), before.shts, before.master, before.hsRead, records,
                             before.transcript.value);
  }
}
