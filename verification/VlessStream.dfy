/** The client's two stream ends and the honest peer's VLESS leg between them. */
module VlessStream {
  import opened Bytes
  import opened RequestHeader
  import opened Vision
  import opened VisionIo
  import Transport

  const TUN_READ := 1500
  const TAG_LEN := 16

  // ---- the client's outbound end ----

  datatype OutStream = OutStream(header: Option<bytes>, writer: Writer)

  function Wrapped(o: OutStream, payload: bytes, draw: nat -> u64): (OutStream, bytes) {
    match o.header
    case Some(first) =>
      var (w, out) := Padded(o.writer, first + payload, true, true, draw);
      (OutStream(None, w), out)
    case None =>
      var (w, out) := Padded(o.writer, payload, false, false, draw);
      (OutStream(None, w), out)
  }

  class VlessOut {
    var header: Option<bytes>
    const writer: VisionWriter

    ghost function View(): OutStream
      reads this, writer
    {
      OutStream(header, writer.View())
    }

    constructor (uuid: bytes, flow: Option<bytes>, command: byte, address: Address, port: u16)
      ensures fresh(writer)
      ensures View() == OutStream(Some(HeaderBytes(uuid, flow, command, address, port)), Writer(Some(uuid), true))
    {
      var built := BuildRequestHeader(uuid, flow, command, address, port);
      header := Some(built);
      writer := new VisionWriter(uuid);
    }

    method Wrap(payload: bytes, draw: nat -> u64) returns (out: bytes)
      modifies this, writer
      ensures (View(), out) == Wrapped(old(View()), payload, draw)
    {
      match header {
        case Some(first) =>
          header := None;
          out := writer.Pad(first + payload, true, true, draw);
        case None =>
          out := writer.Pad(payload, false, false, draw);
      }
    }
  }

  // ---- the client's inbound end ----

  datatype InStream = InStream(responseSeen: bool, reader: Reader)

  function Unwrapped(i: InStream, plaintext: bytes): (InStream, Result<bytes, VlessError>)
    requires Sound(i.reader)
  {
    var (r, content) := Unpadded(i.reader, plaintext);
    if content.Err? then (InStream(i.responseSeen, r), content)
    else if i.responseSeen then (InStream(true, r), content)
    else
      match ParseResponseHeader(content.value, VERSION)
      case Err(e) => (InStream(true, r), Err(e))
      case Ok(_) => (InStream(true, r), Ok(content.value[4..]))
  }

  class VlessIn {
    var responseSeen: bool
    const reader: VisionReader

    ghost function View(): InStream
      reads this, reader, reader.header
    {
      InStream(responseSeen, reader.View())
    }

    constructor (uuid: bytes)
      requires |uuid| == 16
      ensures fresh(reader) && fresh(reader.header) && reader.Valid()
      ensures View() == InStream(false, NewReader(uuid))
    {
      responseSeen := false;
      reader := new VisionReader(uuid);
    }

    method Unwrap(plaintext: bytes) returns (r: Result<bytes, VlessError>)
      requires reader.Valid()
      modifies this, reader, reader.header
      ensures reader.Valid()
      ensures (View(), r) == Unwrapped(old(View()), plaintext)
    {
      var content := reader.Unpad(plaintext);
      if content.Err? { return content; }
      if !responseSeen {
        responseSeen := true;
        var header := ParseResponseHeader(content.value, VERSION);
        if header.Err? { return Err(header.error); }
        return Ok(content.value[4..]);
      }
      return content;
    }
  }

  // ---- the honest peer's leg: unpad, split the request header, answer ----

  datatype PeerError = VisionUnpad(e: VlessError) | BadRequest(e: VlessError) | SliceOutOfRange | WrongUuid

  datatype Peer = Peer(reader: Reader, writer: Writer, request: Option<ParsedRequest>, payloadBytes: nat)

  /** One opened record in the peer's loop: the new peer and the plaintext of its reply. */
  function Answered(p: Peer, uuid: bytes, record: bytes, draw: nat -> u64): (a: Result<(Peer, bytes), PeerError>)
    requires Sound(p.reader)
    ensures a.Ok? ==> Sound(a.value.0.reader)
  {
    var (r, unpadded) := Unpadded(p.reader, record);
    match unpadded
    case Err(e) => Err(VisionUnpad(e))
    case Ok(content) =>
      if p.request.Some? then
        var (w, reply) := Padded(p.writer, content, false, true, draw);
        Ok((Peer(r, w, p.request, p.payloadBytes + |content|), reply))
      else
        match HeaderExtent(content)
        case Err(e) => Err(BadRequest(e))
        case Ok(n) =>
          if n > |content| then Err(SliceOutOfRange)
          else
            match Parsed(content[..n])
            case Err(e) => Err(BadRequest(e))
            case Ok(request) =>
              if request.uuid != uuid then Err(WrongUuid)
              else
                var (w, reply) := Padded(p.writer, ResponseHeader() + content[n..], false, true, draw);
                Ok((Peer(r, w, Some(request), p.payloadBytes + |content| - n), reply))
  }

  function NewPeer(uuid: bytes): Peer { Peer(NewReader(uuid), Writer(Some(uuid), true), None, 0) }

  /** The peer's whole leg; `draw(k, i)` is the i-th draw for the k-th reply. */
  function AnsweredAll(p: Peer, uuid: bytes, records: seq<bytes>, draw: (nat, nat) -> u64, k: nat)
    : Result<(Peer, seq<bytes>), PeerError>
    requires Sound(p.reader)
    decreases |records|
  {
    if records == [] then Ok((p, []))
    else
      var (q, reply) :- Answered(p, uuid, records[0], i => draw(k, i));
      var (last, rest) :- AnsweredAll(q, uuid, records[1..], draw, k + 1);
      Ok((last, [reply] + rest))
  }

  /** A first record reads as a request of this identity: it unpads to a header that parses, and to this identity. */
  predicate ReadsAsRequest(uuid: bytes, record: bytes)
    requires |uuid| == 16
  {
    var content := Unpadded(NewReader(uuid), record).1;
    && content.Ok? && HeaderExtent(content.value).Ok?
    && var n := HeaderExtent(content.value).value;
       && n <= |content.value|
       && Parsed(content.value[..n]).Ok? && Parsed(content.value[..n]).value.uuid == uuid
  }

  /** Every record unpads in turn. */
  predicate UnpadsAll(r: Reader, records: seq<bytes>)
    requires Sound(r)
    decreases |records|
  {
    records == [] || (Unpadded(r, records[0]).1.Ok? && UnpadsAll(Unpadded(r, records[0]).0, records[1..]))
  }

  lemma {:induction false} LaterRecordsAccepted(p: Peer, uuid: bytes, records: seq<bytes>, draw: (nat, nat) -> u64,
                                                k: nat)
    requires Sound(p.reader) && p.request.Some?
    ensures AnsweredAll(p, uuid, records, draw, k).Ok? <==> UnpadsAll(p.reader, records)
    decreases |records|
  {
    hide Unpadded, HeaderExtent, Parsed, Padded;
    if records != [] && Unpadded(p.reader, records[0]).1.Ok? {
      var q := Answered(p, uuid, records[0], i => draw(k, i)).value.0;
      LaterRecordsAccepted(q, uuid, records[1..], draw, k + 1);
    }
  }

  /** What a new peer accepts: nothing at all, or a request of its identity and then records that unpad. */
  lemma RecordsAccepted(uuid: bytes, records: seq<bytes>, draw: (nat, nat) -> u64)
    requires |uuid| == 16
    ensures AnsweredAll(NewPeer(uuid), uuid, records, draw, 0).Ok? <==>
            || records == []
            || (ReadsAsRequest(uuid, records[0]) && UnpadsAll(Unpadded(NewReader(uuid), records[0]).0, records[1..]))
  {
    hide Unpadded, HeaderExtent, Parsed, Padded, UnpadsAll;
    if records != [] && ReadsAsRequest(uuid, records[0]) {
      var q := Answered(NewPeer(uuid), uuid, records[0], i => draw(0, i)).value.0;
      LaterRecordsAccepted(q, uuid, records[1..], draw, 1);
    }
  }

  /** Past both padding phases and the request, the peer echoes every record and counts its bytes. */
  lemma {:induction false} PeerEchoes(p: Peer, uuid: bytes, records: seq<bytes>, draw: (nat, nat) -> u64, k: nat)
    requires Sound(p.reader) && p.reader.phase.Direct? && !p.writer.padding && p.request.Some?
    ensures AnsweredAll(p, uuid, records, draw, k)
            == Ok((p.(payloadBytes := p.payloadBytes + |Flatten(records)|), records))
    decreases |records|
  {
    hide Answered;
    if records != [] {
      PeerEchoesOne(p, uuid, records[0], i => draw(k, i));
      PeerEchoes(p.(payloadBytes := p.payloadBytes + |records[0]|), uuid, records[1..], draw, k + 1);
      assert [records[0]] + records[1..] == records;
    }
  }

  lemma PeerEchoesOne(p: Peer, uuid: bytes, record: bytes, draw: nat -> u64)
    requires Sound(p.reader) && p.reader.phase.Direct? && !p.writer.padding && p.request.Some?
    ensures Answered(p, uuid, record, draw) == Ok((p.(payloadBytes := p.payloadBytes + |record|), record))
  {
    hide HeaderExtent, Parsed;
    DirectIsAbsorbing(p.reader, record);
  }

  // ---- the session ----

  datatype Session = Session(out: OutStream, peer: Peer, inn: InStream)

  predicate SoundSession(s: Session) { Sound(s.peer.reader) && Sound(s.inn.reader) }

  datatype Failure = PeerFailed(p: PeerError) | ClientFailed(v: VlessError)

  /** One payload out through the client, across the peer, and back in through the client. */
  function RoundTrip(s: Session, uuid: bytes, payload: bytes, there: nat -> u64, back: nat -> u64)
    : (r: Result<(Session, bytes), Failure>)
    requires SoundSession(s)
    ensures r.Ok? ==> SoundSession(r.value.0)
  {
    var (out, wire) := Wrapped(s.out, payload, there);
    match Answered(s.peer, uuid, wire, back)
    case Err(e) => Err(PeerFailed(e))
    case Ok((peer, reply)) =>
      var (inn, got) := Unwrapped(s.inn, reply);
      if got.Err? then Err(ClientFailed(got.error)) else Ok((Session(out, peer, inn), got.value))
  }

  /** All payloads in turn; `draw(k, i)` is the i-th random draw of the k-th padding call still to come. */
  function Exchange(s: Session, uuid: bytes, payloads: seq<bytes>, draw: (nat, nat) -> u64, k: nat)
    : (r: Result<(Session, seq<bytes>), Failure>)
    requires SoundSession(s)
    decreases |payloads|
  {
    if payloads == [] then Ok((s, []))
    else
      match RoundTrip(s, uuid, payloads[0], i => draw(2 * k, i), i => draw(2 * k + 1, i))
      case Err(e) => Err(e)
      case Ok((s1, got)) =>
        match Exchange(s1, uuid, payloads[1..], draw, k + 1)
        case Err(e) => Err(e)
        case Ok((s2, rest)) => Ok((s2, [got] + rest))
  }

  /** Both directions past their padding phase and the request known. */
  predicate Streaming(s: Session) {
    && SoundSession(s)
    && s.out.header.None? && !s.out.writer.padding
    && s.peer.reader.phase.Direct? && !s.peer.writer.padding && s.peer.request.Some?
    && s.inn.responseSeen && s.inn.reader.phase.Direct?
  }

  function Opening(uuid: bytes, flow: Option<bytes>, command: byte, address: Address, port: u16): Session {
    Session(OutStream(Some(HeaderBytes(uuid, flow, command, address, port)), Writer(Some(uuid), true)),
            NewPeer(uuid), InStream(false, NewReader(uuid)))
  }

  /** What a peer that parses a legal header learns. */
  function Request(uuid: bytes, flow: Option<bytes>, command: byte, address: Address, port: u16): ParsedRequest {
    var carried := CarriedDestination(command, address, port);
    ParsedRequest(uuid, CarriedFlow(flow), carried.0, carried.1, carried.2)
  }

  /** A header whose every field survives its encoding. */
  predicate LegalRequest(uuid: bytes, flow: Option<bytes>, command: byte, address: Address) {
    |uuid| == 16 && TypedFlow(flow) && TypedAddress(address) && FlowFits(flow) && DestinationFits(command, address)
  }

  lemma LegalHeaderBound(uuid: bytes, flow: Option<bytes>, command: byte, address: Address, port: u16)
    requires LegalRequest(uuid, flow, command, address)
    ensures 21 <= |HeaderBytes(uuid, flow, command, address, port)| <= 537
  {
    HeaderLayout(uuid, flow, command, address, port, []);
    Varint.EncodedLength(|AddonsBody(flow)|, 2);
  }

  /**
    * A record that unpads to a legal header and a payload: the header is split off exactly and every field comes back.
    */
  lemma AnswerToOpening(uuid: bytes, flow: Option<bytes>, command: byte, address: Address, port: u16, payload: bytes,
                        wire: bytes, back: nat -> u64)
    requires LegalRequest(uuid, flow, command, address)
    requires Unpadded(NewReader(uuid), wire).1 == Ok(HeaderBytes(uuid, flow, command, address, port) + payload)
    ensures var answer := Answered(NewPeer(uuid), uuid, wire, back);
            && answer.Ok?
            && answer.value.0.reader == Unpadded(NewReader(uuid), wire).0
            && answer.value.0.request == Some(Request(uuid, flow, command, address, port))
            && answer.value.0.payloadBytes == |payload|
            && (answer.value.0.writer, answer.value.1)
               == Padded(Writer(Some(uuid), true), ResponseHeader() + payload, false, true, back)
  {
    hide HeaderBytes, Padded, Unpadded;
    var header := HeaderBytes(uuid, flow, command, address, port);
    LegalHeaderBound(uuid, flow, command, address, port);
    ExtentInvertsBuild(uuid, flow, command, address, port, payload);
    assert (header + payload)[..|header|] == header + [] && (header + payload)[|header|..] == payload;
    ParseInvertsBuild(uuid, flow, command, address, port, []);
  }

  /** The peer's answer to the client's first record. */
  lemma FirstAnswer(uuid: bytes, flow: Option<bytes>, command: byte, address: Address, port: u16, payload: bytes,
                    there: nat -> u64, back: nat -> u64)
    requires LegalRequest(uuid, flow, command, address)
    ensures var wire := Wrapped(Opening(uuid, flow, command, address, port).out, payload, there).1;
            var answer := Answered(NewPeer(uuid), uuid, wire, back);
            && answer.Ok?
            && answer.value.0.request == Some(Request(uuid, flow, command, address, port))
            && answer.value.0.payloadBytes == |payload|
            && answer.value.0.reader.phase.Direct? && Sound(answer.value.0.reader)
            && (answer.value.0.writer, answer.value.1)
               == Padded(Writer(Some(uuid), true), ResponseHeader() + payload, false, true, back)
  {
    hide HeaderBytes, Answered;
    var header := HeaderBytes(uuid, flow, command, address, port);
    var wire := Wrapped(Opening(uuid, flow, command, address, port).out, payload, there).1;
    NewInStep(uuid);
    UnpadInvertsPad(Writer(Some(uuid), true), NewReader(uuid), header + payload, true, true, there);
    AnswerToOpening(uuid, flow, command, address, port, payload, wire, back);
  }

  lemma FirstRoundTrip(uuid: bytes, flow: Option<bytes>, command: byte, address: Address, port: u16, payload: bytes,
                       there: nat -> u64, back: nat -> u64)
    requires LegalRequest(uuid, flow, command, address)
    ensures var r := RoundTrip(Opening(uuid, flow, command, address, port), uuid, payload, there, back);
            && r.Ok? && r.value.1 == payload && Streaming(r.value.0)
            && r.value.0.peer.request == Some(Request(uuid, flow, command, address, port))
            && r.value.0.peer.payloadBytes == |payload|
  {
    hide HeaderBytes, Answered;
    FirstAnswer(uuid, flow, command, address, port, payload, there, back);
    NewInStep(uuid);
    UnpadInvertsPad(Writer(Some(uuid), true), NewReader(uuid), ResponseHeader() + payload, false, true, back);
    assert (ResponseHeader() + payload)[4..] == payload;
  }

  lemma LaterRoundTrip(s: Session, uuid: bytes, payload: bytes, there: nat -> u64, back: nat -> u64)
    requires Streaming(s)
    ensures var r := RoundTrip(s, uuid, payload, there, back);
            && r.Ok? && r.value.1 == payload && Streaming(r.value.0)
            && r.value.0.peer.request == s.peer.request
            && r.value.0.peer.payloadBytes == s.peer.payloadBytes + |payload|
  {
    DirectIsAbsorbing(s.peer.reader, payload);
    DirectIsAbsorbing(s.inn.reader, payload);
  }

  lemma {:induction false} StreamingExchange(s: Session, uuid: bytes, payloads: seq<bytes>, draw: (nat, nat) -> u64,
                                             k: nat)
    requires Streaming(s)
    ensures var r := Exchange(s, uuid, payloads, draw, k);
            && r.Ok? && r.value.1 == payloads
            && r.value.0.peer.request == s.peer.request
            && r.value.0.peer.payloadBytes == s.peer.payloadBytes + |Flatten(payloads)|
    decreases |payloads|
  {
    hide RoundTrip;
    if payloads != [] {
      LaterRoundTrip(s, uuid, payloads[0], i => draw(2 * k, i), i => draw(2 * k + 1, i));
      var s1 := RoundTrip(s, uuid, payloads[0], i => draw(2 * k, i), i => draw(2 * k + 1, i)).value.0;
      StreamingExchange(s1, uuid, payloads[1..], draw, k + 1);
      assert [payloads[0]] + payloads[1..] == payloads;
    }
  }

  /**
    * The session law: for every legal request, every list of payloads and every random draw, the peer
    * learns exactly the request and counts exactly the payload bytes, and the client gets back exactly
    * the payloads it sent, in order.
    */
  lemma SessionEchoesEveryPayload(uuid: bytes, flow: Option<bytes>, command: byte, address: Address, port: u16,
                                  payloads: seq<bytes>, draw: (nat, nat) -> u64)
    requires LegalRequest(uuid, flow, command, address)
    ensures var r := Exchange(Opening(uuid, flow, command, address, port), uuid, payloads, draw, 0);
            && r.Ok? && r.value.1 == payloads
            && (payloads != [] ==> r.value.0.peer.request == Some(Request(uuid, flow, command, address, port)))
            && r.value.0.peer.payloadBytes == |Flatten(payloads)|
  {
    hide RoundTrip, HeaderBytes;
    if payloads != [] {
      var s := Opening(uuid, flow, command, address, port);
      FirstRoundTrip(uuid, flow, command, address, port, payloads[0], i => draw(0, i), i => draw(1, i));
      var s1 := RoundTrip(s, uuid, payloads[0], i => draw(0, i), i => draw(1, i)).value.0;
      StreamingExchange(s1, uuid, payloads[1..], draw, 1);
      assert [payloads[0]] + payloads[1..] == payloads;
    }
  }

  /**
    * A full TUN read always fits one transport frame once wrapped and sealed: the first record of a stream
    * holds at most two Vision frames, and every later one is the payload itself.
    */
  lemma WrappedTunReadFitsAFrame(uuid: bytes, flow: Option<bytes>, command: byte, address: Address, port: u16,
                                 payload: bytes, draw: nat -> u64)
    requires LegalRequest(uuid, flow, command, address) && |payload| <= TUN_READ
    ensures var (later, first) := Wrapped(Opening(uuid, flow, command, address, port).out, payload, draw);
            && |first| <= 16 + 2 * (MAX_FRAME_BODY + 5) && |first| + TAG_LEN <= Transport.MAX_FRAME_LEN
            && forall p, d :: |p| <= TUN_READ ==>
                                Wrapped(later, p, d) == (later, p) && |p| + TAG_LEN <= Transport.MAX_FRAME_LEN
  {
    hide HeaderBytes;
    var header := HeaderBytes(uuid, flow, command, address, port);
    LegalHeaderBound(uuid, flow, command, address, port);
    var fs := Reshaped(header + payload, true, true, draw, 0);
    ReshapedShape(header + payload, true, true, draw, 0);
    FramesBytesBound(fs);
  }
}
