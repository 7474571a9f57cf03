/**
  * What the pump's outbound half writes: in every interleaving frames that read, in order, as the packets sent; and the
  * round trip of both halves through an honest server.
  */
module PumpOutbound {
  import opened Bytes
  import opened VlessStream
  import opened Pump
  import opened PumpTraces
  import opened PumpStreams
  import RequestHeader
  import Vision
  import VisionIo

  /** A stream end that has wrapped nothing yet. */
  predicate Unused(s: Option<OutStream>) {
    s.Some? ==>
      && s.value.header.Some? && s.value.writer.padding
      && s.value.writer.uuid.Some? && |s.value.writer.uuid.value| == 16
  }

  /**
    * The first record plaintext reads as request header and packet and ends the padding; in raw mode it is the packet.
    */
  predicate Carries(start: Option<OutStream>, plaintext: bytes, packet: bytes)
    requires Unused(start)
  {
    if start.None? then plaintext == packet
    else
      var (r, got) := Vision.Unpadded(Vision.NewReader(start.value.writer.uuid.value), plaintext);
      got == Ok(start.value.header.value + packet) && r.phase.Direct?
  }

  /** A stream end past its header and its padding. */
  predicate Settled(start: Option<OutStream>, s: Option<OutStream>) {
    if start.None? then s.None? else s.Some? && s.value.header.None? && !s.value.writer.padding
  }

  lemma FirstWrap(start: Option<OutStream>, packet: bytes, draw: nat -> u64)
    requires Unused(start)
    ensures var (s, w) := WrapOut(start, packet, draw); Carries(start, w, packet) && Settled(start, s)
  {
    if start.Some? {
      var writer := start.value.writer;
      var reader := Vision.NewReader(writer.uuid.value);
      assert VisionIo.InStep(writer, reader);
      VisionIo.UnpadInvertsPad(writer, reader, start.value.header.value + packet, true, true, draw);
    }
  }

  lemma LaterWrap(start: Option<OutStream>, s: Option<OutStream>, packet: bytes, draw: nat -> u64)
    requires Settled(start, s)
    ensures WrapOut(s, packet, draw) == (s, packet)
  {
  }

  /**
    * What wrapping does, whatever the server makes of it: `carries` holds of the first wrap, and that settles the
    * stream end.
    */
  ghost predicate WrapsWell(start: Option<OutStream>, carries: (bytes, bytes) -> bool) {
    forall packet, draw ::
      var (s, w) := WrapOut(start, packet, draw);
      carries(w, packet) && Settled(start, s)
  }

  /** The first frame a run writes: its header is there unless the wrap that carried it failed to seal. */
  predicate Opens(carries: (bytes, bytes) -> bool, lost: bool, plaintext: bytes, packet: bytes) {
    if lost then plaintext == packet else carries(plaintext, packet)
  }

  predicate InHand(o: OutSide) { o.half.Loop? && (o.half.at.Sealing? || o.half.at.Writing?) }

  predicate Broken(o: OutSide) { o.half.Loop? && (o.half.at.Unwritten? || o.half.at.OutHalting?) }

  /** The frames written carry their packets, and the stream end and the packet in hand go on from there. */
  predicate Readable(o: OutSide, start: Option<OutStream>, carries: (bytes, bytes) -> bool) {
    && (o.sent != [] ==> Opens(carries, o.firstSealFailed, o.sent[0].plaintext, o.sent[0].packet))
    && (forall k | 1 <= k < |o.sent| :: o.sent[k].plaintext == o.sent[k].packet)
    && (o.half.Idle? ==> o.stream == start && !o.firstSealFailed)
    && (InHand(o) ==>
          && Settled(start, o.stream)
          && if o.sent == [] then Opens(carries, o.firstSealFailed, o.half.at.plaintext, o.half.at.p)
             else o.half.at.plaintext == o.half.at.p)
    && (o.half.Loop? && !InHand(o) && !Broken(o) ==>
          if o.sent == [] && !o.firstSealFailed then o.stream == start else Settled(start, o.stream))
  }

  lemma WrapReadable(o: OutSide, start: Option<OutStream>, carries: (bytes, bytes) -> bool, blockIpv6: bool, stop: bool,
                     seqOut: nat, e: Event)
    requires WrapsWell(start, carries) && o.half.Loop? && o.half.at.Counted? && Readable(o, start, carries)
    ensures Readable(OutStep(o, blockIpv6, stop, seqOut, e).side, start, carries)
  {
    hide IpVersion, WrapOut, Settled;
    var (s, w) := WrapOut(start, o.half.at.p, DrawOf(e));
    assert carries(w, o.half.at.p) && Settled(start, s);
    if o.sent != [] || o.firstSealFailed { LaterWrap(start, o.stream, o.half.at.p, DrawOf(e)); }
  }

  lemma WriteReadable(o: OutSide, start: Option<OutStream>, carries: (bytes, bytes) -> bool, blockIpv6: bool,
                      stop: bool,
                      seqOut: nat, e: Event)
    requires o.half.Loop? && o.half.at.Writing? && Readable(o, start, carries)
    ensures Readable(OutStep(o, blockIpv6, stop, seqOut, e).side, start, carries)
  {
    hide Opens, Settled, WrapOut;
  }

  lemma OutStepReadable(o: OutSide, start: Option<OutStream>, carries: (bytes, bytes) -> bool, blockIpv6: bool,
                        stop: bool, seqOut: nat, e: Event)
    requires WrapsWell(start, carries) && o.half.Loop? && Readable(o, start, carries)
    ensures Readable(OutStep(o, blockIpv6, stop, seqOut, e).side, start, carries)
  {
    hide IpVersion, WrapOut, Opens, WrapsWell, Logged, DrawOf, Settled;
    if o.half.at.Counted? {
      WrapReadable(o, start, carries, blockIpv6, stop, seqOut, e);
    } else if o.half.at.Writing? {
      WriteReadable(o, start, carries, blockIpv6, stop, seqOut, e);
    } else {
      RestReadable(o, blockIpv6, stop, seqOut, e);
      hide OutStep;
    }
  }

  /**
    * The other steps leave frames and stream end alone; only a failed seal is remembered, and only a good one keeps the
    * packet in hand.
    */
  lemma RestReadable(o: OutSide, blockIpv6: bool, stop: bool, seqOut: nat, e: Event)
    requires o.half.Loop? && !o.half.at.Counted? && !o.half.at.Writing?
    ensures var x := OutStep(o, blockIpv6, stop, seqOut, e).side;
            && x.sent == o.sent && x.stream == o.stream && !x.half.Idle?
            && x.firstSealFailed == (o.firstSealFailed || (o.half.at.Sealing? && !e.Good? && o.sent == []))
            && (InHand(x) ==>
                  && o.half.at.Sealing? && e.Good?
                  && x.half.at.plaintext == o.half.at.plaintext && x.half.at.p == o.half.at.p)
            && (Broken(o) ==> x.half.Loop? ==> Broken(x))
  {
    hide IpVersion, WrapOut, Logged, DrawOf;
  }

  lemma RunStepReadable(opens: (nat, bytes) -> Option<bytes>, sh: Shared, r: Run, id: nat, t: Thread, e: Event,
                        carries: (bytes, bytes) -> bool)
    requires WrapsWell(r.cfg.out, carries) && Readable(r.out, r.cfg.out, carries) && RunOk(r)
    ensures Readable(RunStep(opens, sh, r, id, t, e).1.out, r.cfg.out, carries)
  {
    hide OutStep, InStep, InOk, HaltSocket, Opens, Settled, WrapsWell, Conserved, Shielded;
    if t.Outbound? && r.out.half.Loop? {
      OutStepReadable(r.out, r.cfg.out, carries, r.cfg.blockIpv6, sh.stop, sh.seqOut, e);
    }
  }

  lemma NewRunReadable(cfg: Config, carries: (bytes, bytes) -> bool)
    ensures Readable(NewRun(cfg).out, cfg.out, carries)
  {
  }

  lemma {:induction false} AfterReadable(opens: (nat, nat, bytes) -> Option<bytes>, s: State, actions: seq<Action>,
                                         id: nat, start: Option<OutStream>, carries: (bytes, bytes) -> bool)
    requires Inv(s) && WrapsWell(start, carries)
    requires id in s.runs && s.runs[id].cfg.out == start ==> Readable(s.runs[id].out, start, carries)
    ensures var t := After(opens, s, actions);
            id in t.runs && t.runs[id].cfg.out == start ==> Readable(t.runs[id].out, start, carries)
    decreases |actions|
  {
    hide Readable, WrapsWell, RunStep, RunOk, Busy, Linked;
    if actions != [] {
      var a := actions[0];
      NextKeepsInv(opens, s, a);
      if id in s.runs && a.Step? && a.id == id {
        RunStepKeepsConfig((n, f) => opens(id, n, f), s.sh, s.runs[id], id, a.t, a.e);
        if s.runs[id].cfg.out == start {
          RunStepReadable((n, f) => opens(id, n, f), s.sh, s.runs[id], id, a.t, a.e, carries);
        }
      } else if a.CallStart? {
        NewRunReadable(a.cfg, carries);
      }
      AfterReadable(opens, Next(opens, s, a), actions[1..], id, start, carries);
    }
  }

  /** The relation the first frame stands in, as a value. */
  function CarriesOf(start: Option<OutStream>): (bytes, bytes) -> bool
    requires Unused(start)
  {
    (plaintext: bytes, packet: bytes) => Carries(start, plaintext, packet)
  }

  lemma StartWrapsWell(start: Option<OutStream>)
    requires Unused(start)
    ensures WrapsWell(start, CarriesOf(start))
  {
    hide WrapOut, Carries, Settled, Unused;
    forall packet, draw
      ensures var (s, w) := WrapOut(start, packet, draw); CarriesOf(start)(w, packet) && Settled(start, s)
    {
      FirstWrap(start, packet, draw);
    }
  }

  /**
    * In every interleaving the frames a run wrote read in order as its packets: the first carries request header
    * and packet and ends the padding exactly if the wrap that took the header was sealed, and is otherwise the
    * bare packet; each later one is its packet, whatever seals failed in between. In raw mode every frame is its
    * packet.
    */
  lemma WrittenFramesCarryThePackets(opens: (nat, nat, bytes) -> Option<bytes>, actions: seq<Action>, id: nat)
    requires id in After(opens, INITIAL, actions).runs && Unused(After(opens, INITIAL, actions).runs[id].cfg.out)
    ensures var r := After(opens, INITIAL, actions).runs[id];
            && (r.out.sent != [] && !r.out.firstSealFailed ==>
                  Carries(r.cfg.out, r.out.sent[0].plaintext, r.out.sent[0].packet))
            && (r.out.sent != [] && r.out.firstSealFailed ==> r.out.sent[0].plaintext == r.out.sent[0].packet)
            && (forall k | 1 <= k < |r.out.sent| :: r.out.sent[k].plaintext == r.out.sent[k].packet)
            && (r.out.sent != [] && r.cfg.out.Some? && r.cfg.out.value.header.value != [] ==>
                  (Carries(r.cfg.out, r.out.sent[0].plaintext, r.out.sent[0].packet) <==> !r.out.firstSealFailed))
  {
    hide After, Carries;
    InitialInv();
    var r := After(opens, INITIAL, actions).runs[id];
    StartWrapsWell(r.cfg.out);
    AfterReadable(opens, INITIAL, actions, id, r.cfg.out, CarriesOf(r.cfg.out));
    if r.out.sent != [] && r.cfg.out.Some? && r.cfg.out.value.header.value != [] {
      BareNeverCarries(r.cfg.out, r.out.sent[0].packet);
    }
  }

  /** A bare packet never reads as header and packet: reading never lengthens. */
  lemma BareNeverCarries(start: Option<OutStream>, packet: bytes)
    requires Unused(start) && start.Some? && start.value.header.value != []
    ensures !Carries(start, packet, packet)
  {
    assert |start.value.header.value + packet| > |packet|;
  }

  /**
    * Without its header a stream is refused on its first record, unless that packet happens to start with the identity.
    */
  lemma BareFirstRecordIsRefused(uuid: bytes, packet: bytes, draw: nat -> u64)
    requires |uuid| == 16 && (|packet| < 21 || packet[..16] != uuid)
    ensures Answered(NewPeer(uuid), uuid, packet, draw).Err?
  {
  }

  // ---- the round trip through an honest server ----

  function Packets(sent: seq<Sent>): (r: seq<bytes>)
    ensures |r| == |sent| && forall k | 0 <= k < |r| :: r[k] == sent[k].packet
  {
    seq(|sent|, k requires 0 <= k < |sent| => sent[k].packet)
  }

  function Plaintexts(sent: seq<Sent>): (r: seq<bytes>)
    ensures |r| == |sent| && forall k | 0 <= k < |r| :: r[k] == sent[k].plaintext
  {
    seq(|sent|, k requires 0 <= k < |sent| => sent[k].plaintext)
  }

  /** A start with the profile's VLESS request, as `start` builds its two stream ends. */
  predicate VlessConfig(cfg: Config, uuid: bytes, flow: Option<bytes>, command: byte, address: RequestHeader.Address,
                        port: u16)
    requires LegalRequest(uuid, flow, command, address)
  {
    && cfg.out == Some(Opening(uuid, flow, command, address, port).out)
    && cfg.inn == Some(Opening(uuid, flow, command, address, port).inn)
  }

  /** The replies to a list of readable records: the first behind a response header, the later ones echoed. */
  lemma RepliesToReadable(uuid: bytes, flow: Option<bytes>, command: byte, address: RequestHeader.Address, port: u16,
                          sent: seq<Sent>, draw: (nat, nat) -> u64)
    requires LegalRequest(uuid, flow, command, address) && sent != []
    requires Carries(Some(Opening(uuid, flow, command, address, port).out), sent[0].plaintext, sent[0].packet)
    requires forall k | 1 <= k < |sent| :: sent[k].plaintext == sent[k].packet
    ensures var r := AnsweredAll(NewPeer(uuid), uuid, Plaintexts(sent), draw, 0);
            && r.Ok? && |r.value.1| == |sent|
            && r.value.0.request == Some(Request(uuid, flow, command, address, port))
            && r.value.0.payloadBytes == |Flatten(Packets(sent))|
            && r.value.1[0] == VisionIo.Padded(VisionIo.Writer(Some(uuid), true),
                                               RequestHeader.ResponseHeader() + sent[0].packet, false, true,
                                               i => draw(0, i)).1
            && forall k | 1 <= k < |sent| :: r.value.1[k] == sent[k].packet
  {
    hide Answered, Request, RequestHeader.HeaderBytes;
    var p, ps := Plaintexts(sent), Packets(sent);
    AnswerToOpening(uuid, flow, command, address, port, sent[0].packet, p[0], i => draw(0, i));
    var q := Answered(NewPeer(uuid), uuid, p[0], i => draw(0, i)).value.0;
    assert p[1..] == ps[1..];
    PeerEchoes(q, uuid, p[1..], draw, 1);
    assert Flatten(ps) == ps[0] + Flatten(ps[1..]);
  }

  /**
    * The tunnel law under every schedule. A run started with any legal request, against the honest server's
    * VLESS leg, in every interleaving whose first wrap is sealed: the server reads the frames written as exactly the
    * request and the packets; and whatever frames arrive in turn, as long as only the server's replies open, each
    * at its number, the packets delivered to the TUN are a prefix of the packets sent.
    */
  lemma EchoesReachTheTunInOrder(opens: (nat, nat, bytes) -> Option<bytes>, actions: seq<Action>, id: nat,
                                 uuid: bytes, flow: Option<bytes>, command: byte, address: RequestHeader.Address,
                                 port: u16,
                                 draw: (nat, nat) -> u64)
    requires LegalRequest(uuid, flow, command, address)
    requires id in After(opens, INITIAL, actions).runs
    requires var r := After(opens, INITIAL, actions).runs[id];
             VlessConfig(r.cfg, uuid, flow, command, address, port) && !r.out.firstSealFailed && r.out.sent != []
    ensures var r := After(opens, INITIAL, actions).runs[id];
            var served := AnsweredAll(NewPeer(uuid), uuid, Plaintexts(r.out.sent), draw, 0);
            && served.Ok?
            && served.value.0.request == Some(Request(uuid, flow, command, address, port))
            && served.value.0.payloadBytes == |Flatten(Packets(r.out.sent))|
            && (Authentic((n, f) => opens(id, n, f), Arrivals(actions, id), Numbered(served.value.1, r.cfg.firstIn)) ==>
                  r.inn.delivered <= Packets(r.out.sent))
  {
    hide After, Carries, RequestHeader.HeaderBytes, AnsweredAll, Request, StreamAt, PayloadAt, Fluent,
         ReplaysFail;
    var r := After(opens, INITIAL, actions).runs[id];
    var sent, first := r.out.sent, r.cfg.firstIn;
    assert Unused(r.cfg.out);
    WrittenFramesCarryThePackets(opens, actions, id);
    RepliesToReadable(uuid, flow, command, address, port, sent, draw);
    var replies := AnsweredAll(NewPeer(uuid), uuid, Plaintexts(sent), draw, 0).value.1;
    HonestStreamIsFluent(uuid, sent[0].packet, i => draw(0, i), replies, first);
    FluentReplaysFail(r.cfg.inn, Numbered(replies, first), first);
    if Authentic((n, f) => opens(id, n, f), Arrivals(actions, id), Numbered(replies, first)) {
      DeliveriesAreInOrder(opens, actions, id, Numbered(replies, first));
      PrefixOfReplies(r.inn.delivered, r.cfg.inn, sent, replies, first);
    }
  }

  lemma PrefixOfReplies(delivered: seq<bytes>, start: Option<Inbound>, sent: seq<Sent>, replies: seq<bytes>, first: nat)
    requires |replies| == |sent| && sent != []
    requires forall k | 1 <= k < |sent| :: replies[k] == sent[k].packet
    requires var records := Numbered(replies, first);
             && PayloadAt(start, records, first, 0) == Some(sent[0].packet)
             && (forall k: nat | k >= 1 :: PayloadAt(start, records, first, k) == records(first + k))
             && (forall k | 0 <= k < |delivered| :: PayloadAt(start, records, first, k) == Some(delivered[k]))
    ensures delivered <= Packets(sent)
  {
    hide PayloadAt;
    var records := Numbered(replies, first);
    forall k | 0 <= k < |delivered| ensures k < |sent| && delivered[k] == sent[k].packet {
      assert PayloadAt(start, records, first, k) == Some(delivered[k]);
    }
    assert delivered != [] ==> |delivered| - 1 < |sent| && delivered[|delivered| - 1] == sent[|delivered| - 1].packet;
  }
}
