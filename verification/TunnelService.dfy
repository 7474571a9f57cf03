/**
  * The tunnel over the record layer: a whole session of probes and one pump run, in every interleaving of the
  * pump's threads, against the honest server's record loop from its first record on.
  */
module TunnelService {
  import opened Bytes
  import opened Primitives
  import opened Handshake
  import opened TunnelSession
  import HonestPeer
  import VlessStream
  import RequestHeader
  import Vision
  import Pump
  import PumpFates
  import PumpStreams
  import PumpOutbound
  import RealityReference
  import PumpTraces

  // ---- what the pump opens and seals with ----

  /** What the pump's inbound half opens with: the session's receive key, at numbers that fit the nonce. */
  function Opener(c: Primitives, keys: RecordKeys, sid: bytes): (nat, bytes) -> Option<bytes>
    requires Lawful(c)
  {
    (n: nat, f: bytes) => if n < TWO_TO_THE_64 then OpenRecord(c, Some(keys), sid, n, f) else None
  }

  /**
    * No forgery: of the frames that arrive, none opens at a number under the receive key but the server's one record of
    * that number.
    */
  ghost predicate OnlyTheServerSeals(c: Primitives, keys: RecordKeys, sid: bytes, frames: set<bytes>,
                                     records: nat -> Option<bytes>)
    requires Lawful(c)
  {
    forall n: u64, f | f in frames ::
      OpenRecord(c, Some(keys), sid, n, f).Some? ==>
        records(n).Some? && f == HonestPeer.ServerSeal(c, RecordKeys(keys.recv, keys.send), sid, n, records(n).value)
  }

  /** Without forgery, what arrives and opens at a number is the server's record of that number. */
  lemma OpenerIsAuthentic(c: Primitives, keys: RecordKeys, sid: bytes, opens: (nat, bytes) -> Option<bytes>,
                          frames: set<bytes>,
                          records: nat -> Option<bytes>)
    requires Lawful(c) && OnlyTheServerSeals(c, keys, sid, frames, records)
    requires forall n, f :: opens(n, f) == Opener(c, keys, sid)(n, f)
    ensures PumpStreams.Authentic(opens, frames, records)
  {
    hide DeriveNonce;
    forall n: nat, f | f in frames && opens(n, f).Some?
      ensures opens(n, f) == records(n)
    {
      assert OpenRecord(c, Some(keys), sid, n, f).Some?;
      HonestPeer.RecordsCross(c, keys, RecordKeys(keys.recv, keys.send), sid, n, records(n).value);
    }
  }

  /** The frames a run put on the wire: each plaintext sealed at the number it was given. */
  function Frames(c: Primitives, keys: RecordKeys, sid: bytes, sent: seq<Pump.Sent>): (r: seq<bytes>)
    requires Lawful(c) && forall k | 0 <= k < |sent| :: sent[k].seqno < TWO_TO_THE_64
    ensures |r| == |sent|
  {
    seq(|sent|, k requires 0 <= k < |sent| => SealRecord(c, Some(keys), sid, sent[k].seqno, sent[k].plaintext).value)
  }

  lemma {:induction false} FramesInOrder(c: Primitives, keys: RecordKeys, sid: bytes, sent: seq<Pump.Sent>, first: nat)
    requires Lawful(c) && Pump.Contiguous(sent, first) && HonestPeer.Bounded(first + |sent|)
    ensures Frames(c, keys, sid, sent) == HonestPeer.ClientRecords(c, keys, sid, first, PumpOutbound.Plaintexts(sent))
    decreases |sent|
  {
    hide SealRecord;
    var p := PumpOutbound.Plaintexts(sent);
    if sent != [] {
      FramesInOrder(c, keys, sid, sent[1..], first + 1);
      assert p[1..] == PumpOutbound.Plaintexts(sent[1..]);
      var all := Frames(c, keys, sid, sent);
      assert all == [all[0]] + Frames(c, keys, sid, sent[1..]);
    }
  }

  // ---- one run against a server loop ----

  /**
    * The honest server's loop, expecting these numbers, accepts the run's frames one and all, and seals the replies in
    * turn.
    */
  predicate LoopServes(c: Primitives, client: RecordKeys, server: RecordKeys, sid: bytes, uuid: bytes, r: Pump.Run,
                       draw: (nat, nat) -> u64, peer: VlessStream.Peer, replies: seq<bytes>)
    requires Lawful(c) && |uuid| == 16
  {
    var n := |r.out.sent|;
    && |replies| == n && HonestPeer.Bounded(r.cfg.firstOut + n) && HonestPeer.Bounded(r.cfg.firstIn + n)
    && (forall k | 0 <= k < n :: r.out.sent[k].seqno < TWO_TO_THE_64)
    && HonestPeer.ServedAll(c, server, sid, uuid,
                            HonestPeer.ServerLoop(r.cfg.firstOut, r.cfg.firstIn, Some(VlessStream.NewPeer(uuid))),
                            Frames(c, client, sid, r.out.sent), draw, 0)
       == Ok((HonestPeer.ServerLoop(r.cfg.firstOut + n, r.cfg.firstIn + n, Some(peer)),
              HonestPeer.ServerRecords(c, server, sid, r.cfg.firstIn, replies)))
  }

  lemma LoopServesRun(c: Primitives, client: RecordKeys, server: RecordKeys, sid: bytes, uuid: bytes, r: Pump.Run,
                      draw: (nat, nat) -> u64)
    requires Lawful(c) && HonestPeer.Mirrored(client, server) && |uuid| == 16
    requires Pump.Contiguous(r.out.sent, r.cfg.firstOut)
    requires HonestPeer.Bounded(r.cfg.firstOut + |r.out.sent|) && HonestPeer.Bounded(r.cfg.firstIn + |r.out.sent|)
    requires VlessStream.AnsweredAll(VlessStream.NewPeer(uuid), uuid, PumpOutbound.Plaintexts(r.out.sent), draw, 0).Ok?
    ensures var served := VlessStream.AnsweredAll(VlessStream.NewPeer(uuid), uuid, PumpOutbound.Plaintexts(r.out.sent),
                                                  draw, 0).value;
            LoopServes(c, client, server, sid, uuid, r, draw, served.0, served.1)
  {
    hide VlessStream.AnsweredAll, HonestPeer.ServedAll, HonestPeer.ServerRecords, HonestPeer.ClientRecords, Frames;
    var plaintexts := PumpOutbound.Plaintexts(r.out.sent);
    FramesInOrder(c, client, sid, r.out.sent, r.cfg.firstOut);
    HonestPeer.LoopAnswers(c, client, server, sid, uuid,
                           HonestPeer.ServerLoop(r.cfg.firstOut, r.cfg.firstIn, Some(VlessStream.NewPeer(uuid))),
                           plaintexts, draw, 0);
  }

  /** The inbound half opens with the session's receive key. */
  ghost predicate OpensWith(opens: (nat, nat, bytes) -> Option<bytes>, id: nat, c: Primitives, keys: RecordKeys,
                            sid: bytes)
    requires Lawful(c)
  {
    forall n, f :: opens(id, n, f) == Opener(c, keys, sid)(n, f)
  }

  lemma VlessRunIsServed(c: Primitives, client: RecordKeys, server: RecordKeys, sid: bytes,
                         opens: (nat, nat, bytes) -> Option<bytes>, actions: seq<Pump.Action>, id: nat,
                         p: Profile, draw: (nat, nat) -> u64, r: Pump.Run)
    requires Lawful(c) && HonestPeer.Mirrored(client, server) && OpensWith(opens, id, c, client, sid)
    requires id in Pump.After(opens, Pump.INITIAL, actions).runs
             && r == Pump.After(opens, Pump.INITIAL, actions).runs[id]
    requires Legal(p) && PumpOutbound.VlessConfig(r.cfg, p.uuid, p.flow, p.command, p.address, p.port)
    requires !r.out.firstSealFailed && r.out.sent != []
    requires HonestPeer.Bounded(r.cfg.firstOut + |r.out.sent|) && HonestPeer.Bounded(r.cfg.firstIn + |r.out.sent|)
    ensures var served := VlessStream.AnsweredAll(VlessStream.NewPeer(p.uuid), p.uuid,
                                                  PumpOutbound.Plaintexts(r.out.sent), draw, 0);
            && served.Ok? && LoopServes(c, client, server, sid, p.uuid, r, draw, served.value.0, served.value.1)
            && served.value.0.request == Some(VlessStream.Request(p.uuid, p.flow, p.command, p.address, p.port))
            && served.value.0.payloadBytes == |Flatten(PumpOutbound.Packets(r.out.sent))|
            && (OnlyTheServerSeals(c, client, sid, PumpTraces.Arrivals(actions, id),
                                   PumpStreams.Numbered(served.value.1, r.cfg.firstIn)) ==>
                  r.inn.delivered <= PumpOutbound.Packets(r.out.sent))
  {
    hide Pump.After, VlessStream.AnsweredAll, VlessStream.Request, OnlyTheServerSeals, Opener, PumpStreams.Authentic,
         PumpTraces.Arrivals,
         LoopServes, PumpOutbound.VlessConfig, PumpStreams.Numbered;
    Pump.EveryRunIsOrderly(opens, actions, id);
    PumpOutbound.EchoesReachTheTunInOrder(opens, actions, id, p.uuid, p.flow, p.command, p.address, p.port, draw);
    LoopServesRun(c, client, server, sid, p.uuid, r, draw);
    var replies := VlessStream.AnsweredAll(VlessStream.NewPeer(p.uuid), p.uuid, PumpOutbound.Plaintexts(r.out.sent),
                                           draw, 0).value.1;
    var records := PumpStreams.Numbered(replies, r.cfg.firstIn);
    if OnlyTheServerSeals(c, client, sid, PumpTraces.Arrivals(actions, id), records) {
      OpenerIsAuthentic(c, client, sid, (n, f) => opens(id, n, f), PumpTraces.Arrivals(actions, id), records);
    }
  }

  // ---- a whole session ----

  predicate Legal(p: Profile) { VlessStream.LegalRequest(p.uuid, p.flow, p.command, p.address) }

  /** The probe frames of a session, as frames written. */
  function ProbesSent(log: seq<nat>): (r: seq<Pump.Sent>)
    ensures |r| == |log| && forall k | 0 <= k < |r| :: r[k] == Pump.Sent(log[k], Probe(), Probe())
  {
    seq(|log|, k requires 0 <= k < |log| => Pump.Sent(log[k], Probe(), Probe()))
  }

  /** Everything a session wrote: its probes, then its run. */
  function WrittenIn(s: Session, r: Pump.Run): seq<Pump.Sent> { ProbesSent(s.log) + r.out.sent }

  /** A session from teardown: connected, completed, probed, with the run its pump start began. */
  ghost predicate InSession(opens: (nat, nat, bytes) -> Option<bytes>, actions: seq<Pump.Action>, id: nat, p: Profile,
                            worlds: seq<World>,
                            probeOpens: (nat, bytes) -> Option<bytes>, s: Session, r: Pump.Run) {
    && s == ProbedAll(Ready(TORN_DOWN, p), worlds, probeOpens)
    && id in Pump.After(opens, Pump.INITIAL, actions).runs && r == Pump.After(opens, Pump.INITIAL, actions).runs[id]
    && GivenBy(s, r.cfg)
  }

  lemma SessionInOrder(opens: (nat, nat, bytes) -> Option<bytes>, actions: seq<Pump.Action>, id: nat, p: Profile,
                       worlds: seq<World>,
                       probeOpens: (nat, bytes) -> Option<bytes>, s: Session, r: Pump.Run)
    requires InSession(opens, actions, id, p, worlds, probeOpens, s, r)
    ensures Pump.Contiguous(WrittenIn(s, r), 0) && s.nextOut == |s.log| && s.nextIn <= |s.log| && s.profile == Some(p)
    ensures r.cfg.firstOut == s.nextOut && r.cfg.firstIn == s.nextIn
  {
    hide Pump.After, Probed, ProbedAll, Probe, GivenBy;
    GivenCounters(s, r.cfg);
    ProbesCount(Ready(TORN_DOWN, p), worlds, probeOpens, 0, 0);
    Pump.EveryRunIsOrderly(opens, actions, id);
  }

  /** The probe's sixteen first bytes and the five that would be a frame header. */
  lemma ProbeBytes()
    ensures |Probe()| == 24 && U16(Probe()[17], Probe()[18]) == 25901
  {
    U16Value(Probe()[17], Probe()[18]);
  }

  /** The honest VLESS peer refuses the probe as its first record, whatever its identity. */
  lemma ProbeIsRefused(uuid: bytes, draw: nat -> u64)
    requires |uuid| == 16
    ensures VlessStream.Answered(VlessStream.NewPeer(uuid), uuid, Probe(), draw).Err?
  {
    ProbeBytes();
    if Probe()[..16] != uuid {
      hide Probe;
      PumpOutbound.BareFirstRecordIsRefused(uuid, Probe(), draw);
    } else {
      hide Probe, Vision.Feed, U16;
      var r := Vision.NewReader(uuid).(phase := Vision.Header, within := true, first := false);
      var w := Probe()[16..];
      assert w == w[..5] + w[5..];
      Vision.FeedHeader(r, w[..5]);
      Vision.FeedConcat(r, w[..5], w[5..]);
    }
  }

  lemma RefusedFirst(uuid: bytes, records: seq<bytes>, draw: (nat, nat) -> u64)
    requires |uuid| == 16 && records != [] && records[0] == Probe()
    ensures VlessStream.AnsweredAll(VlessStream.NewPeer(uuid), uuid, records, draw, 0).Err?
  {
    hide VlessStream.Answered, Probe;
    ProbeIsRefused(uuid, i => draw(0, i));
  }

  /** The server's loop over everything a session wrote, from its first record on. */
  function SessionServed(c: Primitives, client: RecordKeys, server: RecordKeys, sid: bytes, uuid: bytes,
                         vless: Option<VlessStream.Peer>,
                         written: seq<Pump.Sent>, draw: (nat, nat) -> u64)
    : Result<(HonestPeer.ServerLoop, seq<bytes>), HonestPeer.LoopError>
    requires Lawful(c) && Pump.Contiguous(written, 0) && HonestPeer.Bounded(|written|)
    requires vless.Some? ==> Vision.Sound(vless.value.reader)
  {
    HonestPeer.ServedAll(c, server, sid, uuid, HonestPeer.ServerLoop(0, 0, vless), Frames(c, client, sid, written),
                         draw, 0)
  }

  /** The loop over a session's frames is the VLESS leg over their plaintexts. */
  lemma SessionAnswered(c: Primitives, client: RecordKeys, server: RecordKeys, sid: bytes, uuid: bytes,
                        written: seq<Pump.Sent>,
                        draw: (nat, nat) -> u64)
    requires Lawful(c) && HonestPeer.Mirrored(client, server) && |uuid| == 16
    requires Pump.Contiguous(written, 0) && HonestPeer.Bounded(|written|)
    ensures var peer := VlessStream.NewPeer(uuid);
            var answered := VlessStream.AnsweredAll(peer, uuid, PumpOutbound.Plaintexts(written), draw, 0);
            var served := SessionServed(c, client, server, sid, uuid, Some(peer), written, draw);
            && (served.Ok? <==> answered.Ok?)
            && (served.Ok? ==> |answered.value.1| == |written|
                               && served.value.0 == HonestPeer.ServerLoop(|written|, |written|, Some(answered.value.0))
                               && served.value.1 == HonestPeer.ServerRecords(c, server, sid, 0, answered.value.1))
  {
    hide VlessStream.AnsweredAll, HonestPeer.ServedAll, HonestPeer.ServerRecords, HonestPeer.ClientRecords, Frames;
    FramesInOrder(c, client, sid, written, 0);
    HonestPeer.LoopAnswers(c, client, server, sid, uuid, HonestPeer.ServerLoop(0, 0, Some(VlessStream.NewPeer(uuid))),
                           PumpOutbound.Plaintexts(written), draw, 0);
  }

  /** The header is on its way: nothing written at all, or the wrap that took it was sealed. */
  predicate HeaderSent(r: Pump.Run) { r.out.sent == [] || !r.out.firstSealFailed }

  /** The packets of a run that lost its header read, by chance, as a request of this identity and its stream. */
  predicate ReadByChance(r: Pump.Run, uuid: bytes)
    requires |uuid| == 16
  {
    && r.out.sent != [] && VlessStream.ReadsAsRequest(uuid, r.out.sent[0].packet)
    && VlessStream.UnpadsAll(Vision.Unpadded(Vision.NewReader(uuid), r.out.sent[0].packet).0,
                             PumpOutbound.Packets(r.out.sent)[1..])
  }

  lemma BareRunAccepted(opens: (nat, nat, bytes) -> Option<bytes>, actions: seq<Pump.Action>, id: nat, p: Profile,
                        r: Pump.Run, draw: (nat, nat) -> u64)
    requires id in Pump.After(opens, Pump.INITIAL, actions).runs
    requires r == Pump.After(opens, Pump.INITIAL, actions).runs[id]
    requires PumpOutbound.Unused(r.cfg.out) && !HeaderSent(r)
    ensures var plaintexts := PumpOutbound.Plaintexts(r.out.sent);
            VlessStream.AnsweredAll(VlessStream.NewPeer(p.uuid), p.uuid, plaintexts, draw, 0).Ok?
            <==> ReadByChance(r, p.uuid)
  {
    hide Pump.After, PumpOutbound.Unused, PumpOutbound.Carries, VlessStream.AnsweredAll, VlessStream.ReadsAsRequest,
         VlessStream.UnpadsAll, Vision.Unpadded;
    PumpOutbound.WrittenFramesCarryThePackets(opens, actions, id);
    assert PumpOutbound.Plaintexts(r.out.sent) == PumpOutbound.Packets(r.out.sent);
    VlessStream.RecordsAccepted(p.uuid, PumpOutbound.Plaintexts(r.out.sent), draw);
  }

  /** Which takes a first packet that begins with the identity. */
  lemma ReadByChanceStartsWithIdentity(r: Pump.Run, uuid: bytes)
    requires |uuid| == 16 && ReadByChance(r, uuid)
    ensures |r.out.sent[0].packet| >= 21 && r.out.sent[0].packet[..16] == uuid
  {
  }

  /** The server accepts the session exactly if no probe was written and the header was sent or is read by chance. */
  ghost predicate AcceptedExactly(c: Primitives, client: RecordKeys, server: RecordKeys, sid: bytes, p: Profile,
                                  s: Session, r: Pump.Run, draw: (nat, nat) -> u64)
    requires Lawful(c)
  {
    && Pump.Contiguous(WrittenIn(s, r), 0) && HonestPeer.Bounded(|WrittenIn(s, r)|)
    && var served := SessionServed(c, client, server, sid, p.uuid, Some(VlessStream.NewPeer(p.uuid)), WrittenIn(s, r),
                                   draw);
       served.Ok? <==> s.log == [] && (HeaderSent(r) || ReadByChance(r, p.uuid))
  }

  /**
    * A VLESS session from teardown, with any probes and one pump run in any interleaving, against the honest server
    * from its first record on: the server accepts the session's frames if and only if no probe frame was written before
    * the run, and the run's header was not lost to a failed seal or its packets read by chance as such a stream.
    */
  lemma VlessSessionAccepted(c: Primitives, client: RecordKeys, server: RecordKeys, sid: bytes,
                             opens: (nat, nat, bytes) -> Option<bytes>, actions: seq<Pump.Action>, id: nat, p: Profile,
                             worlds: seq<World>, probeOpens: (nat, bytes) -> Option<bytes>, blockIpv6: bool, s: Session,
                             r: Pump.Run,
                             draw: (nat, nat) -> u64)
    requires Lawful(c) && HonestPeer.Mirrored(client, server) && OpensWith(opens, id, c, client, sid)
    requires InSession(opens, actions, id, p, worlds, probeOpens, s, r) && r.cfg == HandedOver(s, blockIpv6)
    requires Legal(p) && HonestPeer.Bounded(|WrittenIn(s, r)|)
    ensures AcceptedExactly(c, client, server, sid, p, s, r, draw)
  {
    hide Pump.After, ProbedAll, SessionServed, VlessStream.AnsweredAll, Probe, LoopServes, VlessStream.Opening,
         PumpOutbound.Unused, OpensWith,
         PumpStreams.Numbered, PumpTraces.Arrivals, OnlyTheServerSeals, VlessStream.Request, ReadByChance;
    SessionInOrder(opens, actions, id, p, worlds, probeOpens, s, r);
    SessionAnswered(c, client, server, sid, p.uuid, WrittenIn(s, r), draw);
    var plaintexts := PumpOutbound.Plaintexts(WrittenIn(s, r));
    HandedOverIsVless(p, s, blockIpv6);
    if s.log != [] {
      assert plaintexts[0] == Probe();
      RefusedFirst(p.uuid, plaintexts, draw);
    } else {
      assert WrittenIn(s, r) == r.out.sent;
      if r.out.sent == [] {
        assert plaintexts == [];
        AnsweredNothing(p.uuid, draw);
      } else if HeaderSent(r) {
        VlessRunIsServed(c, client, server, sid, opens, actions, id, p, draw, r);
      } else {
        BareRunAccepted(opens, actions, id, p, r, draw);
      }
    }
  }

  lemma AnsweredNothing(uuid: bytes, draw: (nat, nat) -> u64)
    requires |uuid| == 16
    ensures VlessStream.AnsweredAll(VlessStream.NewPeer(uuid), uuid, [], draw, 0).Ok?
  {
  }

  lemma HandedOverIsVless(p: Profile, s: Session, blockIpv6: bool)
    requires Legal(p) && s.profile == Some(p)
    ensures PumpOutbound.VlessConfig(HandedOver(s, blockIpv6), p.uuid, p.flow, p.command, p.address, p.port)
    ensures PumpOutbound.Unused(HandedOver(s, blockIpv6).out)
  {
    hide RequestHeader.HeaderBytes;
  }

  /**
    * The server accepts the run's frames from its first record on and learns exactly the profile's request and the
    * packets' bytes; if no frame that arrives is a forgery, what reaches the TUN is a prefix of the packets sent.
    */
  ghost predicate Carried(c: Primitives, client: RecordKeys, server: RecordKeys, sid: bytes, actions: seq<Pump.Action>,
                          id: nat, p: Profile, r: Pump.Run, draw: (nat, nat) -> u64)
    requires Lawful(c)
  {
    && Pump.Contiguous(r.out.sent, 0) && HonestPeer.Bounded(|r.out.sent|)
    && var served := SessionServed(c, client, server, sid, p.uuid, Some(VlessStream.NewPeer(p.uuid)), r.out.sent, draw);
       var replies := VlessStream.AnsweredAll(VlessStream.NewPeer(p.uuid), p.uuid,
                                              PumpOutbound.Plaintexts(r.out.sent), draw, 0);
       && served.Ok? && replies.Ok? && |replies.value.1| == |r.out.sent|
       && served.value.1 == HonestPeer.ServerRecords(c, server, sid, 0, replies.value.1)
       && served.value.0 == HonestPeer.ServerLoop(|r.out.sent|, |r.out.sent|, Some(replies.value.0))
       && replies.value.0.request == Some(VlessStream.Request(p.uuid, p.flow, p.command, p.address, p.port))
       && replies.value.0.payloadBytes == |Flatten(PumpOutbound.Packets(r.out.sent))|
       && (OnlyTheServerSeals(c, client, sid, PumpTraces.Arrivals(actions, id),
                              PumpStreams.Numbered(replies.value.1, 0)) ==>
             r.inn.delivered <= PumpOutbound.Packets(r.out.sent))
  }

  /**
    * What an accepted VLESS session means: the server learns exactly the profile's request and the packets' bytes,
    * and if no frame that arrives is a forgery, what reaches the TUN is a prefix of the packets the run sent.
    */
  lemma VlessSessionCarried(c: Primitives, client: RecordKeys, server: RecordKeys, sid: bytes,
                            opens: (nat, nat, bytes) -> Option<bytes>, actions: seq<Pump.Action>, id: nat, p: Profile,
                            worlds: seq<World>, probeOpens: (nat, bytes) -> Option<bytes>, blockIpv6: bool, s: Session,
                            r: Pump.Run,
                            draw: (nat, nat) -> u64)
    requires Lawful(c) && HonestPeer.Mirrored(client, server) && OpensWith(opens, id, c, client, sid)
    requires InSession(opens, actions, id, p, worlds, probeOpens, s, r) && r.cfg == HandedOver(s, blockIpv6)
    requires Legal(p) && HonestPeer.Bounded(|WrittenIn(s, r)|) && s.log == [] && r.out.sent != [] && HeaderSent(r)
    ensures Carried(c, client, server, sid, actions, id, p, r, draw)
  {
    hide Pump.After, ProbedAll, SessionServed, VlessStream.AnsweredAll, Probe, LoopServes, VlessStream.Opening,
         PumpOutbound.Unused, OpensWith,
         PumpStreams.Numbered, PumpTraces.Arrivals, OnlyTheServerSeals, VlessStream.Request, HonestPeer.ServerRecords;
    SessionInOrder(opens, actions, id, p, worlds, probeOpens, s, r);
    assert WrittenIn(s, r) == r.out.sent;
    SessionAnswered(c, client, server, sid, p.uuid, r.out.sent, draw);
    HandedOverIsVless(p, s, blockIpv6);
    VlessRunIsServed(c, client, server, sid, opens, actions, id, p, draw, r);
  }

  /**
    * The raw server accepts probes and run together and mirrors every record; what reaches the TUN, without forgery,
    * is a prefix of what was mirrored from the session's inbound number on.
    */
  ghost predicate MirroredRaw(c: Primitives, client: RecordKeys, server: RecordKeys, sid: bytes,
                              actions: seq<Pump.Action>,
                              id: nat, p: Profile, s: Session, r: Pump.Run, draw: (nat, nat) -> u64)
    requires Lawful(c)
  {
    && Pump.Contiguous(WrittenIn(s, r), 0) && HonestPeer.Bounded(|WrittenIn(s, r)|) && s.nextIn <= |s.log|
    && var n, mirrored := |WrittenIn(s, r)|, PumpOutbound.Packets(WrittenIn(s, r));
       && SessionServed(c, client, server, sid, p.uuid, None, WrittenIn(s, r), draw)
          == Ok((HonestPeer.ServerLoop(n, n, None), HonestPeer.ServerRecords(c, server, sid, 0, mirrored)))
       && (OnlyTheServerSeals(c, client, sid, PumpTraces.Arrivals(actions, id), PumpStreams.Numbered(mirrored, 0)) ==>
             r.inn.delivered <= mirrored[s.nextIn..])
       && mirrored[|s.log|..] == PumpOutbound.Packets(r.out.sent)
  }

  /**
    * Raw mode, which a start falls back to when it finds no VLESS profile (an empty or poisoned slot): the server
    * accepts probes and run together and mirrors every record; what reaches the TUN, without forgery, is a prefix of
    * what was mirrored from the session's inbound number on. That is the run's packets alone
    * exactly when every probe's echo was accepted; otherwise the echoes left over come first.
    */
  lemma RawSessionIsServed(c: Primitives, client: RecordKeys, server: RecordKeys, sid: bytes,
                           opens: (nat, nat, bytes) -> Option<bytes>, actions: seq<Pump.Action>, id: nat, p: Profile,
                           worlds: seq<World>, probeOpens: (nat, bytes) -> Option<bytes>, blockIpv6: bool, s: Session,
                           r: Pump.Run,
                           draw: (nat, nat) -> u64)
    requires Lawful(c) && HonestPeer.Mirrored(client, server) && OpensWith(opens, id, c, client, sid)
    requires InSession(opens, actions, id, p, worlds, probeOpens, s, r)
             && r.cfg == HandedOver(s.(profile := None), blockIpv6)
    requires HonestPeer.Bounded(|WrittenIn(s, r)|)
    ensures MirroredRaw(c, client, server, sid, actions, id, p, s, r, draw)
  {
    hide Pump.After, ProbedAll, SessionServed, HonestPeer.ServerRecords, OnlyTheServerSeals, Probe, Opener,
         PumpStreams.Authentic,
         PumpTraces.Arrivals, PumpStreams.Numbered, Pump.Contiguous;
    SessionInOrder(opens, actions, id, p, worlds, probeOpens, s, r);
    var written := WrittenIn(s, r);
    var mirrored := PumpOutbound.Packets(written);
    assert PumpOutbound.Plaintexts(written) == mirrored by { RawPlaintexts(opens, actions, id, s, r); }
    SessionMirrored(c, client, server, sid, p.uuid, written, draw);
    assert mirrored[|s.log|..] == PumpOutbound.Packets(r.out.sent);
    var records := PumpStreams.Numbered(mirrored, 0);
    if OnlyTheServerSeals(c, client, sid, PumpTraces.Arrivals(actions, id), records) {
      OpenerIsAuthentic(c, client, sid, (n, f) => opens(id, n, f), PumpTraces.Arrivals(actions, id), records);
      PumpStreams.RawDeliveries(opens, actions, id, mirrored, r);
    }
  }

  lemma RawPlaintexts(opens: (nat, nat, bytes) -> Option<bytes>, actions: seq<Pump.Action>, id: nat, s: Session,
                      r: Pump.Run)
    requires id in Pump.After(opens, Pump.INITIAL, actions).runs
             && r == Pump.After(opens, Pump.INITIAL, actions).runs[id]
    requires r.cfg.out.None?
    ensures PumpOutbound.Plaintexts(WrittenIn(s, r)) == PumpOutbound.Packets(WrittenIn(s, r))
  {
    hide Pump.After, Probe;
    PumpOutbound.WrittenFramesCarryThePackets(opens, actions, id);
  }

  lemma SessionMirrored(c: Primitives, client: RecordKeys, server: RecordKeys, sid: bytes, uuid: bytes,
                        written: seq<Pump.Sent>,
                        draw: (nat, nat) -> u64)
    requires Lawful(c) && HonestPeer.Mirrored(client, server)
    requires Pump.Contiguous(written, 0) && HonestPeer.Bounded(|written|)
    ensures SessionServed(c, client, server, sid, uuid, None, written, draw)
         == Ok((HonestPeer.ServerLoop(|written|, |written|, None),
                HonestPeer.ServerRecords(c, server, sid, 0, PumpOutbound.Plaintexts(written))))
  {
    hide HonestPeer.ServedAll, HonestPeer.ServerRecords, HonestPeer.ClientRecords, HonestPeer.ClientOpens, Frames,
         Lawful;
    FramesInOrder(c, client, sid, written, 0);
    HonestPeer.RawMirror(c, client, server, sid, uuid, PumpOutbound.Plaintexts(written), 0, 0, draw, 0);
  }

  // ---- probes against the honest raw server ----

  /** What the honest raw server, at the client's own counters, sends back for the probe. */
  function HonestEcho(c: Primitives, client: RecordKeys, server: RecordKeys, sid: bytes, uuid: bytes, nextOut: u64,
                      nextIn: u64): Option<bytes>
    requires Lawful(c)
  {
    var frame := SealRecord(c, Some(client), sid, nextOut, PROBE).value;
    match HonestPeer.Served(c, server, sid, uuid, HonestPeer.ServerLoop(nextOut, nextIn, None), frame, (i: nat) => 0)
    case Err(_) => None
    case Ok((loop, replies)) => if |replies| == 1 then Some(replies[0]) else None
  }

  /** A probe that nothing outside disturbs. */
  function HonestWorld(c: Primitives, client: RecordKeys, server: RecordKeys, sid: bytes, uuid: bytes, nextOut: u64,
                       nextIn: u64): World
    requires Lawful(c)
  {
    World(true, true, true, HonestEcho(c, client, server, sid, uuid, nextOut, nextIn))
  }

  predicate ReadyToProbe(s: Session) { s.handshake == Some(true) && s.socket }

  /** Undisturbed, the honest server's echo is accepted and both counters move by one. */
  lemma HonestProbeSucceeds(c: Primitives, client: RecordKeys, server: RecordKeys, sid: bytes, uuid: bytes, s: Session)
    requires Lawful(c) && HonestPeer.Mirrored(client, server) && ReadyToProbe(s)
    requires HonestPeer.Bounded(s.nextOut) && HonestPeer.Bounded(s.nextIn)
    ensures Probed(s, HonestWorld(c, client, server, sid, uuid, s.nextOut, s.nextIn), Opener(c, client, sid))
         == (s.(nextOut := s.nextOut + 1, nextIn := s.nextIn + 1, log := s.log + [s.nextOut]), Ok(()))
  {
    hide HonestPeer.Served, HonestPeer.ServerSeal, SealRecord, OpenRecord, Probed;
    HonestPeer.ServedSealed(c, client, server, sid, uuid, HonestPeer.ServerLoop(s.nextOut, s.nextIn, None), PROBE,
                            (i: nat) => 0);
    HonestPeer.RecordsCross(c, client, server, sid, s.nextIn, PROBE);
    var w := HonestWorld(c, client, server, sid, uuid, s.nextOut, s.nextIn);
    assert w.echo == Some(HonestPeer.ServerSeal(c, server, sid, s.nextIn, PROBE));
    ProbeSucceedsExactlyIf(s, w, Opener(c, client, sid));
  }

  /** Every probe of the list is answered by the honest server at the counters of its moment. */
  predicate HonestWorlds(c: Primitives, client: RecordKeys, server: RecordKeys, sid: bytes, uuid: bytes, first: nat,
                         worlds: seq<World>)
    requires Lawful(c) && HonestPeer.Bounded(first + |worlds|)
  {
    forall k | 0 <= k < |worlds| :: worlds[k] == HonestWorld(c, client, server, sid, uuid, first + k, first + k)
  }

  lemma {:induction false} HonestProbesSucceed(c: Primitives, client: RecordKeys, server: RecordKeys, sid: bytes,
                                               uuid: bytes, s: Session, worlds: seq<World>)
    requires Lawful(c) && HonestPeer.Mirrored(client, server) && ReadyToProbe(s) && s.nextOut == s.nextIn
    requires HonestPeer.Bounded(s.nextOut + |worlds|) && HonestWorlds(c, client, server, sid, uuid, s.nextOut, worlds)
    ensures var t := ProbedAll(s, worlds, Opener(c, client, sid));
            t.nextOut == s.nextOut + |worlds| && t.nextIn == s.nextIn + |worlds| && |t.log| == |s.log| + |worlds|
    decreases |worlds|
  {
    hide Probed, HonestWorld, Opener, HonestPeer.Mirrored;
    if worlds != [] {
      assert worlds[0] == HonestWorld(c, client, server, sid, uuid, s.nextOut + 0, s.nextIn + 0);
      HonestProbeSucceeds(c, client, server, sid, uuid, s);
      var t := Probed(s, worlds[0], Opener(c, client, sid)).0;
      forall k | 0 <= k < |worlds| - 1
        ensures worlds[1..][k] == HonestWorld(c, client, server, sid, uuid, t.nextOut + k, t.nextIn + k)
      {
        assert worlds[1..][k] == worlds[k + 1];
      }
      HonestProbesSucceed(c, client, server, sid, uuid, t, worlds[1..]);
    }
  }

  // ---- the shield ----

  /**
    * The caller's shield decides the fate of every packet of the run it starts: up, exactly the packets whose first
    * byte is 0x60 to 0x6f are dropped; down, none is, and every packet read goes to the seal.
    */
  lemma ShieldFollowsTheCaller(opens: (nat, nat, bytes) -> Option<bytes>, actions: seq<Pump.Action>, id: nat,
                               s: Session, shield: bool)
    requires id in Pump.After(opens, Pump.INITIAL, actions).runs
    requires Pump.After(opens, Pump.INITIAL, actions).runs[id].cfg == HandedOver(s, shield)
    ensures var o := Pump.After(opens, Pump.INITIAL, actions).runs[id].out;
            var w := PumpFates.Watched(opens, actions, id);
            && PumpFates.StoppedOf(shield, w.read) == w.drops + PumpFates.StoppedOf(shield, PumpFates.InHand(o))
            && (!shield ==> w.drops == [] && w.read == PumpFates.Tried(w.tried) + PumpFates.InHand(o))
  {
    hide Pump.After, PumpFates.Watched, PumpFates.StoppedOf, PumpFates.PassedOf, PumpFates.Tried, PumpFates.InHand;
    PumpFates.FateOfEveryPacket(opens, actions, id);
    if !shield {
      PumpFates.NothingIsStopped(PumpFates.Watched(opens, actions, id).read);
      PumpFates.NothingIsStopped(PumpFates.InHand(Pump.After(opens, Pump.INITIAL, actions).runs[id].out));
    }
  }

  // ---- the nonces of a whole session ----

  /** The nonces of records sealed at these numbers. */
  function NoncesAt(c: Primitives, sid: bytes, ns: seq<nat>): (r: seq<bytes>)
    requires Lawful(c) && forall k | 0 <= k < |ns| :: ns[k] < TWO_TO_THE_64
    ensures |r| == |ns|
  {
    seq(|ns|, k requires 0 <= k < |ns| => DeriveNonce(c, sid, ns[k], Client, Data))
  }

  predicate DistinctBytes(xs: seq<bytes>) { forall i, j | 0 <= i < j < |xs| :: xs[i] != xs[j] }

  /** The hash does not collide on the preimages of these numbers. */
  predicate CollisionFree(c: Primitives, sid: bytes, ns: seq<nat>)
    requires Lawful(c) && forall k | 0 <= k < |ns| :: ns[k] < TWO_TO_THE_64
  {
    forall i, j | 0 <= i < j < |ns| ::
      !RealityReference.Collides(c, RealityReference.Preimage(sid, ns[i], Client, Data),
                                 RealityReference.Preimage(sid, ns[j], Client, Data))
  }

  lemma NoncesFollowNumbers(c: Primitives, sid: bytes, ns: seq<nat>)
    requires Lawful(c) && |sid| == 32 && (forall k | 0 <= k < |ns| :: ns[k] < TWO_TO_THE_64)
    requires CollisionFree(c, sid, ns)
    ensures DistinctBytes(NoncesAt(c, sid, ns)) <==> Distinct(ns)
  {
    hide DeriveNonce, RealityReference.Collides, RealityReference.Preimage;
    var xs := NoncesAt(c, sid, ns);
    forall i, j | 0 <= i < j < |ns|
      ensures xs[i] == xs[j] <==> ns[i] == ns[j]
    {
      RealityReference.NonceRepeatsOnlyByCollision(c, sid, ns[i], Client, Data, sid, ns[j], Client, Data);
    }
  }

  /**
    * No nonce reuse, over a whole session: short of a hash collision, the nonces of all records a session's probes and
    * runs seal under its key are pairwise distinct if and only if none is sealed by an activity called after a run that
    * sealed one or after a probe whose write failed.
    */
  lemma SessionNoncesDistinctExactlyIf(c: Primitives, sid: bytes, s: Session, acts: seq<Activity>,
                                       opens: (nat, bytes) -> Option<bytes>,
                                       pumpOpens: (nat, nat, bytes) -> Option<bytes>, actions: seq<Pump.Action>,
                                       ns: seq<nat>)
    requires Lawful(c) && |sid| == 32
    requires StartedInTurn(s, acts, opens, Pump.After(pumpOpens, Pump.INITIAL, actions).runs)
    requires ns == UsedByAll(RecordsSealed, s, acts, opens, Pump.After(pumpOpens, Pump.INITIAL, actions).runs)
    requires (forall k | 0 <= k < |ns| :: ns[k] < TWO_TO_THE_64) && CollisionFree(c, sid, ns)
    ensures DistinctBytes(NoncesAt(c, sid, ns)) <==>
            NothingAfter(RecordsSealed, s, acts, opens, Pump.After(pumpOpens, Pump.INITIAL, actions).runs)
  {
    hide Pump.After, UsedByAll, StartedInTurn, NothingAfter, CollisionFree, DistinctBytes, NoncesAt;
    NumbersAreDistinctExactlyIfNothingAfter(RecordsSealed, s, acts, opens, pumpOpens, actions);
    NoncesFollowNumbers(c, sid, ns);
  }

  // ---- from the first hello to the TUN ----

  /** The handshake of this profile against the honest server. */
  datatype Meeting = Meeting(params: Params, serverSecret: bytes, ephemeral: bytes, time: u32, serverEphemeral: bytes,
                             certKey: bytes)

  function Met(c: Primitives, m: Meeting): Option<HonestPeer.Established>
    requires Lawful(c)
  {
    HonestPeer.Handshaken(c, m.params, m.serverSecret, m.ephemeral, m.time, m.serverEphemeral, m.certKey)
  }

  predicate Willing(c: Primitives, m: Meeting)
    requires Lawful(c)
  {
    && HonestPeer.Servable(c, m.params, m.serverSecret) && Initiated(c, m.params, m.ephemeral, m.time).Ok?
    && c.dh(m.serverEphemeral, c.publicKey(m.ephemeral)) != Zeros(32)
  }

  lemma WillingMeet(c: Primitives, m: Meeting)
    requires Lawful(c) && Willing(c, m)
    ensures Met(c, m).Some? && HonestPeer.Mirrored(Met(c, m).value.client, Met(c, m).value.server)
  {
    hide HonestPeer.Handshaken, Initiated, HonestPeer.Servable, Zeros;
    HonestPeer.HandshakeEstablishes(c, m.params, m.serverSecret, m.ephemeral, m.time, m.serverEphemeral, m.certKey);
  }

  /**
    * The whole client against the honest server: the hello, the completion, any probes, and one pump run in any
    * interleaving. The handshake succeeds; in VLESS mode the server accepts the session exactly under
    * `VlessSessionAccepted`'s condition, and then everything is carried to the TUN.
    */
  lemma FromHelloToTun(c: Primitives, m: Meeting, opens: (nat, nat, bytes) -> Option<bytes>, actions: seq<Pump.Action>,
                       id: nat, p: Profile, worlds: seq<World>, probeOpens: (nat, bytes) -> Option<bytes>,
                       blockIpv6: bool, s: Session, r: Pump.Run, draw: (nat, nat) -> u64)
    requires Lawful(c) && Willing(c, m)
    requires Met(c, m).Some? ==> OpensWith(opens, id, c, Met(c, m).value.client, Met(c, m).value.st.sealedSessionId)
    requires InSession(opens, actions, id, p, worlds, probeOpens, s, r) && r.cfg == HandedOver(s, blockIpv6)
    requires Legal(p) && HonestPeer.Bounded(|WrittenIn(s, r)|)
    ensures Met(c, m).Some?
    ensures var e := Met(c, m).value;
            var sid := e.st.sealedSessionId;
            && AcceptedExactly(c, e.client, e.server, sid, p, s, r, draw)
            && (s.log == [] && r.out.sent != [] && HeaderSent(r) ==>
                  Carried(c, e.client, e.server, sid, actions, id, p, r, draw))
  {
    hide Met, Willing, OpensWith, InSession, HandedOver, Legal, AcceptedExactly, Carried, HeaderSent, WrittenIn;
    WillingMeet(c, m);
    var e := Met(c, m).value;
    var sid := e.st.sealedSessionId;
    VlessSessionAccepted(c, e.client, e.server, sid, opens, actions, id, p, worlds, probeOpens, blockIpv6, s, r, draw);
    if s.log == [] && r.out.sent != [] && HeaderSent(r) {
      VlessSessionCarried(c, e.client, e.server, sid, opens, actions, id, p, worlds, probeOpens, blockIpv6, s, r, draw);
    }
  }

  /** The same in raw mode: probes and run are mirrored together, and the mirror reaches the TUN. */
  lemma FromHelloToTunRaw(c: Primitives, m: Meeting, opens: (nat, nat, bytes) -> Option<bytes>,
                          actions: seq<Pump.Action>, id: nat, p: Profile, worlds: seq<World>,
                          probeOpens: (nat, bytes) -> Option<bytes>, blockIpv6: bool, s: Session, r: Pump.Run,
                          draw: (nat, nat) -> u64)
    requires Lawful(c) && Willing(c, m)
    requires Met(c, m).Some? ==> OpensWith(opens, id, c, Met(c, m).value.client, Met(c, m).value.st.sealedSessionId)
    requires InSession(opens, actions, id, p, worlds, probeOpens, s, r)
    requires r.cfg == HandedOver(s.(profile := None), blockIpv6) && HonestPeer.Bounded(|WrittenIn(s, r)|)
    ensures Met(c, m).Some?
    ensures var e := Met(c, m).value;
            MirroredRaw(c, e.client, e.server, e.st.sealedSessionId, actions, id, p, s, r, draw)
    ensures var e := Met(c, m).value;
            UndisturbedProbes(c, e.client, e.server, e.st.sealedSessionId, p, worlds, probeOpens) ==>
              && s.nextIn == |s.log| == |worlds|
              && (NoForgery(c, e.client, e.st.sealedSessionId, actions, id, s, r) ==>
                    r.inn.delivered <= PumpOutbound.Packets(r.out.sent))
  {
    hide Met, Willing, OpensWith, HandedOver, MirroredRaw, WrittenIn, UndisturbedProbes, NoForgery, Pump.After;
    WillingMeet(c, m);
    var e := Met(c, m).value;
    if UndisturbedProbes(c, e.client, e.server, e.st.sealedSessionId, p, worlds, probeOpens) {
      UndisturbedProbesSucceed(c, e.client, e.server, e.st.sealedSessionId, p, worlds, probeOpens);
    }
    RawSessionIsServed(c, e.client, e.server, e.st.sealedSessionId, opens, actions, id, p, worlds, probeOpens,
                       blockIpv6,
                       s, r, draw);
    if s.nextIn == |s.log| && NoForgery(c, e.client, e.st.sealedSessionId, actions, id, s, r) {
      MirroredReaches(c, e.client, e.server, e.st.sealedSessionId, actions, id, p, s, r, draw);
    }
  }

  /** All probes are answered by the honest server, and the client opens with its own receive key. */
  ghost predicate UndisturbedProbes(c: Primitives, client: RecordKeys, server: RecordKeys, sid: bytes, p: Profile,
                                    worlds: seq<World>, probeOpens: (nat, bytes) -> Option<bytes>)
    requires Lawful(c)
  {
    && HonestPeer.Bounded(|worlds|) && HonestWorlds(c, client, server, sid, p.uuid, 0, worlds)
    && probeOpens == Opener(c, client, sid)
  }

  lemma UndisturbedProbesSucceed(c: Primitives, client: RecordKeys, server: RecordKeys, sid: bytes, p: Profile,
                                 worlds: seq<World>, probeOpens: (nat, bytes) -> Option<bytes>)
    requires Lawful(c) && HonestPeer.Mirrored(client, server)
    requires UndisturbedProbes(c, client, server, sid, p, worlds, probeOpens)
    ensures var t := ProbedAll(Ready(TORN_DOWN, p), worlds, probeOpens); t.nextIn == |t.log| == |worlds|
  {
    hide HonestWorlds, Opener;
    HonestProbesSucceed(c, client, server, sid, p.uuid, Ready(TORN_DOWN, p), worlds);
  }

  /** Of the frames that arrive in the run, none is a forgery. */
  ghost predicate NoForgery(c: Primitives, client: RecordKeys, sid: bytes, actions: seq<Pump.Action>, id: nat,
                            s: Session,
                            r: Pump.Run)
    requires Lawful(c)
  {
    OnlyTheServerSeals(c, client, sid, PumpTraces.Arrivals(actions, id),
                       PumpStreams.Numbered(PumpOutbound.Packets(WrittenIn(s, r)), 0))
  }

  lemma MirroredReaches(c: Primitives, client: RecordKeys, server: RecordKeys, sid: bytes, actions: seq<Pump.Action>,
                        id: nat, p: Profile, s: Session, r: Pump.Run, draw: (nat, nat) -> u64)
    requires Lawful(c) && MirroredRaw(c, client, server, sid, actions, id, p, s, r, draw)
    requires s.nextIn == |s.log| && NoForgery(c, client, sid, actions, id, s, r)
    ensures r.inn.delivered <= PumpOutbound.Packets(r.out.sent)
  {
    hide SessionServed, OnlyTheServerSeals, HonestPeer.ServerRecords, WrittenIn, PumpTraces.Arrivals,
         PumpStreams.Numbered;
  }
}
