/**
  * The exact condition for in-order delivery: what a server's records mean to a client that may be shown any of
  * them again, and the interleavings that show it.
  */
module PumpReplays {
  import opened Bytes
  import opened VlessStream
  import opened Pump
  import opened PumpTraces
  import opened PumpStreams
  import RequestHeader
  import Vision
  import VisionIo

  // ---- building the interleavings ----

  /** The inbound half stands at its loop head, about to read at number `n`. */
  predicate AtHead(sh: Shared, r: Run, cfg: Config, n: nat, stream: Option<Inbound>, delivered: seq<bytes>) {
    && !sh.stop && sh.seqIn == n && r.cfg == cfg
    && r.inn.half == Loop(InTop) && r.inn.stream == stream && r.inn.delivered == delivered
  }

  /**
    * Reading a frame whose record the stream end rejects gives the number back and keeps what that did to the stream
    * end.
    */
  lemma ReadsRejected(opens: (nat, bytes) -> Option<bytes>, sh: Shared, r: Run, id: nat, n: nat, frame: bytes,
                      record: bytes)
    returns (steps: seq<(Thread, Event)>)
    requires AtHead(sh, r, r.cfg, n, r.inn.stream, r.inn.delivered) && frame != [] && opens(n, frame) == Some(record)
    requires UnwrapIn(r.inn.stream, record).1 == None
    ensures var (sh1, r1) := OwnSteps(opens, sh, r, id, steps);
            AtHead(sh1, r1, r.cfg, n, UnwrapIn(r.inn.stream, record).0, r.inn.delivered)
    ensures FramesIn(steps) <= {frame}
  {
    hide OwnSteps, UnwrapIn, StartStep, OutStep, FramesIn;
    var now := (sh, r);
    assert OwnSteps(opens, sh, r, id, []) == now by { OwnNothing(opens, sh, r, id); }
    steps, now := Push(opens, sh, r, id, [], Inbound, Nothing);
    steps, now := Push(opens, sh, r, id, steps, Inbound, Frame(frame));
    steps, now := Push(opens, sh, r, id, steps, Inbound, Nothing);
    steps, now := Push(opens, sh, r, id, steps, Inbound, Nothing);
    steps, now := Push(opens, sh, r, id, steps, Inbound, Nothing);
    steps, now := Push(opens, sh, r, id, steps, Inbound, Nothing);
    OneFrame(steps, frame);
  }

  lemma OneFrame(steps: seq<(Thread, Event)>, frame: bytes)
    requires forall k | 0 <= k < |steps| :: steps[k].1.Frame? ==> steps[k].1.f == frame
    ensures FramesIn(steps) <= {frame}
  {
  }

  /** Reading a frame whose record the stream end accepts delivers its payload and moves to the next number. */
  lemma ReadsAccepted(opens: (nat, bytes) -> Option<bytes>, sh: Shared, r: Run, id: nat, n: nat, frame: bytes,
                      record: bytes,
                      packet: bytes)
    returns (steps: seq<(Thread, Event)>)
    requires AtHead(sh, r, r.cfg, n, r.inn.stream, r.inn.delivered) && frame != [] && opens(n, frame) == Some(record)
    requires UnwrapIn(r.inn.stream, record).1 == Some(packet)
    ensures var (sh1, r1) := OwnSteps(opens, sh, r, id, steps);
            AtHead(sh1, r1, r.cfg, n + 1, UnwrapIn(r.inn.stream, record).0, r.inn.delivered + [packet])
    ensures FramesIn(steps) <= {frame}
  {
    hide OwnSteps, UnwrapIn, StartStep, OutStep, FramesIn;
    var now := (sh, r);
    assert OwnSteps(opens, sh, r, id, []) == now by { OwnNothing(opens, sh, r, id); }
    steps, now := Push(opens, sh, r, id, [], Inbound, Nothing);
    steps, now := Push(opens, sh, r, id, steps, Inbound, Frame(frame));
    steps, now := Push(opens, sh, r, id, steps, Inbound, Nothing);
    steps, now := Push(opens, sh, r, id, steps, Inbound, Nothing);
    steps, now := Push(opens, sh, r, id, steps, Inbound, Good);
    steps, now := Push(opens, sh, r, id, steps, Inbound, Nothing);
    OneFrame(steps, frame);
  }

  /**
    * Every record of the server is carried by a frame, and such a frame opens at no number to anything but its record.
    */
  ghost predicate Supplied(opens: (nat, bytes) -> Option<bytes>, records: nat -> Option<bytes>, frame: nat -> bytes) {
    && (forall n: nat | records(n).Some? :: frame(n) != [] && opens(n, frame(n)) == records(n))
    && (forall n: nat, m: nat | records(n).Some? && opens(m, frame(n)).Some? :: opens(m, frame(n)) == records(m))
  }

  /** An interleaving with authentic arrivals that leaves the run at its inbound loop head. */
  ghost predicate Reads(opens: (nat, nat, bytes) -> Option<bytes>, actions: seq<Action>, id: nat, cfg: Config,
                        records: nat -> Option<bytes>, n: nat, stream: Option<Inbound>, delivered: seq<bytes>) {
    var s := After(opens, INITIAL, actions);
    && Unstopped(actions) && id in s.runs && AtHead(s.sh, s.runs[id], cfg, n, stream, delivered)
    && Authentic((m, f) => opens(id, m, f), Arrivals(actions, id), records)
  }

  lemma AuthenticGrows(opens: (nat, bytes) -> Option<bytes>, records: nat -> Option<bytes>, frame: nat -> bytes,
                       before: set<bytes>, after: set<bytes>, n: nat)
    requires Supplied(opens, records, frame) && records(n).Some?
    requires Authentic(opens, before, records) && after <= before + {frame(n)}
    ensures Authentic(opens, after, records)
  {
  }

  lemma BeginsToRead(opens: (nat, nat, bytes) -> Option<bytes>, id: nat, cfg: Config, records: nat -> Option<bytes>)
    returns (actions: seq<Action>)
    ensures Reads(opens, actions, id, cfg, records, cfg.firstIn, cfg.inn, [])
  {
    hide After, OwnSteps, StartStep, OutStep, InStep, FramesIn;
    var o := (n: nat, f: bytes) => opens(id, n, f);
    AfterSnoc(opens, INITIAL, [], CallStart(id, cfg));
    var a: seq<Action> := [] + [CallStart(id, cfg)];
    assert After(opens, INITIAL, []) == INITIAL by { AfterNothing(opens, INITIAL); }
    var steps := StartsUp(o, INITIAL.sh, cfg, id);
    assert Arrivals(a, id) == {};
    actions := Extend(opens, a, id, steps);
  }

  lemma ReadsOneRejected(opens: (nat, nat, bytes) -> Option<bytes>, before: seq<Action>, id: nat, cfg: Config,
                         records: nat -> Option<bytes>, frame: nat -> bytes, n: nat, stream: Option<Inbound>,
                         delivered: seq<bytes>)
    returns (actions: seq<Action>)
    requires Supplied((m, f) => opens(id, m, f), records, frame) && records(n).Some?
    requires Reads(opens, before, id, cfg, records, n, stream, delivered)
    requires UnwrapIn(stream, records(n).value).1 == None
    ensures Reads(opens, actions, id, cfg, records, n, UnwrapIn(stream, records(n).value).0, delivered)
  {
    hide After, OwnSteps, UnwrapIn, FramesIn, Arrivals, Authentic, Supplied;
    var o := (m: nat, f: bytes) => opens(id, m, f);
    assert frame(n) != [] && o(n, frame(n)) == records(n) by { Carried(o, records, frame, n); }
    var s := After(opens, INITIAL, before);
    var steps := ReadsRejected(o, s.sh, s.runs[id], id, n, frame(n), records(n).value);
    actions := Extend(opens, before, id, steps);
    AuthenticGrows(o, records, frame, Arrivals(before, id), Arrivals(actions, id), n);
  }

  lemma Carried(opens: (nat, bytes) -> Option<bytes>, records: nat -> Option<bytes>, frame: nat -> bytes, n: nat)
    requires Supplied(opens, records, frame) && records(n).Some?
    ensures frame(n) != [] && opens(n, frame(n)) == records(n)
  {
  }

  lemma ReadsOneAccepted(opens: (nat, nat, bytes) -> Option<bytes>, before: seq<Action>, id: nat, cfg: Config,
                         records: nat -> Option<bytes>, frame: nat -> bytes, n: nat, stream: Option<Inbound>,
                         delivered: seq<bytes>)
    returns (actions: seq<Action>)
    requires Supplied((m, f) => opens(id, m, f), records, frame) && records(n).Some?
    requires Reads(opens, before, id, cfg, records, n, stream, delivered)
    requires UnwrapIn(stream, records(n).value).1.Some?
    ensures var (next, packet) := UnwrapIn(stream, records(n).value);
            Reads(opens, actions, id, cfg, records, n + 1, next, delivered + [packet.value])
  {
    hide After, OwnSteps, UnwrapIn, FramesIn, Arrivals, Authentic, Supplied;
    var o := (m: nat, f: bytes) => opens(id, m, f);
    assert frame(n) != [] && o(n, frame(n)) == records(n) by { Carried(o, records, frame, n); }
    var s := After(opens, INITIAL, before);
    var packet := UnwrapIn(stream, records(n).value).1.value;
    var steps := ReadsAccepted(o, s.sh, s.runs[id], id, n, frame(n), records(n).value, packet);
    actions := Extend(opens, before, id, steps);
    AuthenticGrows(o, records, frame, Arrivals(before, id), Arrivals(actions, id), n);
  }

  /** Every reachable prefix of the payloads is delivered by some interleaving. */
  lemma {:induction false} DeliversUpTo(opens: (nat, nat, bytes) -> Option<bytes>, id: nat, cfg: Config,
                                        records: nat -> Option<bytes>,
                                        frame: nat -> bytes, k: nat)
    returns (actions: seq<Action>, delivered: seq<bytes>)
    requires Supplied((m, f) => opens(id, m, f), records, frame) && Reached(cfg.inn, records, cfg.firstIn, k)
    ensures |delivered| == k
    ensures Reads(opens, actions, id, cfg, records, cfg.firstIn + k, StreamAt(cfg.inn, records, cfg.firstIn, k),
                  delivered)
  {
    hide Reads, UnwrapIn, Supplied;
    if k == 0 {
      actions := BeginsToRead(opens, id, cfg, records);
      delivered := [];
    } else {
      var before, had := DeliversUpTo(opens, id, cfg, records, frame, k - 1);
      assert PayloadAt(cfg.inn, records, cfg.firstIn, k - 1).Some?;
      var stream := StreamAt(cfg.inn, records, cfg.firstIn, k - 1);
      actions := ReadsOneAccepted(opens, before, id, cfg, records, frame, cfg.firstIn + k - 1, stream, had);
      delivered := had + [UnwrapIn(stream, records(cfg.firstIn + k - 1).value).1.value];
    }
  }

  /** The next record, rejected so many times. */
  lemma {:induction false} RejectsTimes(opens: (nat, nat, bytes) -> Option<bytes>, id: nat, cfg: Config,
                                        records: nat -> Option<bytes>,
                                        frame: nat -> bytes, k: nat, m: nat)
    returns (actions: seq<Action>, delivered: seq<bytes>)
    requires Supplied((m, f) => opens(id, m, f), records, frame) && Reached(cfg.inn, records, cfg.firstIn, k)
    requires records(cfg.firstIn + k).Some?
    requires forall j: nat | j < m ::
               UnwrapNext(StreamAfter(cfg.inn, records, cfg.firstIn, k, j), records(cfg.firstIn + k)).1 == None
    ensures |delivered| == k
    ensures Reads(opens, actions, id, cfg, records, cfg.firstIn + k, StreamAfter(cfg.inn, records, cfg.firstIn, k, m),
                  delivered)
  {
    hide Reads, UnwrapIn, Supplied, Reached, StreamAt;
    if m == 0 {
      actions, delivered := DeliversUpTo(opens, id, cfg, records, frame, k);
    } else {
      var before;
      before, delivered := RejectsTimes(opens, id, cfg, records, frame, k, m - 1);
      var stream := StreamAfter(cfg.inn, records, cfg.firstIn, k, m - 1);
      assert UnwrapNext(stream, records(cfg.firstIn + k)).1 == None;
      actions := ReadsOneRejected(opens, before, id, cfg, records, frame, cfg.firstIn + k, stream, delivered);
    }
  }

  // ---- the exact condition ----

  /**
    * In every interleaving whose arrivals are authentic, what this run delivers is a prefix of the payloads, in order.
    */
  ghost predicate AlwaysInOrder(opens: (nat, nat, bytes) -> Option<bytes>, id: nat, cfg: Config,
                                records: nat -> Option<bytes>) {
    forall actions | InterleavingOf(opens, actions, id, cfg, records) ::
      IsPrefix(After(opens, INITIAL, actions).runs[id].inn.delivered, cfg, records)
  }

  ghost predicate InterleavingOf(opens: (nat, nat, bytes) -> Option<bytes>, actions: seq<Action>, id: nat, cfg: Config,
                                 records: nat -> Option<bytes>) {
    var s := After(opens, INITIAL, actions);
    && id in s.runs && s.runs[id].cfg == cfg
    && Authentic((n, f) => opens(id, n, f), Arrivals(actions, id), records)
  }

  predicate IsPrefix(delivered: seq<bytes>, cfg: Config, records: nat -> Option<bytes>) {
    forall k | 0 <= k < |delivered| :: PayloadAt(cfg.inn, records, cfg.firstIn, k) == Some(delivered[k])
  }

  /**
    * The exact condition, raw or VLESS: given frames that carry the server's records, deliveries are a prefix of the
    * payloads in every interleaving with authentic arrivals, however frames are injected, repeated or reordered, if
    * and only if the first record rejected in order, if any, is rejected on every replay as well.
    */
  lemma InOrderExactlyIfReplaysFail(opens: (nat, nat, bytes) -> Option<bytes>, id: nat, cfg: Config,
                                    records: nat -> Option<bytes>,
                                    frame: nat -> bytes)
    requires Supplied((m, f) => opens(id, m, f), records, frame)
    ensures AlwaysInOrder(opens, id, cfg, records) <==> ReplaysFail(cfg.inn, records, cfg.firstIn)
  {
    hide After, Authentic, Arrivals, Supplied, IsPrefix;
    if ReplaysFail(cfg.inn, records, cfg.firstIn) {
      forall actions | InterleavingOf(opens, actions, id, cfg, records)
        ensures IsPrefix(After(opens, INITIAL, actions).runs[id].inn.delivered, cfg, records)
      {
        PrefixIfReplaysFail(opens, actions, id, cfg, records);
      }
    } else {
      var k: nat, m: nat :|
        && Reached(cfg.inn, records, cfg.firstIn, k) && PayloadAt(cfg.inn, records, cfg.firstIn, k).None?
        && UnwrapNext(StreamAfter(cfg.inn, records, cfg.firstIn, k, m), records(cfg.firstIn + k)).1 != None;
      var actions := AcceptedReplayIsDelivered(opens, id, cfg, records, frame, k, m);
      assert InterleavingOf(opens, actions, id, cfg, records);
    }
  }

  lemma PrefixIfReplaysFail(opens: (nat, nat, bytes) -> Option<bytes>, actions: seq<Action>, id: nat, cfg: Config,
                            records: nat -> Option<bytes>)
    requires ReplaysFail(cfg.inn, records, cfg.firstIn) && InterleavingOf(opens, actions, id, cfg, records)
    ensures IsPrefix(After(opens, INITIAL, actions).runs[id].inn.delivered, cfg, records)
  {
    hide After, Authentic, Arrivals, ReplaysFail, PayloadAt;
    DeliveriesAreInOrder(opens, actions, id, records);
  }

  /** The fewest replays after which the record is accepted. */
  lemma LeastAccepted(start: Option<Inbound>, records: nat -> Option<bytes>, first: nat, k: nat, m: nat)
    returns (least: nat)
    requires UnwrapNext(StreamAfter(start, records, first, k, m), records(first + k)).1 != None
    ensures UnwrapNext(StreamAfter(start, records, first, k, least), records(first + k)).1 != None
    ensures forall j: nat | j < least ::
              UnwrapNext(StreamAfter(start, records, first, k, j), records(first + k)).1 == None
  {
    hide UnwrapNext, StreamAfter;
    least := 0;
    while UnwrapNext(StreamAfter(start, records, first, k, least), records(first + k)).1 == None
      invariant 0 <= least <= m
      invariant forall j: nat | j < least ::
                  UnwrapNext(StreamAfter(start, records, first, k, j), records(first + k)).1 == None
      decreases m - least
    {
      least := least + 1;
    }
  }

  /** If a record without a payload is accepted on some replay, some interleaving delivers it. */
  lemma AcceptedReplayIsDelivered(opens: (nat, nat, bytes) -> Option<bytes>, id: nat, cfg: Config,
                                  records: nat -> Option<bytes>,
                                  frame: nat -> bytes, k: nat, m: nat)
    returns (actions: seq<Action>)
    requires Supplied((m, f) => opens(id, m, f), records, frame) && Reached(cfg.inn, records, cfg.firstIn, k)
    requires PayloadAt(cfg.inn, records, cfg.firstIn, k).None?
    requires UnwrapNext(StreamAfter(cfg.inn, records, cfg.firstIn, k, m), records(cfg.firstIn + k)).1 != None
    ensures InterleavingOf(opens, actions, id, cfg, records)
    ensures !IsPrefix(After(opens, INITIAL, actions).runs[id].inn.delivered, cfg, records)
  {
    hide After, Authentic, Arrivals, Supplied, Reached, UnwrapIn, StreamAt, PayloadAt;
    var least := LeastAccepted(cfg.inn, records, cfg.firstIn, k, m);
    var before, had := RejectsTimes(opens, id, cfg, records, frame, k, least);
    var stream := StreamAfter(cfg.inn, records, cfg.firstIn, k, least);
    actions := ReadsOneAccepted(opens, before, id, cfg, records, frame, cfg.firstIn + k, stream, had);
    assert After(opens, INITIAL, actions).runs[id].inn.delivered[k]
        == UnwrapIn(stream, records(cfg.firstIn + k).value).1.value;
  }

  // ---- which first records are dangerous ----

  /** A client that has read nothing yet, and a server whose stream begins with this record. */
  function Fresh(uuid: bytes): Option<Inbound>
    requires |uuid| == 16
  {
    Some(InStream(false, Vision.NewReader(uuid)))
  }

  lemma FirstOf(uuid: bytes, record: bytes, first: nat)
    requires |uuid| == 16
    ensures var records := Numbered([record], first);
            && records(first) == Some(record) && StreamAt(Fresh(uuid), records, first, 0) == Fresh(uuid)
            && Reached(Fresh(uuid), records, first, 0)
            && PayloadAt(Fresh(uuid), records, first, 0) == UnwrapIn(Fresh(uuid), record).1
            && (forall m: nat :: StreamAfter(Fresh(uuid), records, first, 0, m) == Replayed(uuid, record, m))
            && (forall n: nat | n > first :: records(n) == None)
  {
    hide UnwrapIn;
    var records := Numbered([record], first);
    assert records(first) == Some(record);
    forall m: nat ensures StreamAfter(Fresh(uuid), records, first, 0, m) == Replayed(uuid, record, m) {
      SameReplays(uuid, record, first, m);
    }
  }

  /** The fresh stream end after the record was read `m` times. */
  function Replayed(uuid: bytes, record: bytes, m: nat): Option<Inbound>
    requires |uuid| == 16
  {
    if m == 0 then Fresh(uuid) else UnwrapIn(Replayed(uuid, record, m - 1), record).0
  }

  lemma {:induction false} SameReplays(uuid: bytes, record: bytes, first: nat, m: nat)
    requires |uuid| == 16
    ensures StreamAfter(Fresh(uuid), Numbered([record], first), first, 0, m) == Replayed(uuid, record, m)
  {
    hide UnwrapIn;
    var records := Numbered([record], first);
    assert records(first) == Some(record);
    assert StreamAt(Fresh(uuid), records, first, 0) == Fresh(uuid);
    if m > 0 { SameReplays(uuid, record, first, m - 1); }
  }

  /** A rejected first record that is accepted on some replay breaks the order. */
  lemma DangerousIf(uuid: bytes, record: bytes, first: nat, m: nat)
    requires |uuid| == 16 && UnwrapIn(Fresh(uuid), record).1 == None
    requires UnwrapIn(Replayed(uuid, record, m), record).1.Some?
    ensures !ReplaysFail(Fresh(uuid), Numbered([record], first), first)
  {
    hide UnwrapIn;
    FirstOf(uuid, record, first);
    var records := Numbered([record], first);
    assert UnwrapNext(StreamAfter(Fresh(uuid), records, first, 0, m), records(first + 0)).1 != None;
  }

  /** A framed first record rejected for its response header is dangerous: it is accepted whole on its first replay. */
  lemma RejectedResponseIsDangerous(uuid: bytes, content: bytes, draw: nat -> u64, first: nat)
    requires |uuid| == 16 && RequestHeader.ParseResponseHeader(content, RequestHeader.VERSION).Err?
    ensures var record := VisionIo.Padded(VisionIo.Writer(Some(uuid), true), content, false, true, draw).1;
            !ReplaysFail(Fresh(uuid), Numbered([record], first), first)
  {
    hide VisionIo.Padded, UnwrapIn;
    RejectedResponseComesBackRaw(uuid, content, draw);
    var record := VisionIo.Padded(VisionIo.Writer(Some(uuid), true), content, false, true, draw).1;
    assert Replayed(uuid, record, 1) == UnwrapIn(Replayed(uuid, record, 0), record).0;
    DangerousIf(uuid, record, first, 1);
  }

  /**
    * A first record refused for its identity is dangerous: the check is not made again, so its first replay is read
    * as a response, and if that has no valid header either, its second replay is copied.
    */
  lemma MismatchIsDangerous(uuid: bytes, record: bytes, first: nat)
    requires |uuid| == 16 && |record| >= 21 && record[..16] != uuid
    ensures UnwrapIn(Fresh(uuid), record).1 == None
    ensures !ReplaysFail(Fresh(uuid), Numbered([record], first), first)
  {
    var once := UnwrapIn(Fresh(uuid), record).0;
    assert once == Replayed(uuid, record, 1) by { assert Replayed(uuid, record, 0) == Fresh(uuid); }
    var (twice, second) := UnwrapIn(once, record);
    if second.Some? {
      DangerousIf(uuid, record, first, 1);
    } else {
      assert twice == Replayed(uuid, record, 2);
      DangerousIf(uuid, record, first, 2);
    }
  }

  /** The reader stands at a frame boundary, whatever came before. */
  predicate Bounded(s: Option<Inbound>) { s.Some? && Vision.AtBoundary(s.value.reader) }

  /** The five bytes at the front declare a frame longer than the reader takes. */
  predicate Oversized(w: bytes) {
    |w| >= 5 && (U16(w[1], w[2]) > Vision.MAX_FRAME_BODY || U16(w[3], w[4]) > Vision.MAX_FRAME_BODY)
  }

  lemma OversizedStays(r: Vision.Reader, w: bytes)
    requires Vision.AtBoundary(r) && Oversized(w)
    ensures Vision.Feed(r, w).err.Some? && Vision.AtBoundary(Vision.Feed(r, w).reader)
  {
    hide Vision.Step, Vision.Feed, U16;
    assert w == w[..5] + w[5..];
    Vision.FeedHeader(r, w[..5]);
    Vision.FeedConcat(r, w[..5], w[5..]);
  }

  lemma OversizedAgain(s: Option<Inbound>, record: bytes)
    requires Bounded(s) && Oversized(record)
    ensures UnwrapIn(s, record).1 == None && Bounded(UnwrapIn(s, record).0)
  {
    hide Vision.Feed, U16, Oversized;
    OversizedStays(s.value.reader, record);
  }

  lemma {:induction false} OversizedForever(uuid: bytes, record: bytes, m: nat)
    requires |uuid| == 16 && |record| >= 21 && record[..16] == uuid && Oversized(uuid) && Oversized(record[16..])
    ensures UnwrapIn(Replayed(uuid, record, m), record).1 == None
    ensures m > 0 ==> Bounded(Replayed(uuid, record, m))
  {
    hide Vision.Feed, U16;
    if m == 0 {
      OversizedStays(Vision.NewReader(uuid).(phase := Vision.Header, within := true, first := false), record[16..]);
    } else {
      OversizedForever(uuid, record, m - 1);
      if m > 1 {
        OversizedAgain(Replayed(uuid, record, m - 1), record);
      } else {
        OversizedStays(Vision.NewReader(uuid).(phase := Vision.Header, within := true, first := false), record[16..]);
      }
      OversizedAgain(Replayed(uuid, record, m), record);
    }
  }

  /**
    * Not every rejected record is dangerous: one whose first frame is oversized, under an identity whose own bytes
    * declare an oversized frame, is rejected on every replay, so the order holds although the stream never unwraps.
    */
  lemma OversizedIsSafe(uuid: bytes, record: bytes, first: nat)
    requires |uuid| == 16 && |record| >= 21 && record[..16] == uuid && Oversized(uuid) && Oversized(record[16..])
    ensures var records := Numbered([record], first);
            !Fluent(Fresh(uuid), records, first) && ReplaysFail(Fresh(uuid), records, first)
  {
    hide UnwrapIn, Oversized;
    forall m: nat ensures UnwrapIn(Replayed(uuid, record, m), record).1 == None { OversizedForever(uuid, record, m); }
    SafeIf(uuid, record, first);
  }

  /** The stream end's reader is stuck in a frame with an unknown command. */
  predicate StuckEnd(s: Option<Inbound>) { s.Some? && Vision.Stuck(s.value.reader) }

  lemma StuckAgain(s: Option<Inbound>, record: bytes)
    requires StuckEnd(s) && record != []
    ensures UnwrapIn(s, record).1 == None && StuckEnd(UnwrapIn(s, record).0)
  {
    hide Vision.Feed, Vision.Stuck;
    Vision.StuckStays(s.value.reader, record);
    assert !s.value.reader.phase.Initial? by { StuckIsLocked(s.value.reader); }
  }

  lemma StuckIsLocked(r: Vision.Reader)
    requires Vision.Stuck(r)
    ensures !r.phase.Initial?
  {
  }

  lemma {:induction false} StuckForever(uuid: bytes, record: bytes, m: nat)
    requires |uuid| == 16 && record != []
    requires UnwrapIn(Fresh(uuid), record).1 == None && StuckEnd(UnwrapIn(Fresh(uuid), record).0)
    ensures UnwrapIn(Replayed(uuid, record, m), record).1 == None
    ensures m > 0 ==> StuckEnd(Replayed(uuid, record, m))
  {
    hide UnwrapIn, StuckEnd;
    if m > 0 {
      StuckForever(uuid, record, m - 1);
      assert Replayed(uuid, record, 0) == Fresh(uuid);
      if m > 1 { StuckAgain(Replayed(uuid, record, m - 1), record); }
      StuckAgain(Replayed(uuid, record, m), record);
    }
  }

  /** A record rejected on every replay keeps the order, although the stream never unwraps. */
  lemma SafeIf(uuid: bytes, record: bytes, first: nat)
    requires |uuid| == 16 && forall m: nat :: UnwrapIn(Replayed(uuid, record, m), record).1 == None
    ensures var records := Numbered([record], first);
            !Fluent(Fresh(uuid), records, first) && ReplaysFail(Fresh(uuid), records, first)
  {
    hide UnwrapIn;
    var records := Numbered([record], first);
    FirstOf(uuid, record, first);
    assert Replayed(uuid, record, 0) == Fresh(uuid);
    assert PayloadAt(Fresh(uuid), records, first, 0).None? && records(first + 0).Some?;
    forall k: nat, m: nat
      | Reached(Fresh(uuid), records, first, k) && PayloadAt(Fresh(uuid), records, first, k).None?
      ensures UnwrapNext(StreamAfter(Fresh(uuid), records, first, k, m), records(first + k)).1 == None
    {
      if k == 0 { assert UnwrapIn(Replayed(uuid, record, m), record).1 == None; }
    }
  }

  /**
    * For every identity a first record whose first frame has a body and an unknown command is rejected on every
    * replay: the reader stays on that frame's last byte.
    */
  lemma UnknownCommandIsSafe(uuid: bytes, h: bytes, content: bytes, padding: bytes, rest: bytes, first: nat)
    requires |uuid| == 16 && |h| == 5 && h[0] > Vision.PADDING_DIRECT && |content| + |padding| > 0
    requires U16(h[1], h[2]) == |content| <= Vision.MAX_FRAME_BODY
    requires U16(h[3], h[4]) == |padding| <= Vision.MAX_FRAME_BODY
    ensures var records := Numbered([uuid + (h + (content + padding) + rest)], first);
            !Fluent(Fresh(uuid), records, first) && ReplaysFail(Fresh(uuid), records, first)
  {
    hide Vision.Feed, Vision.Stuck, U16;
    var frame := h + (content + padding);
    var record := uuid + (frame + rest);
    var r := Vision.NewReader(uuid).(phase := Vision.Header, within := true, first := false);
    assert record[..16] == uuid && record[16..] == frame + rest;
    Vision.UnknownCommandSticks(r, h, content, padding);
    Vision.FeedConcat(r, frame, rest);
    forall m: nat ensures UnwrapIn(Replayed(uuid, record, m), record).1 == None { StuckForever(uuid, record, m); }
    SafeIf(uuid, record, first);
  }

  /**
    * On the pump: for every framed first record whose response header is rejected there is an interleaving in which
    * its frame arrives twice and the TUN gets the framed record, although the record has no payload.
    */
  lemma RejectedResponseIsDelivered(opens: (nat, nat, bytes) -> Option<bytes>, cfg: Config, uuid: bytes, content: bytes,
                                    draw: nat -> u64, frame: bytes)
    requires |uuid| == 16 && RequestHeader.ParseResponseHeader(content, RequestHeader.VERSION).Err?
    requires cfg.inn == Fresh(uuid) && frame != []
    requires opens(0, cfg.firstIn, frame)
          == Some(VisionIo.Padded(VisionIo.Writer(Some(uuid), true), content, false, true, draw).1)
    ensures var record := opens(0, cfg.firstIn, frame).value;
            && PayloadAt(cfg.inn, Numbered([record], cfg.firstIn), cfg.firstIn, 0) == None
            && exists actions :: Unstopped(actions) && 0 in After(opens, INITIAL, actions).runs
                                 && After(opens, INITIAL, actions).runs[0].inn.delivered == [record]
  {
    hide After, OwnSteps, UnwrapIn, VisionIo.Padded, Authentic;
    var record := opens(0, cfg.firstIn, frame).value;
    RejectedResponseComesBackRaw(uuid, content, draw);
    FirstOf(uuid, record, cfg.firstIn);
    var o := (n: nat, f: bytes) => opens(0, n, f);
    var a := BeginsToRead(opens, 0, cfg, Numbered([record], cfg.firstIn));
    var s := After(opens, INITIAL, a);
    var steps := ReadsRejected(o, s.sh, s.runs[0], 0, cfg.firstIn, frame, record);
    a := Extend(opens, a, 0, steps);
    s := After(opens, INITIAL, a);
    steps := ReadsAccepted(o, s.sh, s.runs[0], 0, cfg.firstIn, frame, record, record);
    a := Extend(opens, a, 0, steps);
    assert [] + [record] == [record];
  }
}
