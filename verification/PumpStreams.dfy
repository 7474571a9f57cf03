/**
  * What the pump's inbound half delivers: in every interleaving the server's payloads in order, whatever frames arrive.
  */
module PumpStreams {
  import opened Bytes
  import opened VlessStream
  import opened Pump
  import opened PumpTraces
  import RequestHeader
  import Vision
  import VisionIo

  // ---- inbound: what a server's records mean to the client ----

  /** One step along the server's records; a number without a record changes nothing and has no payload. */
  function UnwrapNext(stream: Option<Inbound>, record: Option<bytes>): (Option<Inbound>, Option<bytes>) {
    if record.None? then (stream, None) else UnwrapIn(stream, record.value)
  }

  /** The client's stream end after the first `k` records from number `first` on. */
  function StreamAt(start: Option<Inbound>, records: nat -> Option<bytes>, first: nat, k: nat): Option<Inbound> {
    if k == 0 then start else UnwrapNext(StreamAt(start, records, first, k - 1), records(first + k - 1)).0
  }

  /** The payload of the `k`-th of those records; none if there is no record or the stream end rejects it. */
  function PayloadAt(start: Option<Inbound>, records: nat -> Option<bytes>, first: nat, k: nat): Option<bytes> {
    UnwrapNext(StreamAt(start, records, first, k), records(first + k)).1
  }

  /** Every record there is, taken in order, has a payload. */
  ghost predicate Fluent(start: Option<Inbound>, records: nat -> Option<bytes>, first: nat) {
    forall k: nat :: records(first + k).Some? ==> PayloadAt(start, records, first, k).Some?
  }

  /** A frame that arrives and opens at a sequence number opens to the server's record of that number. */
  ghost predicate Authentic(opens: (nat, bytes) -> Option<bytes>, frames: set<bytes>, records: nat -> Option<bytes>) {
    forall n, f | f in frames :: opens(n, f).Some? ==> opens(n, f) == records(n)
  }

  /** The stream end once `k` records were taken in order and the next one was then rejected `m` times. */
  function StreamAfter(start: Option<Inbound>, records: nat -> Option<bytes>, first: nat, k: nat, m: nat)
    : Option<Inbound>
  {
    if m == 0 then StreamAt(start, records, first, k)
    else UnwrapNext(StreamAfter(start, records, first, k, m - 1), records(first + k)).0
  }

  /** The records before the `k`-th all have payloads. */
  ghost predicate Reached(start: Option<Inbound>, records: nat -> Option<bytes>, first: nat, k: nat) {
    forall i | 0 <= i < k :: PayloadAt(start, records, first, i).Some?
  }

  /** The first record rejected in order, if there is one, is rejected however often it is replayed. */
  ghost predicate ReplaysFail(start: Option<Inbound>, records: nat -> Option<bytes>, first: nat) {
    forall k: nat, m: nat | Reached(start, records, first, k) && PayloadAt(start, records, first, k).None? ::
      UnwrapNext(StreamAfter(start, records, first, k, m), records(first + k)).1 == None
  }

  lemma FluentReplaysFail(start: Option<Inbound>, records: nat -> Option<bytes>, first: nat)
    requires Fluent(start, records, first)
    ensures ReplaysFail(start, records, first)
  {
    hide UnwrapIn, StreamAt;
    forall k: nat, m: nat | Reached(start, records, first, k) && PayloadAt(start, records, first, k).None?
      ensures UnwrapNext(StreamAfter(start, records, first, k, m), records(first + k)).1 == None
    {
      assert records(first + k).None?;
    }
  }

  /** The stream end stands after `k` records, or after rejections of the next one. */
  ghost predicate Behind(stream: Option<Inbound>, start: Option<Inbound>, records: nat -> Option<bytes>, first: nat,
                         k: nat) {
    exists m: nat :: stream == StreamAfter(start, records, first, k, m)
                     && (m > 0 ==> PayloadAt(start, records, first, k).None?)
  }

  lemma BehindAtFirst(start: Option<Inbound>, records: nat -> Option<bytes>, first: nat, k: nat)
    ensures Behind(StreamAt(start, records, first, k), start, records, first, k)
  {
    hide StreamAt, PayloadAt;
    assert StreamAfter(start, records, first, k, 0) == StreamAt(start, records, first, k);
  }

  /** Where the next record leaves it: still behind, or past the record with the record's own payload. */
  lemma BehindMoves(stream: Option<Inbound>, start: Option<Inbound>, records: nat -> Option<bytes>, first: nat, k: nat)
    requires Behind(stream, start, records, first, k) && Reached(start, records, first, k) && records(first + k).Some?
    requires ReplaysFail(start, records, first)
    ensures var (next, payload) := UnwrapIn(stream, records(first + k).value);
            if payload.None? then Behind(next, start, records, first, k)
            else payload == PayloadAt(start, records, first, k) && next == StreamAt(start, records, first, k + 1)
  {
    hide UnwrapIn, Reached;
    var m: nat :| stream == StreamAfter(start, records, first, k, m)
                  && (m > 0 ==> PayloadAt(start, records, first, k).None?);
    var (next, payload) := UnwrapIn(stream, records(first + k).value);
    assert (next, payload) == UnwrapNext(stream, records(first + k));
    assert StreamAfter(start, records, first, k, 0) == StreamAt(start, records, first, k);
    assert m > 0 ==> UnwrapNext(StreamAfter(start, records, first, k, m), records(first + k)).1 == None;
    if payload.None? { assert next == StreamAfter(start, records, first, k, m + 1); }
  }

  /** What was delivered is the payloads in order, and the stream end is where that many records leave it. */
  ghost predicate InOrder(i: InSide, cfg: Config, frames: set<bytes>, records: nat -> Option<bytes>) {
    && (i.half.Loop? && (i.half.at.Fetched? || i.half.at.Unsealing?) ==> i.half.at.frame in frames)
    && (forall k | 0 <= k < |i.delivered| :: PayloadAt(cfg.inn, records, cfg.firstIn, k) == Some(i.delivered[k]))
    && (i.half.Idle? ==> i.stream == cfg.inn)
    && (i.half.Loop? && i.half.at.Delivering? ==>
          && PayloadAt(cfg.inn, records, cfg.firstIn, |i.delivered|) == Some(i.half.at.p)
          && i.stream == StreamAt(cfg.inn, records, cfg.firstIn, |i.delivered| + 1))
    && (i.half.Loop? && !i.half.at.Delivering? && !i.half.at.Undelivered? && !i.half.at.InHalting? ==>
          Behind(i.stream, cfg.inn, records, cfg.firstIn, |i.delivered|))
  }

  lemma InStepInOrder(opens: (nat, bytes) -> Option<bytes>, i: InSide, cfg: Config, stop: bool, seqIn: nat, e: Event,
                      frames: set<bytes>, records: nat -> Option<bytes>)
    requires InOrder(i, cfg, frames, records) && InOk(i, cfg) && i.half.Loop?
    requires Authentic(opens, frames, records) && ReplaysFail(cfg.inn, records, cfg.firstIn)
    requires e.Frame? ==> e.f in frames
    ensures InOrder(InStep(opens, i, stop, seqIn, e).side, cfg, frames, records)
  {
    hide UnwrapIn, Behind, PayloadAt, StreamAt, ReplaysFail;
    var k := |i.delivered|;
    if i.half.at.Unsealing? && opens(i.half.at.seqno, i.half.at.frame).Some? {
      BehindMoves(i.stream, cfg.inn, records, cfg.firstIn, k);
    } else if i.half.at.Delivering? {
      BehindAtFirst(cfg.inn, records, cfg.firstIn, k + 1);
    }
  }

  lemma RunStepInOrder(opens: (nat, bytes) -> Option<bytes>, sh: Shared, r: Run, id: nat, t: Thread, e: Event,
                      frames: set<bytes>, records: nat -> Option<bytes>)
    requires InOrder(r.inn, r.cfg, frames, records) && RunOk(r)
    requires Authentic(opens, frames, records) && ReplaysFail(r.cfg.inn, records, r.cfg.firstIn)
    requires e.Frame? ==> e.f in frames
    ensures InOrder(RunStep(opens, sh, r, id, t, e).1.inn, r.cfg, frames, records)
            && RunStep(opens, sh, r, id, t, e).1.cfg == r.cfg
  {
    hide OutStep, InStep, OutOk, PayloadAt, HaltSocket, UnwrapIn, Behind, ReplaysFail;
    BehindAtFirst(r.cfg.inn, records, r.cfg.firstIn, 0);
    if t.Inbound? && r.inn.half.Loop? {
      InStepInOrder(opens, r.inn, r.cfg, sh.stop, sh.seqIn, e, frames, records);
    }
  }

  /** The run's own records, as the pump's threads meet them. */
  ghost predicate Attested(opens: (nat, nat, bytes) -> Option<bytes>, id: nat, cfg: Config, frames: set<bytes>,
                           records: nat -> Option<bytes>) {
    Authentic((n, f) => opens(id, n, f), frames, records) && ReplaysFail(cfg.inn, records, cfg.firstIn)
  }

  lemma {:induction false} AfterInOrder(opens: (nat, nat, bytes) -> Option<bytes>, s: State, actions: seq<Action>,
                                        id: nat, cfg: Config,
                                        frames: set<bytes>, records: nat -> Option<bytes>)
    requires Arrivals(actions, id) <= frames
    requires Inv(s) && Attested(opens, id, cfg, frames, records)
    requires id in s.runs && s.runs[id].cfg == cfg ==> InOrder(s.runs[id].inn, cfg, frames, records)
    ensures var t := After(opens, s, actions);
            id in t.runs && t.runs[id].cfg == cfg ==> InOrder(t.runs[id].inn, cfg, frames, records)
    decreases |actions|
  {
    hide InOrder, RunStep, ReplaysFail, RunOk, Busy, Linked;
    if actions != [] {
      var t := Next(opens, s, actions[0]);
      NextKeepsInv(opens, s, actions[0]);
      if id in s.runs && actions[0].Step? && actions[0].id == id {
        RunStepKeepsConfig((n, f) => opens(id, n, f), s.sh, s.runs[id], id, actions[0].t, actions[0].e);
        if s.runs[id].cfg == cfg {
          RunStepInOrder((n, f) => opens(id, n, f), s.sh, s.runs[id], id, actions[0].t, actions[0].e, frames, records);
        }
      }
      NewRunInOrder(cfg, frames, records);
      assert Arrivals(actions[1..], id) <= Arrivals(actions, id);
      assert actions[0] in actions && forall a | a in actions[1..] :: a in actions;
      assert actions[0].Step? && actions[0].id == id && actions[0].e.Frame? ==> actions[0].e.f in Arrivals(actions, id);
      AfterInOrder(opens, t, actions[1..], id, cfg, frames, records);
    }
  }

  lemma NewRunInOrder(cfg: Config, frames: set<bytes>, records: nat -> Option<bytes>)
    ensures InOrder(NewRun(cfg).inn, cfg, frames, records)
  {
  }

  lemma RunStepKeepsConfig(opens: (nat, bytes) -> Option<bytes>, sh: Shared, r: Run, id: nat, t: Thread, e: Event)
    ensures RunStep(opens, sh, r, id, t, e).1.cfg == r.cfg
  {
    hide OutStep, InStep, HaltSocket, FinishStep;
  }

  /**
    * In-order delivery, raw or VLESS: whatever frames are injected, duplicated or reordered on the inbound
    * stream, what reaches the TUN is a prefix of the payloads of the server's records, in order and without
    * repeats, as long as the first record the stream end rejects, if any, is rejected on every replay.
    */
  lemma DeliveriesAreInOrder(opens: (nat, nat, bytes) -> Option<bytes>, actions: seq<Action>, id: nat,
                             records: nat -> Option<bytes>)
    requires id in After(opens, INITIAL, actions).runs
    requires Attested(opens, id, After(opens, INITIAL, actions).runs[id].cfg, Arrivals(actions, id), records)
    ensures var r := After(opens, INITIAL, actions).runs[id];
            forall k | 0 <= k < |r.inn.delivered| ::
                PayloadAt(r.cfg.inn, records, r.cfg.firstIn, k) == Some(r.inn.delivered[k])
  {
    hide After, Attested, PayloadAt, StreamAt;
    InitialInv();
    AfterInOrder(opens, INITIAL, actions, id, After(opens, INITIAL, actions).runs[id].cfg, Arrivals(actions, id),
                 records);
  }

  /** In raw mode every server stream unwraps, each record to itself. */
  lemma RawIsFluent(records: nat -> Option<bytes>, first: nat)
    ensures Fluent(None, records, first) && forall k: nat :: PayloadAt(None, records, first, k) == records(first + k)
  {
    forall k: nat ensures PayloadAt(None, records, first, k) == records(first + k) { RawStreamAt(records, first, k); }
  }

  lemma {:induction false} RawStreamAt(records: nat -> Option<bytes>, first: nat, k: nat)
    ensures StreamAt(None, records, first, k) == None
  {
    if k > 0 { RawStreamAt(records, first, k - 1); }
  }

  /**
    * In raw mode the deliveries are a prefix of a list of records numbered from zero, from the run's first number on.
    */
  lemma RawDeliveries(opens: (nat, nat, bytes) -> Option<bytes>, actions: seq<Action>, id: nat, all: seq<bytes>, r: Run)
    requires id in After(opens, INITIAL, actions).runs && r == After(opens, INITIAL, actions).runs[id]
    requires r.cfg.inn.None? && r.cfg.firstIn <= |all|
    requires Authentic((n, f) => opens(id, n, f), Arrivals(actions, id), Numbered(all, 0))
    ensures r.inn.delivered <= all[r.cfg.firstIn..]
  {
    hide After, Authentic, Arrivals, PayloadAt, Fluent, ReplaysFail, Numbered;
    RawIsFluent(Numbered(all, 0), r.cfg.firstIn);
    FluentReplaysFail(None, Numbered(all, 0), r.cfg.firstIn);
    DeliveriesAreInOrder(opens, actions, id, Numbered(all, 0));
    PrefixFrom(r.inn.delivered, all, r.cfg.firstIn);
  }

  lemma PrefixFrom(delivered: seq<bytes>, all: seq<bytes>, first: nat)
    requires first <= |all|
    requires forall k | 0 <= k < |delivered| :: Numbered(all, 0)(first + k) == Some(delivered[k])
    ensures delivered <= all[first..]
  {
    forall k | 0 <= k < |delivered|
      ensures first + k < |all| && all[first + k] == delivered[k]
    {
      assert Numbered(all, 0)(first + k) == Some(delivered[k]);
    }
    var last := |delivered| - 1;
    assert delivered != [] ==> first + last < |all| && all[first + last] == delivered[last];
  }

  /** A stream end past its padding phase and its response copies every record. */
  predicate Copying(s: Option<Inbound>) { s.Some? ==> s.value.responseSeen && s.value.reader.phase.Direct? }

  lemma CopyingCopies(s: Option<Inbound>, record: bytes)
    requires Copying(s)
    ensures UnwrapIn(s, record).1 == Some(record) && Copying(UnwrapIn(s, record).0)
  {
    if s.Some? { Vision.DirectIsAbsorbing(s.value.reader, record); }
  }

  lemma {:induction false} StreamCopies(start: Option<Inbound>, records: nat -> Option<bytes>, first: nat, k: nat)
    requires k >= 1 && Copying(StreamAt(start, records, first, 1))
    ensures Copying(StreamAt(start, records, first, k)) && PayloadAt(start, records, first, k) == records(first + k)
  {
    hide UnwrapIn, Copying;
    if k > 1 {
      StreamCopies(start, records, first, k - 1);
      if records(first + k - 1).Some? {
        CopyingCopies(StreamAt(start, records, first, k - 1), records(first + k - 1).value);
      }
    }
    if records(first + k).Some? { CopyingCopies(StreamAt(start, records, first, k), records(first + k).value); }
  }

  /** A list of records, numbered from `first` on. */
  function Numbered(replies: seq<bytes>, first: nat): nat -> Option<bytes> {
    (n: nat) => if first <= n < first + |replies| then Some(replies[n - first]) else None
  }

  /** The honest server's stream always unwraps: its first record to what it answered, each later one to itself. */
  lemma HonestStreamIsFluent(uuid: bytes, answer: bytes, draw: nat -> u64, replies: seq<bytes>, first: nat)
    requires |uuid| == 16 && replies != []
    requires replies[0] == VisionIo.Padded(VisionIo.Writer(Some(uuid), true), RequestHeader.ResponseHeader() + answer,
                                           false, true, draw).1
    ensures var start := Some(InStream(false, Vision.NewReader(uuid)));
            var records := Numbered(replies, first);
            && Fluent(start, records, first) && PayloadAt(start, records, first, 0) == Some(answer)
            && forall k: nat | k >= 1 :: PayloadAt(start, records, first, k) == records(first + k)
  {
    var start: Option<Inbound> := Some(InStream(false, Vision.NewReader(uuid)));
    var records := Numbered(replies, first);
    FirstUnwrap(uuid, answer, draw);
    assert records(first) == Some(replies[0]);
    assert StreamAt(start, records, first, 0) == start;
    assert StreamAt(start, records, first, 1) == UnwrapIn(start, replies[0]).0;
    forall k: nat | k >= 1 ensures PayloadAt(start, records, first, k) == records(first + k) {
      StreamCopies(start, records, first, k);
    }
  }

  lemma FirstUnwrap(uuid: bytes, answer: bytes, draw: nat -> u64)
    requires |uuid| == 16
    ensures var start := Some(InStream(false, Vision.NewReader(uuid)));
            var record := VisionIo.Padded(VisionIo.Writer(Some(uuid), true), RequestHeader.ResponseHeader() + answer,
                                          false, true, draw).1;
            UnwrapIn(start, record).1 == Some(answer) && Copying(UnwrapIn(start, record).0)
  {
    VisionIo.NewInStep(uuid);
    VisionIo.UnpadInvertsPad(VisionIo.Writer(Some(uuid), true), Vision.NewReader(uuid),
                             RequestHeader.ResponseHeader() + answer, false, true, draw);
    assert (RequestHeader.ResponseHeader() + answer)[4..] == answer;
  }

  /**
    * Why the stream must unwrap: a framed first record rejected only for its response header gives its number
    * back but leaves the stream end copying, so the same record arriving again is delivered whole, framing included.
    */
  lemma RejectedResponseComesBackRaw(uuid: bytes, content: bytes, draw: nat -> u64)
    requires |uuid| == 16 && RequestHeader.ParseResponseHeader(content, RequestHeader.VERSION).Err?
    ensures var start := Some(InStream(false, Vision.NewReader(uuid)));
            var record := VisionIo.Padded(VisionIo.Writer(Some(uuid), true), content, false, true, draw).1;
            var (next, rejected) := UnwrapIn(start, record);
            rejected == None && UnwrapIn(next, record).1 == Some(record)
  {
    var start: Option<Inbound> := Some(InStream(false, Vision.NewReader(uuid)));
    var w := VisionIo.Writer(Some(uuid), true);
    var record := VisionIo.Padded(w, content, false, true, draw).1;
    VisionIo.NewInStep(uuid);
    VisionIo.UnpadInvertsPad(w, Vision.NewReader(uuid), content, false, true, draw);
    CopyingCopies(UnwrapIn(start, record).0, record);
  }
}
