/**
  * The tunnel pump: every interleaving of `start`, `stop` and the two half-threads of every run, one
  * step per access to the shared atomics, the counters' mutex, the halt slot or the outside world.
  */
module Pump {
  import opened Bytes
  import opened VlessStream
  import Vision

  datatype OutStats = OutStats(packetsIn: nat, packetsOut: nat, dropped: nat, sealErrors: nat)

  datatype InStats = InStats(delivered: nat, openErrors: nat)

  const NO_OUT := OutStats(0, 0, 0, 0)
  const NO_IN := InStats(0, 0)

  function PlusOut(a: OutStats, b: OutStats): OutStats {
    OutStats(a.packetsIn + b.packetsIn, a.packetsOut + b.packetsOut, a.dropped + b.dropped, a.sealErrors + b.sealErrors)
  }

  function PlusIn(a: InStats, b: InStats): InStats { InStats(a.delivered + b.delivered, a.openErrors + b.openErrors) }

  /**
    * What the pump's threads share; `halt` names the run whose socket handle sits in the slot, `shut` the sockets shut
    * down.
    */
  datatype Shared = Shared(running: bool, stop: bool, alive: nat, seqOut: nat, seqIn: nat, outStats: OutStats,
                           inStats: InStats,
                           halt: Option<nat>, shut: set<nat>)

  /** The client's inbound stream end, in a state its own calls can leave it in. */
  type Inbound = i: InStream | Vision.Sound(i.reader) witness InStream(false, Vision.NewReader(Zeros(16)))

  /** What a start is given; the stream ends are absent in raw mode. */
  datatype Config = Config(blockIpv6: bool, firstOut: nat, firstIn: nat, out: Option<OutStream>, inn: Option<Inbound>)

  /** Thread-local work on a packet read: wrap it for the tunnel, unless in raw mode. */
  function WrapOut(stream: Option<OutStream>, packet: bytes, draw: nat -> u64): (Option<OutStream>, bytes) {
    if stream.None? then (None, packet)
    else
      var (next, wrapped) := Wrapped(stream.value, packet, draw);
      (Some(next), wrapped)
  }

  /** Thread-local work on a record opened; the stream end moves on even when it rejects the record. */
  function UnwrapIn(stream: Option<Inbound>, plaintext: bytes): (Option<Inbound>, Option<bytes>) {
    if stream.None? then (None, Some(plaintext))
    else
      var (next, got) := Unwrapped(stream.value, plaintext);
      (Some(next), if got.Ok? then Some(got.value) else None)
  }

  datatype StartPoint =
    | Calling | Swapped | StopCleared | OutStored | InStored | Cloned | HaltSet | AliveSet | OutSpawned | Started
    | Refused | CloneFailed

  datatype OutPoint =
    | OutTop | Reading | Got(p: bytes) | Counted(p: bytes) | Dropping(p: bytes) | Sealing(p: bytes, plaintext: bytes,
        seqno: nat)
    | Writing(p: bytes, plaintext: bytes, seqno: nat) | Wrote | Unwritten | OutHalting | Unsealed | SealFailed

  datatype InPoint =
    | InTop | Receiving | Fetched(frame: bytes) | Unsealing(frame: bytes, seqno: nat) | Delivering(p: bytes, seqno: nat)
    | Delivered | Undelivered | InHalting | Unopened | OpenFailed

  /** A half-thread: its loop, then `thread_finished`. */
  datatype Half<P> = Idle | Loop(at: P) | Exiting | StoringRunning | FinalHalt | Finished

  /**
    * A record sealed, or its frame fully written: the packet, the record plaintext it became, and the number it was
    * sealed at.
    */
  datatype Sent = Sent(seqno: nat, packet: bytes, plaintext: bytes)

  /**
    * The outbound half with its history: frames fully written, records sealed, failures, and its share of the counters.
    */
  datatype OutSide = OutSide(half: Half<OutPoint>, stream: Option<OutStream>, sent: seq<Sent>, sealed: seq<Sent>,
                             firstSealFailed: bool, writeFailed: bool, tally: OutStats)

  datatype InSide = InSide(half: Half<InPoint>, stream: Option<Inbound>, delivered: seq<bytes>, tally: InStats)

  datatype Run = Run(cfg: Config, start: StartPoint, out: OutSide, inn: InSide, outBase: OutStats, inBase: InStats)

  datatype State = State(sh: Shared, runs: map<nat, Run>)

  const INITIAL := State(Shared(false, false, 0, 0, 0, NO_OUT, NO_IN, None, {}), map[])

  function NewRun(cfg: Config): Run {
    Run(cfg, Calling, OutSide(Idle, cfg.out, [], [], false, false, NO_OUT), InSide(Idle, cfg.inn, [], NO_IN), NO_OUT,
        NO_IN)
  }

  function IpVersion(packet: bytes): nat { if packet == [] then 0 else packet[0] / 16 }

  function HaltSocket(sh: Shared): (r: Shared)
    ensures r == sh.(halt := r.halt, shut := r.shut)
  {
    if sh.halt.Some? then sh.(halt := None, shut := sh.shut + {sh.halt.value}) else sh
  }

  /** The outcome of a step that depends on the world: a read, random draws, a seal, a write. */
  datatype Event = Nothing | Packet(p: bytes) | Frame(f: bytes) | Draws(d: seq<u64>) | Closed | Good | Bad

  function DrawOf(e: Event): nat -> u64 { (i: nat) => if e.Draws? && i < |e.d| then e.d[i] else 0 }

  // ---- the steps ----

  function StartStep(sh: Shared, r: Run, id: nat, e: Event): (Shared, Run) {
    match r.start
    case Calling =>
      if sh.running then (sh, r.(start := Refused))
      else (sh.(running := true), r.(start := Swapped, outBase := sh.outStats, inBase := sh.inStats))
    case Swapped => (sh.(stop := false), r.(start := StopCleared))
    case StopCleared => (sh.(seqOut := r.cfg.firstOut), r.(start := OutStored))
    case OutStored => (sh.(seqIn := r.cfg.firstIn), r.(start := InStored))
    case InStored => (sh, r.(start := if e.Bad? then CloneFailed else Cloned))
    case Cloned => (sh.(halt := if e.Bad? then None else Some(id)), r.(start := HaltSet))
    case HaltSet => (sh.(alive := 2), r.(start := AliveSet))
    case AliveSet => (sh, r.(start := OutSpawned, out := r.out.(half := Loop(OutTop))))
    case OutSpawned => (sh, r.(start := Started, inn := r.inn.(half := Loop(InTop))))
    case _ => (sh, r)
  }

  /**
    * A step of the outbound loop: the half after it, the counter it leaves, what it adds to the statistics, whether it
    * shuts the socket.
    */
  datatype OutEffect = OutEffect(side: OutSide, seqOut: nat, stats: OutStats, halts: bool)

  function Pred(n: nat): nat { if n == 0 then 0 else n - 1 }

  function OutQuiet(o: OutSide, h: Half<OutPoint>, seqOut: nat): OutEffect {
    OutEffect(o.(half := h), seqOut, NO_OUT, false)
  }

  function Logged(sent: seq<Sent>, last: Sent): (r: seq<Sent>)
    ensures |r| == |sent| + 1
  {
    sent + [last]
  }

  function OutStep(o: OutSide, blockIpv6: bool, stop: bool, seqOut: nat, e: Event): OutEffect
    requires o.half.Loop?
  {
    match o.half.at
    case OutTop => OutQuiet(o, if stop then Exiting else Loop(Reading), seqOut)
    case Reading =>
      (match e
       case Packet(p) => OutQuiet(o, if p == [] then Exiting else Loop(Got(p)), seqOut)
       case Closed => OutQuiet(o, Exiting, seqOut)
       case _ => OutQuiet(o, Loop(OutTop), seqOut))
    case Got(p) => OutQuiet(o, Loop(Counted(p)), seqOut).(stats := NO_OUT.(packetsIn := 1))
    case Counted(p) =>
      if blockIpv6 && IpVersion(p) == 6 then OutQuiet(o, Loop(Dropping(p)), seqOut)
      else
        var (stream, wrapped) := WrapOut(o.stream, p, DrawOf(e));
        OutQuiet(o.(stream := stream), Loop(Sealing(p, wrapped, seqOut)), seqOut + 1)
    case Dropping(_) => OutQuiet(o, Loop(OutTop), seqOut).(stats := NO_OUT.(dropped := 1))
    case Sealing(p, w, n) =>
      if e.Good? then OutQuiet(o.(sealed := Logged(o.sealed, Sent(n, p, w))), Loop(Writing(p, w, n)), seqOut)
      else OutQuiet(o.(firstSealFailed := o.firstSealFailed || o.sent == []), Loop(Unsealed), seqOut)
    case Writing(p, w, n) =>
      if e.Good? then OutQuiet(o.(sent := Logged(o.sent, Sent(n, p, w))), Loop(Wrote), seqOut)
      else OutQuiet(o.(writeFailed := true), Loop(Unwritten), seqOut)
    case Wrote => OutQuiet(o, Loop(OutTop), seqOut).(stats := NO_OUT.(packetsOut := 1))
    case Unwritten => OutQuiet(o, Loop(OutHalting), Pred(seqOut))
    case OutHalting => OutQuiet(o, Exiting, seqOut).(halts := true)
    case Unsealed => OutQuiet(o, Loop(SealFailed), Pred(seqOut))
    case SealFailed => OutQuiet(o, Loop(OutTop), seqOut).(stats := NO_OUT.(sealErrors := 1))
  }

  datatype InEffect = InEffect(side: InSide, seqIn: nat, stats: InStats, halts: bool)

  function InQuiet(i: InSide, h: Half<InPoint>, seqIn: nat): InEffect { InEffect(i.(half := h), seqIn, NO_IN, false) }

  /** `opens(seqno, frame)` is what `open_record` returns. */
  function InStep(opens: (nat, bytes) -> Option<bytes>, i: InSide, stop: bool, seqIn: nat, e: Event): InEffect
    requires i.half.Loop?
  {
    match i.half.at
    case InTop => InQuiet(i, if stop then Exiting else Loop(Receiving), seqIn)
    case Receiving =>
      (match e
       case Frame(f) => InQuiet(i, if f == [] then Loop(InTop) else Loop(Fetched(f)), seqIn)
       case _ => InQuiet(i, Exiting, seqIn))
    case Fetched(f) => InQuiet(i, Loop(Unsealing(f, seqIn)), seqIn + 1)
    case Unsealing(f, n) =>
      (match opens(n, f)
       case None => InQuiet(i, Loop(Unopened), seqIn)
       case Some(plaintext) =>
         var (stream, packet) := UnwrapIn(i.stream, plaintext);
         InQuiet(i.(stream := stream), if packet.Some? then Loop(Delivering(packet.value, n)) else Loop(Unopened),
                 seqIn))
    case Delivering(p, n) =>
      if e.Good? then InQuiet(i.(delivered := i.delivered + [p]), Loop(Delivered), seqIn)
      else InQuiet(i, Loop(Undelivered), seqIn)
    case Delivered => InQuiet(i, Loop(InTop), seqIn).(stats := NO_IN.(delivered := 1))
    case Undelivered => InQuiet(i, Loop(InHalting), Pred(seqIn))
    case InHalting => InQuiet(i, Exiting, seqIn).(halts := true)
    case Unopened => InQuiet(i, Loop(OpenFailed), Pred(seqIn))
    case OpenFailed => InQuiet(i, Loop(InTop), seqIn).(stats := NO_IN.(openErrors := 1))
  }

  /** `thread_finished`: the last half out lowers `running`, then empties the halt slot. */
  function FinishStep<P>(sh: Shared, h: Half<P>): (Shared, Half<P>) {
    match h
    case Exiting => (sh.(alive := Pred(sh.alive)), if sh.alive == 1 then StoringRunning else Finished)
    case StoringRunning => (sh.(running := false), FinalHalt)
    case FinalHalt => (HaltSocket(sh), Finished)
    case _ => (sh, h)
  }

  datatype Thread = Starter | Outbound | Inbound

  function RunStep(opens: (nat, bytes) -> Option<bytes>, sh: Shared, r: Run, id: nat, t: Thread, e: Event)
    : (Shared, Run)
  {
    match t
    case Starter => StartStep(sh, r, id, e)
    case Outbound =>
      if r.out.half.Loop? then
        var x := OutStep(r.out, r.cfg.blockIpv6, sh.stop, sh.seqOut, e);
        var sh1 := sh.(seqOut := x.seqOut, outStats := PlusOut(sh.outStats, x.stats));
        (if x.halts then HaltSocket(sh1) else sh1, r.(out := x.side.(tally := PlusOut(r.out.tally, x.stats))))
      else
        var (sh1, h) := FinishStep(sh, r.out.half);
        (sh1, r.(out := r.out.(half := h)))
    case Inbound =>
      if r.inn.half.Loop? then
        var x := InStep(opens, r.inn, sh.stop, sh.seqIn, e);
        var sh1 := sh.(seqIn := x.seqIn, inStats := PlusIn(sh.inStats, x.stats));
        (if x.halts then HaltSocket(sh1) else sh1, r.(inn := x.side.(tally := PlusIn(r.inn.tally, x.stats))))
      else
        var (sh1, h) := FinishStep(sh, r.inn.half);
        (sh1, r.(inn := r.inn.(half := h)))
  }

  datatype Action = CallStart(id: nat, cfg: Config) | Step(id: nat, t: Thread, e: Event) | StopStores | StopHalts

  function Next(opens: (nat, nat, bytes) -> Option<bytes>, s: State, a: Action): State {
    match a
    case CallStart(id, cfg) => if id in s.runs then s else s.(runs := s.runs[id := NewRun(cfg)])
    case Step(id, t, e) =>
      if id !in s.runs then s
      else
        var (sh, r) := RunStep((n, f) => opens(id, n, f), s.sh, s.runs[id], id, t, e);
        State(sh, s.runs[id := r])
    case StopStores => s.(sh := s.sh.(stop := true))
    case StopHalts => s.(sh := HaltSocket(s.sh))
  }

  // ---- what holds of one run ----

  function Rank(p: StartPoint): nat {
    match p
    case Calling => 0
    case Refused => 0
    case Swapped => 1
    case CloneFailed => 1
    case StopCleared => 2
    case OutStored => 3
    case InStored => 4
    case Cloned => 5
    case HaltSet => 6
    case AliveSet => 7
    case OutSpawned => 8
    case Started => 9
  }

  /** Has not yet taken itself off `alive`. */
  predicate Unfinished<P>(h: Half<P>) { h.Idle? || h.Loop? || h.Exiting? }

  function Count(b: bool): nat { if b then 1 else 0 }

  /**
    * The run holds the pump: its start is past the swap and not everything is over, or a half has yet to lower
    * `running`.
    */
  predicate Busy(r: Run) {
    && 1 <= Rank(r.start)
    && (|| Rank(r.start) < 9 || Unfinished(r.out.half) || Unfinished(r.inn.half)
        || r.out.half.StoringRunning? || r.inn.half.StoringRunning?)
  }

  /** Some half is inside its loop or has not yet left it. */
  predicate Looping(r: Run) { r.out.half.Loop? || r.out.half.Exiting? || r.inn.half.Loop? || r.inn.half.Exiting? }

  /** A sequence number has been taken and is neither used up nor given back. */
  predicate OutstandingOut(o: OutSide) {
    o.half.Loop? && (o.half.at.Sealing? || o.half.at.Writing? || o.half.at.Unsealed? || o.half.at.Unwritten?)
  }

  predicate OutstandingIn(i: InSide) {
    i.half.Loop? && (i.half.at.Unsealing? || i.half.at.Delivering? || i.half.at.Unopened? || i.half.at.Undelivered?)
  }

  /** A packet has been counted in and its fate is not yet counted. */
  predicate InFlight(o: OutSide) {
    o.half.Loop? && (|| o.half.at.Counted? || o.half.at.Dropping? || o.half.at.Sealing? || o.half.at.Writing?
                     || o.half.at.Wrote?
                     || o.half.at.Unsealed? || o.half.at.SealFailed?)
  }

  /** A half that went first found the other still counted, so it is over; only the last one lowers `running`. */
  predicate OrderlyFinish(start: StartPoint, out: Half<OutPoint>, inn: Half<InPoint>) {
    && (!Unfinished(out) && Unfinished(inn) ==> out.Finished?)
    && (!Unfinished(inn) && Unfinished(out) ==> inn.Finished?)
    && (!Unfinished(out) && !Unfinished(inn) ==> out.Finished? || inn.Finished?)
    && (out.Idle? <==> Rank(start) < 8) && (inn.Idle? <==> Rank(start) < 9)
  }

  /** Fully written frames carry consecutive sequence numbers from the one the run was given. */
  predicate Contiguous(sent: seq<Sent>, first: nat) {
    forall k | 0 <= k < |sent| :: sent[k].seqno == first + k
  }

  predicate OutHistory(o: OutSide, first: nat) {
    && Contiguous(o.sent, first)
    && (o.half.Loop? && (o.half.at.Sealing? || o.half.at.Writing?) ==> o.half.at.seqno == first + |o.sent|)
  }

  /** No version-6 packet reaches the seal. */
  predicate Shielded(o: OutSide) {
    && (forall k | 0 <= k < |o.sealed| :: IpVersion(o.sealed[k].packet) != 6)
    && (o.half.Loop? && (o.half.at.Sealing? || o.half.at.Writing?) ==> IpVersion(o.half.at.p) != 6)
  }

  /** Every packet read is written, dropped or failed to seal, save one in flight and one lost to a failed write. */
  predicate Conserved(o: OutSide) {
    && o.tally.packetsIn == o.tally.packetsOut + o.tally.dropped + o.tally.sealErrors + Count(InFlight(o))
       + Count(o.writeFailed)
    && WriteFailureEnds(o)
  }

  predicate WriteFailureEnds(o: OutSide) {
    && (o.writeFailed ==> !o.half.Idle? && (o.half.Loop? ==> o.half.at.Unwritten? || o.half.at.OutHalting?))
    && (o.half.Loop? && o.half.at.Unwritten? ==> o.writeFailed)
  }

  /** Packets counted out are the frames written, but for one just written. */
  predicate CountedOut(o: OutSide) {
    o.tally.packetsOut + Count(o.half.Loop? && o.half.at.Wrote?) == |o.sent|
  }

  /** Sealed records carry consecutive numbers too, and all but one not (yet) written are the frames written. */
  predicate SealLog(o: OutSide, first: nat) {
    && Contiguous(o.sealed, first)
    && |o.sealed| == |o.sent| + Count(o.writeFailed || (o.half.Loop? && o.half.at.Writing?))
  }

  predicate OutOk(o: OutSide, cfg: Config) {
    && OutHistory(o, cfg.firstOut) && SealLog(o, cfg.firstOut) && Conserved(o) && CountedOut(o)
    && (cfg.blockIpv6 ==> Shielded(o))
    && (o.half.Idle? ==> o.sent == [] && o.sealed == [] && o.tally == NO_OUT)
  }

  /** Deliveries and the inbound count agree, and the number in hand is the next one. */
  predicate InOk(i: InSide, cfg: Config) {
    && (i.half.Loop? && (i.half.at.Unsealing? || i.half.at.Delivering?)
        ==> i.half.at.seqno == cfg.firstIn + |i.delivered|)
    && i.tally.delivered + Count(i.half.Loop? && i.half.at.Delivered?) == |i.delivered|
    && (i.half.Idle? ==> i.delivered == [] && i.tally == NO_IN)
  }

  predicate RunOk(r: Run) {
    OrderlyFinish(r.start, r.out.half, r.inn.half) && OutOk(r.out, r.cfg) && InOk(r.inn, r.cfg)
  }

  /** While a run is busy the shared counters are its own. */
  predicate Linked(sh: Shared, r: Run) {
    Busy(r) ==>
      && sh.running
      && sh.outStats == PlusOut(r.outBase, r.out.tally) && sh.inStats == PlusIn(r.inBase, r.inn.tally)
      && (Rank(r.start) >= 3 ==> sh.seqOut == r.cfg.firstOut + |r.out.sent| + Count(OutstandingOut(r.out)))
      && (Rank(r.start) >= 4 ==> sh.seqIn == r.cfg.firstIn + |r.inn.delivered| + Count(OutstandingIn(r.inn)))
      && (Rank(r.start) >= 7 ==> sh.alive == Count(Unfinished(r.out.half)) + Count(Unfinished(r.inn.half)))
  }

  /** What a step of one run may do to the shared state, by whether the run is busy before and after. */
  predicate StepEffect(sh: Shared, sh': Shared, before: bool, after: bool) {
    && (!before && !after ==> sh' == sh.(halt := sh'.halt, shut := sh'.shut))
    && (!before && after ==> !sh.running && sh' == sh.(running := true))
    && (before && !after ==> !sh'.running)
    && (before && after ==> sh'.running)
  }

  predicate Kept(sh: Shared, r: Run, next: (Shared, Run)) {
    && RunOk(next.1) && Linked(next.0, next.1)
    && StepEffect(sh, next.0, Busy(r), Busy(next.1)) && next.1.cfg == r.cfg
  }

  // ---- one step of one run ----

  /** A half not yet spawned has no history, and spawning it is harmless. */
  lemma SpawnOk(o: OutSide, i: InSide, cfg: Config)
    requires OutOk(o, cfg) && InOk(i, cfg)
    ensures o.half.Idle? ==> o.sent == [] && o.sealed == [] && o.tally == NO_OUT && OutOk(o.(half := Loop(OutTop)), cfg)
    ensures i.half.Idle? ==> i.delivered == [] && i.tally == NO_IN && InOk(i.(half := Loop(InTop)), cfg)
  {
    hide IpVersion;
  }

  lemma StartStepOk(sh: Shared, r: Run, id: nat, e: Event)
    requires RunOk(r) && Linked(sh, r)
    ensures Kept(sh, r, StartStep(sh, r, id, e))
  {
    hide OutOk, InOk;
    SpawnOk(r.out, r.inn, r.cfg);
  }

  lemma ContiguousGrows(sent: seq<Sent>, first: nat, last: Sent)
    requires Contiguous(sent, first) && last.seqno == first + |sent|
    ensures Contiguous(Logged(sent, last), first)
  {
  }

  lemma OutStepHistory(o: OutSide, first: nat, blockIpv6: bool, stop: bool, seqOut: nat, e: Event)
    requires OutHistory(o, first) && o.half.Loop? && seqOut == first + |o.sent| + Count(OutstandingOut(o))
    ensures var x := OutStep(o, blockIpv6, stop, seqOut, e);
            && OutHistory(x.side, first) && x.seqOut == first + |x.side.sent| + Count(OutstandingOut(x.side))
            && (x.side.half.Loop? || x.side.half.Exiting?)
  {
    hide IpVersion, WrapOut, DrawOf, Logged, Contiguous;
    if o.half.at.Writing? { ContiguousGrows(o.sent, first, Sent(o.half.at.seqno, o.half.at.p, o.half.at.plaintext)); }
  }

  lemma OutStepFailureEnds(o: OutSide, blockIpv6: bool, stop: bool, seqOut: nat, e: Event)
    requires WriteFailureEnds(o) && o.half.Loop?
    ensures WriteFailureEnds(OutStep(o, blockIpv6, stop, seqOut, e).side)
  {
    hide IpVersion, WrapOut, DrawOf;
  }

  lemma OutStepConserved(o: OutSide, blockIpv6: bool, stop: bool, seqOut: nat, e: Event)
    requires Conserved(o) && o.half.Loop?
    ensures var x := OutStep(o, blockIpv6, stop, seqOut, e);
            Conserved(x.side.(tally := PlusOut(o.tally, x.stats)))
  {
    hide IpVersion, WrapOut, DrawOf;
    OutStepFailureEnds(o, blockIpv6, stop, seqOut, e);
  }

  lemma OutStepCountedOut(o: OutSide, blockIpv6: bool, stop: bool, seqOut: nat, e: Event)
    requires CountedOut(o) && o.half.Loop?
    ensures var x := OutStep(o, blockIpv6, stop, seqOut, e);
            CountedOut(x.side.(tally := PlusOut(o.tally, x.stats)))
  {
    hide IpVersion, WrapOut, DrawOf, Logged;
    OnlyWritesAreCounted(o, blockIpv6, stop, seqOut, e);
    hide OutStep;
  }

  /** What one step does to the frames written and to their count. */
  lemma OnlyWritesAreCounted(o: OutSide, blockIpv6: bool, stop: bool, seqOut: nat, e: Event)
    requires o.half.Loop?
    ensures var x := OutStep(o, blockIpv6, stop, seqOut, e);
            && x.stats.packetsOut == Count(o.half.at.Wrote?)
            && |x.side.sent| == |o.sent| + Count(x.side.half.Loop? && x.side.half.at.Wrote?)
  {
    hide IpVersion, WrapOut, DrawOf, Logged;
  }

  /** What one step does to the records sealed. */
  lemma OnlySealsAreLogged(o: OutSide, blockIpv6: bool, stop: bool, seqOut: nat, e: Event)
    requires o.half.Loop?
    ensures var x := OutStep(o, blockIpv6, stop, seqOut, e).side;
            && x.sealed == (if o.half.at.Sealing? && e.Good?
                            then Logged(o.sealed, Sent(o.half.at.seqno, o.half.at.p, o.half.at.plaintext))
                                else o.sealed)
            && |x.sent| == |o.sent| + Count(o.half.at.Writing? && e.Good?)
            && x.writeFailed == (o.writeFailed || (o.half.at.Writing? && !e.Good?))
            && ((x.half.Loop? && x.half.at.Writing?) <==> (o.half.at.Sealing? && e.Good?))
  {
    hide IpVersion, WrapOut, DrawOf, Logged;
  }

  /** Which packets a step brings before the seal and before the write. */
  lemma OnlyCountedAreSealed(o: OutSide, blockIpv6: bool, stop: bool, seqOut: nat, e: Event)
    requires o.half.Loop?
    ensures var h := OutStep(o, blockIpv6, stop, seqOut, e).side.half;
            && (h.Loop? && h.at.Sealing? ==> o.half.at.Counted? && !(blockIpv6 && IpVersion(h.at.p) == 6))
            && (h.Loop? && h.at.Writing? ==> o.half.at.Sealing? && h.at.p == o.half.at.p)
  {
    hide IpVersion, WrapOut, DrawOf, Logged;
  }

  lemma OutStepShielded(o: OutSide, stop: bool, seqOut: nat, e: Event)
    requires Shielded(o) && o.half.Loop?
    ensures Shielded(OutStep(o, true, stop, seqOut, e).side)
  {
    hide IpVersion, OutStep;
    OnlySealsAreLogged(o, true, stop, seqOut, e);
    OnlyCountedAreSealed(o, true, stop, seqOut, e);
  }

  lemma OutStepSealLog(o: OutSide, first: nat, blockIpv6: bool, stop: bool, seqOut: nat, e: Event)
    requires SealLog(o, first) && OutHistory(o, first) && WriteFailureEnds(o) && o.half.Loop?
    ensures SealLog(OutStep(o, blockIpv6, stop, seqOut, e).side, first)
  {
    hide OutStep, Logged, Contiguous;
    OnlySealsAreLogged(o, blockIpv6, stop, seqOut, e);
    if o.half.at.Sealing? { ContiguousGrows(o.sealed, first, Sent(o.half.at.seqno, o.half.at.p, o.half.at.plaintext)); }
  }

  lemma OutStepOk(o: OutSide, cfg: Config, stop: bool, seqOut: nat, e: Event)
    requires OutOk(o, cfg) && o.half.Loop? && seqOut == cfg.firstOut + |o.sent| + Count(OutstandingOut(o))
    ensures var x := OutStep(o, cfg.blockIpv6, stop, seqOut, e);
            && OutOk(x.side.(tally := PlusOut(o.tally, x.stats)), cfg)
            && x.seqOut == cfg.firstOut + |x.side.sent| + Count(OutstandingOut(x.side))
            && (x.side.half.Loop? || x.side.half.Exiting?)
  {
    assert WriteFailureEnds(o);
    OutStepSealLog(o, cfg.firstOut, cfg.blockIpv6, stop, seqOut, e);
    hide OutStep, IpVersion, Conserved, CountedOut, PlusOut, SealLog, Contiguous;
    OutStepHistory(o, cfg.firstOut, cfg.blockIpv6, stop, seqOut, e);
    if cfg.blockIpv6 { OutStepShielded(o, stop, seqOut, e); }
    OutStepConserved(o, cfg.blockIpv6, stop, seqOut, e);
    OutStepCountedOut(o, cfg.blockIpv6, stop, seqOut, e);
  }

  lemma InStepOk(opens: (nat, bytes) -> Option<bytes>, i: InSide, cfg: Config, stop: bool, seqIn: nat, e: Event)
    requires InOk(i, cfg) && i.half.Loop?
    requires seqIn == cfg.firstIn + |i.delivered| + Count(OutstandingIn(i))
    ensures var x := InStep(opens, i, stop, seqIn, e);
            && InOk(x.side.(tally := PlusIn(i.tally, x.stats)), cfg)
            && x.seqIn == cfg.firstIn + |x.side.delivered| + Count(OutstandingIn(x.side))
            && (x.side.half.Loop? || x.side.half.Exiting?)
  {
    hide UnwrapIn;
  }

  /** Leaving the loop changes nothing a half has recorded. */
  lemma PastTheLoop(o: OutSide, h: Half<OutPoint>, i: InSide, g: Half<InPoint>, cfg: Config)
    requires !o.half.Loop? && !i.half.Loop?
    requires !h.Loop? && (h.Idle? <==> o.half.Idle?) && !g.Loop? && (g.Idle? <==> i.half.Idle?)
    ensures OutOk(o, cfg) ==> OutOk(o.(half := h), cfg)
    ensures InOk(i, cfg) ==> InOk(i.(half := g), cfg)
  {
    hide IpVersion;
  }

  lemma OutboundLoops(opens: (nat, bytes) -> Option<bytes>, sh: Shared, r: Run, id: nat, e: Event)
    requires RunOk(r) && Linked(sh, r) && r.out.half.Loop?
    ensures Kept(sh, r, RunStep(opens, sh, r, id, Outbound, e))
  {
    hide OutStep, OutOk, InOk, Rank;
    OutStepOk(r.out, r.cfg, sh.stop, sh.seqOut, e);
  }

  lemma OutboundFinishes(opens: (nat, bytes) -> Option<bytes>, sh: Shared, r: Run, id: nat, e: Event)
    requires RunOk(r) && Linked(sh, r) && !r.out.half.Loop?
    ensures Kept(sh, r, RunStep(opens, sh, r, id, Outbound, e))
  {
    hide OutStep, OutOk, InOk, Rank;
    var idle: InSide := InSide(Idle, None, [], NO_IN);
    PastTheLoop(r.out, FinishStep(sh, r.out.half).1, idle, Idle, r.cfg);
  }

  lemma InboundLoops(opens: (nat, bytes) -> Option<bytes>, sh: Shared, r: Run, id: nat, e: Event)
    requires RunOk(r) && Linked(sh, r) && r.inn.half.Loop?
    ensures Kept(sh, r, RunStep(opens, sh, r, id, Inbound, e))
  {
    hide InStep, InOk, OutOk, Rank;
    InStepOk(opens, r.inn, r.cfg, sh.stop, sh.seqIn, e);
  }

  lemma InboundFinishes(opens: (nat, bytes) -> Option<bytes>, sh: Shared, r: Run, id: nat, e: Event)
    requires RunOk(r) && Linked(sh, r) && !r.inn.half.Loop?
    ensures Kept(sh, r, RunStep(opens, sh, r, id, Inbound, e))
  {
    hide InStep, InOk, OutOk, Rank;
    var idle: OutSide := OutSide(Idle, None, [], [], false, false, NO_OUT);
    PastTheLoop(idle, Idle, r.inn, FinishStep(sh, r.inn.half).1, r.cfg);
  }

  lemma RunStepOk(opens: (nat, bytes) -> Option<bytes>, sh: Shared, r: Run, id: nat, t: Thread, e: Event)
    requires RunOk(r) && Linked(sh, r)
    ensures Kept(sh, r, RunStep(opens, sh, r, id, t, e))
  {
    hide Kept, RunOk, Linked, StartStep, OutStep, InStep, FinishStep;
    match t
    case Starter => StartStepOk(sh, r, id, e);
    case Outbound =>
      if r.out.half.Loop? { OutboundLoops(opens, sh, r, id, e); } else { OutboundFinishes(opens, sh, r, id, e); }
    case Inbound =>
      if r.inn.half.Loop? { InboundLoops(opens, sh, r, id, e); } else { InboundFinishes(opens, sh, r, id, e); }
  }

  // ---- all runs together ----

  /** Every run is in order, at most one is busy, and `running` is up exactly while one is. */
  ghost predicate Inv(s: State) {
    && (forall i | i in s.runs :: RunOk(s.runs[i]))
    && (forall i | i in s.runs :: Linked(s.sh, s.runs[i]))
    && (forall i, j | i in s.runs && j in s.runs && Busy(s.runs[i]) && Busy(s.runs[j]) :: i == j)
    && (s.sh.running ==> exists i :: i in s.runs && Busy(s.runs[i]))
  }

  lemma InitialInv()
    ensures Inv(INITIAL)
  {
  }

  /** A step of one run leaves every other run's view of the shared state intact. */
  lemma OthersKeep(sh: Shared, sh': Shared, before: bool, after: bool, other: Run)
    requires StepEffect(sh, sh', before, after) && Linked(sh, other)
    requires before ==> !Busy(other)
    ensures Linked(sh', other) && (after ==> !Busy(other))
  {
    hide Rank;
  }

  lemma StepKeepsInv(opens: (nat, nat, bytes) -> Option<bytes>, s: State, id: nat, t: Thread, e: Event)
    requires Inv(s) && id in s.runs
    ensures Inv(Next(opens, s, Step(id, t, e)))
  {
    hide RunOk, Linked, Busy, RunStep;
    var (sh, r) := RunStep((n, f) => opens(id, n, f), s.sh, s.runs[id], id, t, e);
    RunStepOk((n, f) => opens(id, n, f), s.sh, s.runs[id], id, t, e);
    var before, after := Busy(s.runs[id]), Busy(r);
    forall j | j in s.runs && j != id
      ensures Linked(sh, s.runs[j]) && (after ==> !Busy(s.runs[j]))
    {
      OthersKeep(s.sh, sh, before, after, s.runs[j]);
    }
    var next := Next(opens, s, Step(id, t, e));
    assert next == State(sh, s.runs[id := r]);
    if sh.running && !after {
      assert s.sh.running;
      var i :| i in s.runs && Busy(s.runs[i]);
      assert i in next.runs && Busy(next.runs[i]);
    } else if sh.running {
      assert id in next.runs && Busy(next.runs[id]);
    }
  }

  lemma NewRunOk(sh: Shared, cfg: Config)
    ensures RunOk(NewRun(cfg)) && Linked(sh, NewRun(cfg)) && !Busy(NewRun(cfg))
  {
  }

  lemma SameBusyRun(s: State, t: State)
    requires s.sh.running ==> exists i :: i in s.runs && Busy(s.runs[i])
    requires forall i | i in s.runs :: i in t.runs && t.runs[i] == s.runs[i]
    ensures s.sh.running ==> exists i :: i in t.runs && Busy(t.runs[i])
  {
    hide Busy;
    if s.sh.running {
      var i :| i in s.runs && Busy(s.runs[i]);
      assert i in t.runs && Busy(t.runs[i]);
    }
  }

  lemma NextKeepsInv(opens: (nat, nat, bytes) -> Option<bytes>, s: State, a: Action)
    requires Inv(s)
    ensures Inv(Next(opens, s, a))
  {
    hide RunOk, Busy, RunStep, NewRun;
    match a
    case Step(id, th, e) => if id in s.runs { StepKeepsInv(opens, s, id, th, e); }
    case CallStart(id, cfg) =>
      NewRunOk(s.sh, cfg);
      SameBusyRun(s, Next(opens, s, a));
    case _ => SameBusyRun(s, Next(opens, s, a));
  }

  function After(opens: (nat, nat, bytes) -> Option<bytes>, s: State, actions: seq<Action>): State
    decreases |actions|
  {
    if actions == [] then s else After(opens, Next(opens, s, actions[0]), actions[1..])
  }

  lemma {:induction false} AfterKeepsInv(opens: (nat, nat, bytes) -> Option<bytes>, s: State, actions: seq<Action>)
    requires Inv(s)
    ensures Inv(After(opens, s, actions))
    decreases |actions|
  {
    if actions != [] {
      NextKeepsInv(opens, s, actions[0]);
      AfterKeepsInv(opens, Next(opens, s, actions[0]), actions[1..]);
    }
  }

  // ---- what every interleaving guarantees ----

  /**
    * Mutual exclusion: in every interleaving, `running` down means no half of any run is in its loop, two
    * runs never have looping halves at once, and whenever one has, the counters are exactly that run's own.
    */
  lemma RunsNeverOverlap(opens: (nat, nat, bytes) -> Option<bytes>, actions: seq<Action>)
    ensures var s := After(opens, INITIAL, actions);
            && (!s.sh.running ==> forall i | i in s.runs :: !Looping(s.runs[i]))
            && (forall i, j | i in s.runs && j in s.runs && Looping(s.runs[i]) && Looping(s.runs[j]) :: i == j)
            && (forall i | i in s.runs && Looping(s.runs[i]) ::
                  var r := s.runs[i];
                  && s.sh.seqOut == r.cfg.firstOut + |r.out.sent| + Count(OutstandingOut(r.out))
                  && (r.inn.half.Loop? || r.inn.half.Exiting? ==>
                        s.sh.seqIn == r.cfg.firstIn + |r.inn.delivered| + Count(OutstandingIn(r.inn)))
                  && s.sh.outStats == PlusOut(r.outBase, r.out.tally)
                  && s.sh.inStats == PlusIn(r.inBase, r.inn.tally))
  {
    hide OutOk, InOk, After;
    InitialInv();
    AfterKeepsInv(opens, INITIAL, actions);
    var s := After(opens, INITIAL, actions);
    forall i | i in s.runs && Looping(s.runs[i])
      ensures Busy(s.runs[i])
    {
      LoopingIsBusy(s.runs[i]);
    }
  }

  lemma LoopingIsBusy(r: Run)
    requires RunOk(r) && Looping(r)
    ensures Busy(r) && Rank(r.start) >= 8
  {
    hide OutOk, InOk;
  }

  /**
    * Every run of every interleaving, finished or not: its fully written frames, and the records it sealed, carry the
    * numbers first, first + 1, ... without gap or repeat, at most one sealed record not being written; every packet
    * read is accounted for; and behind the shield no version-6 packet is sealed.
    */
  lemma EveryRunIsOrderly(opens: (nat, nat, bytes) -> Option<bytes>, actions: seq<Action>, id: nat)
    requires id in After(opens, INITIAL, actions).runs
    ensures var r := After(opens, INITIAL, actions).runs[id];
            && (forall k | 0 <= k < |r.out.sent| :: r.out.sent[k].seqno == r.cfg.firstOut + k)
            && (forall k | 0 <= k < |r.out.sealed| :: r.out.sealed[k].seqno == r.cfg.firstOut + k)
            && |r.out.sent| <= |r.out.sealed| <= |r.out.sent| + 1
            && r.out.tally.packetsIn == r.out.tally.packetsOut + r.out.tally.dropped + r.out.tally.sealErrors
                                        + Count(InFlight(r.out)) + Count(r.out.writeFailed)
            && (r.out.half.Finished? ==> !InFlight(r.out) && r.out.tally.packetsOut == |r.out.sent|)
            && (r.inn.half.Finished? ==> r.inn.tally.delivered == |r.inn.delivered|)
            && (r.cfg.blockIpv6 ==> forall k | 0 <= k < |r.out.sealed| :: IpVersion(r.out.sealed[k].packet) != 6)
  {
    hide After, IpVersion;
    InitialInv();
    AfterKeepsInv(opens, INITIAL, actions);
  }

  /** At the head of each loop the counter is the starting number plus what the run has done. */
  lemma CountersAtLoopHeads(opens: (nat, nat, bytes) -> Option<bytes>, actions: seq<Action>, id: nat)
    requires id in After(opens, INITIAL, actions).runs
    ensures var s := After(opens, INITIAL, actions);
            var r := s.runs[id];
            && (r.out.half == Loop(OutTop) ==> s.sh.seqOut == r.cfg.firstOut + |r.out.sent|)
            && (r.inn.half == Loop(InTop) ==> s.sh.seqIn == r.cfg.firstIn + |r.inn.delivered|)
  {
    hide After;
    RunsNeverOverlap(opens, actions);
  }

  lemma {:induction false} StuckStays(opens: (nat, nat, bytes) -> Option<bytes>, s: State, actions: seq<Action>,
                                      id: nat)
    requires Inv(s) && id in s.runs && s.runs[id].start == CloneFailed
    ensures var t := After(opens, s, actions); t.sh.running && id in t.runs && t.runs[id].start == CloneFailed
    decreases |actions|
  {
    hide RunOk, Busy;
    if actions == [] {
      assert Busy(s.runs[id]) by { CloneFailedIsBusy(s.runs[id]); }
    } else {
      var t := Next(opens, s, actions[0]);
      NextKeepsInv(opens, s, actions[0]);
      assert id in t.runs && t.runs[id].start == CloneFailed by {
        StartPointOfOthers(opens, s, actions[0], id);
      }
      StuckStays(opens, t, actions[1..], id);
    }
  }

  lemma CloneFailedIsBusy(r: Run)
    requires r.start == CloneFailed
    ensures Busy(r)
  {
  }

  lemma StartPointOfOthers(opens: (nat, nat, bytes) -> Option<bytes>, s: State, a: Action, id: nat)
    requires id in s.runs && s.runs[id].start == CloneFailed
    ensures id in Next(opens, s, a).runs && Next(opens, s, a).runs[id].start == CloneFailed
  {
    hide OutStep, InStep, FinishStep, HaltSocket;
  }

  /** No thread of the run has anything left to do. */
  predicate AtRest(r: Run) {
    && (r.start.Started? || r.start.Refused? || r.start.CloneFailed?)
    && (r.out.half.Idle? || r.out.half.Finished?) && (r.inn.half.Idle? || r.inn.half.Finished?)
  }

  predicate AllAtRest(s: State) { forall i | i in s.runs :: AtRest(s.runs[i]) }

  /** Once no thread can move, `running` is up exactly if some start failed to clone its socket. */
  lemma RunningAtRest(opens: (nat, nat, bytes) -> Option<bytes>, actions: seq<Action>)
    requires AllAtRest(After(opens, INITIAL, actions))
    ensures var s := After(opens, INITIAL, actions);
            s.sh.running <==> exists i :: i in s.runs && s.runs[i].start == CloneFailed
  {
    hide After, Busy, AtRest, Rank, RunOk;
    InitialInv();
    AfterKeepsInv(opens, INITIAL, actions);
    var s := After(opens, INITIAL, actions);
    if s.sh.running {
      var i :| i in s.runs && Busy(s.runs[i]);
      BusyAtRest(s.runs[i]);
    }
    forall i | i in s.runs && s.runs[i].start == CloneFailed
      ensures s.sh.running
    {
      CloneFailedIsBusy(s.runs[i]);
      assert Linked(s.sh, s.runs[i]);
    }
  }

  lemma BusyAtRest(r: Run)
    requires Busy(r) && AtRest(r) && RunOk(r)
    ensures r.start == CloneFailed
  {
    hide OutOk, InOk;
  }

  /**
    * A start whose socket clone fails, at any point of any interleaving, leaves `running` up for good: every later
    * start is refused.
    */
  lemma FailedCloneWedgesThePump(opens: (nat, nat, bytes) -> Option<bytes>, before: seq<Action>, after: seq<Action>,
                                 id: nat)
    requires var s := After(opens, INITIAL, before); id in s.runs && s.runs[id].start == InStored
    ensures var s := After(opens, Next(opens, After(opens, INITIAL, before), Step(id, Starter, Bad)), after);
            && s.sh.running
            && forall j | j in s.runs && s.runs[j].start == Calling ::
                 StartStep(s.sh, s.runs[j], j, Nothing).1.start == Refused
  {
    hide After;
    var s := After(opens, INITIAL, before);
    InitialInv();
    AfterKeepsInv(opens, INITIAL, before);
    NextKeepsInv(opens, s, Step(id, Starter, Bad));
    StuckStays(opens, Next(opens, s, Step(id, Starter, Bad)), after, id);
  }
}
