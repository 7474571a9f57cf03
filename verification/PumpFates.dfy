/**
  * What becomes of every packet read from the TUN, told by an onlooker who sees each step of an interleaving from
  * outside; and one whole turn of either loop, for each thing the world can do.
  */
module PumpFates {
  import opened Bytes
  import opened VlessStream
  import opened Pump
  import opened PumpTraces

  // ---- the onlooker ----

  /** A seal attempted: the packet, and whether a record came of it. */
  datatype Attempt = Attempt(packet: bytes, sealed: bool)

  /** The packets the TUN handed over, the packets counted as dropped, and the seals attempted, each in order. */
  datatype Watch = Watch(read: seq<bytes>, drops: seq<bytes>, tried: seq<Attempt>)

  function Noted(w: Watch, at: OutPoint, e: Event): Watch {
    match at
    case Reading => if e.Packet? && e.p != [] then w.(read := w.read + [e.p]) else w
    case Dropping(p) => w.(drops := w.drops + [p])
    case Sealing(p, _, _) => w.(tried := w.tried + [Attempt(p, e.Good?)])
    case _ => w
  }

  function Watching(w: Watch, s: State, a: Action, id: nat): Watch {
    if a.Step? && a.id == id && a.t.Outbound? && id in s.runs && s.runs[id].out.half.Loop?
    then Noted(w, s.runs[id].out.half.at, a.e) else w
  }

  /** What was seen of a run over a whole interleaving. */
  function Watched(opens: (nat, nat, bytes) -> Option<bytes>, actions: seq<Action>, id: nat): Watch
    decreases |actions|
  {
    if actions == [] then Watch([], [], [])
    else
      var before := actions[..|actions| - 1];
      Watching(Watched(opens, before, id), After(opens, INITIAL, before), actions[|actions| - 1], id)
  }

  // ---- the rule it is compared with ----

  /** The shield stops a packet: it is on, and the packet starts like an IPv6 header. */
  predicate Stopped(shield: bool, p: bytes) { shield && p != [] && 0x60 <= p[0] <= 0x6f }

  function StoppedOf(shield: bool, ps: seq<bytes>): seq<bytes> {
    if ps == [] then []
    else StoppedOf(shield, ps[..|ps| - 1]) + (if Stopped(shield, ps[|ps| - 1]) then [ps[|ps| - 1]] else [])
  }

  function PassedOf(shield: bool, ps: seq<bytes>): seq<bytes> {
    if ps == [] then []
    else PassedOf(shield, ps[..|ps| - 1]) + (if Stopped(shield, ps[|ps| - 1]) then [] else [ps[|ps| - 1]])
  }

  function Tried(ts: seq<Attempt>): seq<bytes> {
    if ts == [] then [] else Tried(ts[..|ts| - 1]) + [ts[|ts| - 1].packet]
  }

  function SealedOf(ts: seq<Attempt>): seq<bytes> {
    if ts == [] then []
    else SealedOf(ts[..|ts| - 1]) + (if ts[|ts| - 1].sealed then [ts[|ts| - 1].packet] else [])
  }

  function Carrying(sent: seq<Sent>): seq<bytes> {
    if sent == [] then [] else Carrying(sent[..|sent| - 1]) + [sent[|sent| - 1].packet]
  }

  /** The packet read whose drop, or whose seal, is still to come. */
  function InHand(o: OutSide): seq<bytes> {
    if !o.half.Loop? then []
    else
      match o.half.at
      case Got(p) => [p]
      case Counted(p) => [p]
      case Dropping(p) => [p]
      case Sealing(p, _, _) => [p]
      case _ => []
  }

  /** The packets read are sorted by their first byte, in order: stopped ones dropped, the others given to the seal. */
  predicate Sorted(shield: bool, w: Watch, o: OutSide) {
    && StoppedOf(shield, w.read) == w.drops + StoppedOf(shield, InHand(o))
    && PassedOf(shield, w.read) == Tried(w.tried) + PassedOf(shield, InHand(o))
    && (o.half.Loop? && o.half.at.Dropping? ==> Stopped(shield, o.half.at.p))
    && (o.half.Loop? && o.half.at.Sealing? ==> !Stopped(shield, o.half.at.p))
  }

  /** The records sealed carry the packets whose seal succeeded; the frames written are the first of these. */
  predicate Logs(w: Watch, o: OutSide) {
    && Carrying(o.sealed) == SealedOf(w.tried)
    && o.sealed == o.sent + Pending(o)
  }

  /** The record sealed and not (yet) written. */
  function Pending(o: OutSide): seq<Sent>
  {
    if o.half.Loop? && o.half.at.Writing? then [Sent(o.half.at.seqno, o.half.at.p, o.half.at.plaintext)]
    else if o.writeFailed && o.sealed != [] then [o.sealed[|o.sealed| - 1]] else []
  }

  /** The statistics are the counts of what was seen, but for a step whose count is still to come. */
  predicate Counts(w: Watch, o: OutSide) {
    && o.tally.packetsIn + Count(o.half.Loop? && o.half.at.Got?) == |w.read|
    && o.tally.dropped == |w.drops|
    && o.tally.sealErrors + Count(o.half.Loop? && (o.half.at.Unsealed? || o.half.at.SealFailed?)) + |o.sealed|
       == |w.tried|
  }

  predicate Followed(shield: bool, w: Watch, o: OutSide) { Sorted(shield, w, o) && Logs(w, o) && Counts(w, o) }

  lemma {:induction false} NothingIsStopped(ps: seq<bytes>)
    ensures StoppedOf(false, ps) == [] && PassedOf(false, ps) == ps
  {
    if ps != [] { NothingIsStopped(ps[..|ps| - 1]); }
  }

  // ---- one step ----

  lemma Grow(shield: bool, ps: seq<bytes>, p: bytes)
    ensures StoppedOf(shield, ps + [p]) == StoppedOf(shield, ps) + (if Stopped(shield, p) then [p] else [])
    ensures PassedOf(shield, ps + [p]) == PassedOf(shield, ps) + (if Stopped(shield, p) then [] else [p])
  {
    hide Stopped;
    assert (ps + [p])[..|ps|] == ps;
  }

  lemma One(shield: bool, p: bytes)
    ensures StoppedOf(shield, [p]) == if Stopped(shield, p) then [p] else []
    ensures PassedOf(shield, [p]) == if Stopped(shield, p) then [] else [p]
    ensures StoppedOf(shield, []) == [] && PassedOf(shield, []) == []
  {
    hide Stopped;
    Grow(shield, [], p);
    assert [] + [p] == [p];
  }

  lemma GrowTried(ts: seq<Attempt>, t: Attempt)
    ensures Tried(ts + [t]) == Tried(ts) + [t.packet]
    ensures SealedOf(ts + [t]) == SealedOf(ts) + (if t.sealed then [t.packet] else [])
  {
    assert (ts + [t])[..|ts|] == ts;
  }

  lemma GrowCarrying(sent: seq<Sent>, s: Sent)
    ensures Carrying(sent + [s]) == Carrying(sent) + [s.packet]
  {
    assert (sent + [s])[..|sent|] == sent;
  }

  /** The shield's test on the first byte, as the loop makes it. */
  lemma VersionIsFirstNibble(shield: bool, p: bytes)
    ensures (shield && IpVersion(p) == 6) <==> Stopped(shield, p)
  {
  }

  /** Which packet is in hand after a step, and where a counted packet goes. */
  lemma HandStep(o: OutSide, shield: bool, stop: bool, seqOut: nat, e: Event)
    requires o.half.Loop?
    ensures var x := OutStep(o, shield, stop, seqOut, e).side;
            && InHand(x) == (if o.half.at.Reading? && e.Packet? && e.p != [] then [e.p]
                             else if o.half.at.Got? || o.half.at.Counted? then [o.half.at.p] else [])
            && (x.half.Loop? && x.half.at.Dropping? ==> o.half.at.Counted? && shield && IpVersion(o.half.at.p) == 6)
            && (x.half.Loop? && x.half.at.Sealing? ==> o.half.at.Counted? && !(shield && IpVersion(o.half.at.p) == 6))
  {
    hide IpVersion, WrapOut, DrawOf, Logged;
  }

  lemma SortedStep(shield: bool, w: Watch, o: OutSide, stop: bool, seqOut: nat, e: Event)
    requires Sorted(shield, w, o) && o.half.Loop?
    ensures Sorted(shield, Noted(w, o.half.at, e), OutStep(o, shield, stop, seqOut, e).side)
  {
    hide OutStep, Stopped, IpVersion, StoppedOf, PassedOf, Tried;
    HandStep(o, shield, stop, seqOut, e);
    match o.half.at
    case Reading =>
      if e.Packet? && e.p != [] {
        Grow(shield, w.read, e.p);
        One(shield, e.p);
      }
    case Got(p) =>
    case Counted(p) => VersionIsFirstNibble(shield, p);
    case Dropping(p) => One(shield, p);
    case Sealing(p, _, _) =>
      One(shield, p);
      GrowTried(w.tried, Attempt(p, e.Good?));
    case _ =>
  }

  /** What a step does to the frames written. */
  lemma WriteStep(o: OutSide, shield: bool, stop: bool, seqOut: nat, e: Event)
    requires o.half.Loop?
    ensures var x := OutStep(o, shield, stop, seqOut, e).side;
            && x.sent == (if o.half.at.Writing? && e.Good?
                          then o.sent + [Sent(o.half.at.seqno, o.half.at.p, o.half.at.plaintext)] else o.sent)
            && (o.half.at.Sealing? && e.Good? ==>
                  x.half == Loop(Writing(o.half.at.p, o.half.at.plaintext, o.half.at.seqno)))
  {
    hide IpVersion, WrapOut, DrawOf;
  }

  lemma LogsStep(shield: bool, w: Watch, o: OutSide, stop: bool, seqOut: nat, e: Event)
    requires Logs(w, o) && WriteFailureEnds(o) && o.half.Loop?
    ensures Logs(Noted(w, o.half.at, e), OutStep(o, shield, stop, seqOut, e).side)
  {
    hide OutStep, SealedOf, Carrying, Tried;
    OnlySealsAreLogged(o, shield, stop, seqOut, e);
    WriteStep(o, shield, stop, seqOut, e);
    if o.half.at.Sealing? {
      GrowTried(w.tried, Attempt(o.half.at.p, e.Good?));
      GrowCarrying(o.sealed, Sent(o.half.at.seqno, o.half.at.p, o.half.at.plaintext));
    }
  }

  /** What a step adds to the statistics. */
  lemma StatsStep(o: OutSide, shield: bool, stop: bool, seqOut: nat, e: Event)
    requires o.half.Loop?
    ensures var x := OutStep(o, shield, stop, seqOut, e);
            && x.stats.packetsIn == Count(o.half.at.Got?) && x.stats.dropped == Count(o.half.at.Dropping?)
            && x.stats.sealErrors == Count(o.half.at.SealFailed?)
  {
    hide IpVersion, WrapOut, DrawOf, Logged;
  }

  /** Where a step whose count is still to come leads from. */
  lemma PointStep(o: OutSide, shield: bool, stop: bool, seqOut: nat, e: Event)
    requires o.half.Loop?
    ensures var x := OutStep(o, shield, stop, seqOut, e);
            (x.side.half.Loop? && x.side.half.at.Got?) <==> (o.half.at.Reading? && e.Packet? && e.p != [])
  {
    hide IpVersion, WrapOut, DrawOf, Logged;
  }

  lemma FailurePointStep(o: OutSide, shield: bool, stop: bool, seqOut: nat, e: Event)
    requires o.half.Loop?
    ensures var x := OutStep(o, shield, stop, seqOut, e);
            && ((x.side.half.Loop? && x.side.half.at.Unsealed?) <==> (o.half.at.Sealing? && !e.Good?))
            && ((x.side.half.Loop? && x.side.half.at.SealFailed?) <==> o.half.at.Unsealed?)
  {
    hide IpVersion, WrapOut, DrawOf, Logged;
    match o.half.at
    case Sealing(_, _, _) =>
    case Unsealed =>
    case _ =>
  }

  lemma CountsStep(shield: bool, w: Watch, o: OutSide, stop: bool, seqOut: nat, e: Event)
    requires Counts(w, o) && o.half.Loop?
    ensures var x := OutStep(o, shield, stop, seqOut, e);
            Counts(Noted(w, o.half.at, e), x.side.(tally := PlusOut(o.tally, x.stats)))
  {
    hide OutStep;
    OnlySealsAreLogged(o, shield, stop, seqOut, e);
    StatsStep(o, shield, stop, seqOut, e);
    PointStep(o, shield, stop, seqOut, e);
    FailurePointStep(o, shield, stop, seqOut, e);
  }

  // ---- every interleaving ----

  predicate FollowedIn(w: Watch, s: State, id: nat) {
    if id in s.runs then Followed(s.runs[id].cfg.blockIpv6, w, s.runs[id].out) else w == Watch([], [], [])
  }

  /** Outside its loop a half has nothing in hand, and no step there touches what it recorded. */
  lemma QuietKeeps(shield: bool, w: Watch, o: OutSide, h: Half<OutPoint>)
    requires Followed(shield, w, o) && !o.half.Loop? && (h.Loop? ==> h.at.OutTop?)
    ensures Followed(shield, w, o.(half := h))
  {
    hide StoppedOf, PassedOf, Tried, SealedOf, Carrying;
  }

  lemma FollowedStep(opens: (nat, bytes) -> Option<bytes>, w: Watch, sh: Shared, r: Run, id: nat, t: Thread, e: Event)
    requires RunOk(r) && Followed(r.cfg.blockIpv6, w, r.out)
    ensures var seen := if t.Outbound? && r.out.half.Loop? then Noted(w, r.out.half.at, e) else w;
            var next := RunStep(opens, sh, r, id, t, e).1;
            Followed(next.cfg.blockIpv6, seen, next.out)
  {
    hide OutStep, InStep, Sorted, Logs, Counts, OutHistory, SealLog, CountedOut, Shielded, InOk, Noted;
    match t
    case Outbound =>
      if r.out.half.Loop? {
        var x := OutStep(r.out, r.cfg.blockIpv6, sh.stop, sh.seqOut, e);
        SortedStep(r.cfg.blockIpv6, w, r.out, sh.stop, sh.seqOut, e);
        LogsStep(r.cfg.blockIpv6, w, r.out, sh.stop, sh.seqOut, e);
        CountsStep(r.cfg.blockIpv6, w, r.out, sh.stop, sh.seqOut, e);
        TallyAside(r.cfg.blockIpv6, Noted(w, r.out.half.at, e), x.side, PlusOut(r.out.tally, x.stats));
      } else {
        QuietKeeps(r.cfg.blockIpv6, w, r.out, FinishStep(sh, r.out.half).1);
      }
    case Starter => if r.start.AliveSet? { QuietKeeps(r.cfg.blockIpv6, w, r.out, Loop(OutTop)); }
    case Inbound =>
  }

  lemma TallyAside(shield: bool, w: Watch, o: OutSide, tally: OutStats)
    ensures Sorted(shield, w, o) ==> Sorted(shield, w, o.(tally := tally))
    ensures Logs(w, o) ==> Logs(w, o.(tally := tally))
  {
    hide StoppedOf, PassedOf, Tried, SealedOf, Carrying;
  }

  lemma NewRunIsFollowed(cfg: Config)
    ensures NewRun(cfg).cfg == cfg && Followed(cfg.blockIpv6, Watch([], [], []), NewRun(cfg).out)
  {
  }

  lemma {:induction false} EveryRunIsFollowed(opens: (nat, nat, bytes) -> Option<bytes>, actions: seq<Action>, id: nat)
    ensures FollowedIn(Watched(opens, actions, id), After(opens, INITIAL, actions), id)
    decreases |actions|
  {
    hide Followed, RunOk, RunStep, After, NewRun, Noted;
    if actions == [] {
      AfterNothing(opens, INITIAL);
    } else {
      var before, a := actions[..|actions| - 1], actions[|actions| - 1];
      var s, w := After(opens, INITIAL, before), Watched(opens, before, id);
      EveryRunIsFollowed(opens, before, id);
      assert actions == before + [a];
      AfterSnoc(opens, INITIAL, before, a);
      match a
      case CallStart(_, cfg) => NewRunIsFollowed(cfg);
      case Step(j, t, e) =>
        if j == id && id in s.runs {
          InitialInv();
          AfterKeepsInv(opens, INITIAL, before);
          FollowedStep((n, f) => opens(id, n, f), w, s.sh, s.runs[id], id, t, e);
        }
      case _ =>
    }
  }

  /**
    * The fate of every packet, in every interleaving: of the packets read, those the shield stops — it is on and the
    * first byte is 0x60 to 0x6f — are dropped and the others are given to the seal, both in the order read and save
    * the one in hand; the records sealed carry, in order, the packets whose seal did not fail; the frames written are
    * those records, save one last; and the statistics count exactly this.
    */
  lemma FateOfEveryPacket(opens: (nat, nat, bytes) -> Option<bytes>, actions: seq<Action>, id: nat)
    requires id in After(opens, INITIAL, actions).runs
    ensures var r := After(opens, INITIAL, actions).runs[id];
            var w := Watched(opens, actions, id);
            var shield := r.cfg.blockIpv6;
            && StoppedOf(shield, w.read) == w.drops + StoppedOf(shield, InHand(r.out))
            && PassedOf(shield, w.read) == Tried(w.tried) + PassedOf(shield, InHand(r.out))
            && Carrying(r.out.sealed) == SealedOf(w.tried)
            && r.out.sent <= r.out.sealed && |r.out.sealed| <= |r.out.sent| + 1
            && (r.out.half.Finished? ==>
                  && r.out.tally.packetsIn == |w.read| && r.out.tally.dropped == |StoppedOf(shield, w.read)|
                  && r.out.tally.sealErrors == |w.tried| - |r.out.sealed|)
  {
    hide After, Watched, StoppedOf, PassedOf, Tried, SealedOf, Carrying;
    EveryRunIsFollowed(opens, actions, id);
    One(After(opens, INITIAL, actions).runs[id].cfg.blockIpv6, []);
  }

  /** With every seal good, and nothing in hand, what was sealed is what was read and not stopped. */
  lemma {:induction false} AllSealed(ts: seq<Attempt>)
    requires forall k | 0 <= k < |ts| :: ts[k].sealed
    ensures SealedOf(ts) == Tried(ts)
  {
    if ts != [] { AllSealed(ts[..|ts| - 1]); }
  }

  lemma SealedExactlyWhatPasses(opens: (nat, nat, bytes) -> Option<bytes>, actions: seq<Action>, id: nat)
    requires id in After(opens, INITIAL, actions).runs
    requires forall k | 0 <= k < |Watched(opens, actions, id).tried| :: Watched(opens, actions, id).tried[k].sealed
    ensures var r := After(opens, INITIAL, actions).runs[id];
            PassedOf(r.cfg.blockIpv6, Watched(opens, actions, id).read)
            == Carrying(r.out.sealed) + PassedOf(r.cfg.blockIpv6, InHand(r.out))
  {
    hide After, Watched, StoppedOf, PassedOf, Tried, SealedOf, Carrying, InHand;
    FateOfEveryPacket(opens, actions, id);
    AllSealed(Watched(opens, actions, id).tried);
  }

  // ---- one whole turn of a loop ----

  /** The first part of a turn, until the packet is counted in. */
  lemma ToTheShield(opens: (nat, bytes) -> Option<bytes>, sh: Shared, r: Run, id: nat, p: bytes)
    returns (steps: seq<(Thread, Event)>)
    requires r.out.half == Loop(OutTop) && !sh.stop && p != []
    ensures OwnSteps(opens, sh, r, id, steps)
         == (sh.(outStats := PlusOut(sh.outStats, OutStats(1, 0, 0, 0))),
             r.(out := r.out.(half := Loop(Counted(p)), tally := PlusOut(r.out.tally, OutStats(1, 0, 0, 0)))))
    ensures |steps| == 3 && forall k | 0 <= k < |steps| :: !steps[k].1.Frame?
  {
    hide OwnSteps, InStep, StartStep, WrapOut, DrawOf, IpVersion;
    var now := (sh, r);
    assert OwnSteps(opens, sh, r, id, []) == now by { OwnNothing(opens, sh, r, id); }
    steps, now := Push(opens, sh, r, id, [], Outbound, Nothing);
    steps, now := Push(opens, sh, r, id, steps, Outbound, Packet(p));
    steps, now := Push(opens, sh, r, id, steps, Outbound, Nothing);
  }

  /** And then until a packet that is let through has its number and goes to the seal. */
  lemma ToTheSeal(opens: (nat, bytes) -> Option<bytes>, sh: Shared, r: Run, id: nat, p: bytes, d: seq<u64>)
    returns (steps: seq<(Thread, Event)>)
    requires r.out.half == Loop(OutTop) && !sh.stop && p != [] && !Stopped(r.cfg.blockIpv6, p)
    ensures OwnSteps(opens, sh, r, id, steps) == AtTheSeal(sh, r, p, d)
    ensures |steps| == 4 && forall k | 0 <= k < |steps| :: !steps[k].1.Frame?
  {
    hide OwnSteps, InStep, StartStep, WrapOut, DrawOf, IpVersion, Stopped;
    VersionIsFirstNibble(r.cfg.blockIpv6, p);
    var now;
    steps := ToTheShield(opens, sh, r, id, p);
    steps, now := Push(opens, sh, r, id, steps, Outbound, Draws(d));
  }

  function AtTheSeal(sh: Shared, r: Run, p: bytes, d: seq<u64>): (Shared, Run) {
    var (stream, wrapped) := WrapOut(r.out.stream, p, DrawOf(Draws(d)));
    (sh.(seqOut := sh.seqOut + 1, outStats := PlusOut(sh.outStats, OutStats(1, 0, 0, 0))),
     r.(out := r.out.(half := Loop(Sealing(p, wrapped, sh.seqOut)), stream := stream,
                      tally := PlusOut(r.out.tally, OutStats(1, 0, 0, 0)))))
  }

  /** And then until its record is sealed and goes to the socket. */
  lemma ToTheWrite(opens: (nat, bytes) -> Option<bytes>, sh: Shared, r: Run, id: nat, p: bytes, d: seq<u64>)
    returns (steps: seq<(Thread, Event)>)
    requires r.out.half == Loop(OutTop) && !sh.stop && p != [] && !Stopped(r.cfg.blockIpv6, p)
    ensures OwnSteps(opens, sh, r, id, steps) == AtTheWrite(sh, r, p, d)
    ensures |steps| == 5 && forall k | 0 <= k < |steps| :: !steps[k].1.Frame?
  {
    hide OwnSteps, InStep, StartStep, WrapOut, DrawOf, IpVersion, Stopped;
    var now;
    steps := ToTheSeal(opens, sh, r, id, p, d);
    steps, now := Push(opens, sh, r, id, steps, Outbound, Good);
  }

  function AtTheWrite(sh: Shared, r: Run, p: bytes, d: seq<u64>): (Shared, Run) {
    var (stream, wrapped) := WrapOut(r.out.stream, p, DrawOf(Draws(d)));
    (sh.(seqOut := sh.seqOut + 1, outStats := PlusOut(sh.outStats, OutStats(1, 0, 0, 0))),
     r.(out := r.out.(half := Loop(Writing(p, wrapped, sh.seqOut)), stream := stream,
                      sealed := r.out.sealed + [Sent(sh.seqOut, p, wrapped)],
                      tally := PlusOut(r.out.tally, OutStats(1, 0, 0, 0)))))
  }

  /** A packet let through, with every call in the world succeeding: one more frame, one more number. */
  lemma PacketTurn(opens: (nat, bytes) -> Option<bytes>, sh: Shared, r: Run, id: nat, p: bytes, d: seq<u64>)
    returns (steps: seq<(Thread, Event)>)
    requires r.out.half == Loop(OutTop) && !sh.stop && p != [] && !Stopped(r.cfg.blockIpv6, p)
    ensures var (sh1, r1) := OwnSteps(opens, sh, r, id, steps);
            var (stream, wrapped) := WrapOut(r.out.stream, p, DrawOf(Draws(d)));
            var s := Sent(sh.seqOut, p, wrapped);
            && sh1 == sh.(seqOut := sh.seqOut + 1, outStats := PlusOut(sh.outStats, OutStats(1, 1, 0, 0)))
            && r1 == r.(out := r.out.(stream := stream, sent := r.out.sent + [s], sealed := r.out.sealed + [s],
                                      tally := PlusOut(r.out.tally, OutStats(1, 1, 0, 0))))
    ensures FramesIn(steps) == {}
  {
    hide OwnSteps, InStep, StartStep, FramesIn, WrapOut, DrawOf, IpVersion, Stopped;
    var now;
    steps := ToTheWrite(opens, sh, r, id, p, d);
    steps, now := Push(opens, sh, r, id, steps, Outbound, Good);
    steps, now := Push(opens, sh, r, id, steps, Outbound, Nothing);
    NoFrames(steps);
  }

  /** A packet the shield stops: counted in and dropped, and neither a number nor the stream is touched. */
  lemma DroppedTurn(opens: (nat, bytes) -> Option<bytes>, sh: Shared, r: Run, id: nat, p: bytes)
    returns (steps: seq<(Thread, Event)>)
    requires r.out.half == Loop(OutTop) && !sh.stop && Stopped(r.cfg.blockIpv6, p)
    ensures var (sh1, r1) := OwnSteps(opens, sh, r, id, steps);
            && sh1 == sh.(outStats := PlusOut(sh.outStats, OutStats(1, 0, 1, 0)))
            && r1 == r.(out := r.out.(tally := PlusOut(r.out.tally, OutStats(1, 0, 1, 0))))
  {
    hide OwnSteps, InStep, StartStep, WrapOut, DrawOf, IpVersion;
    VersionIsFirstNibble(r.cfg.blockIpv6, p);
    var now;
    steps := ToTheShield(opens, sh, r, id, p);
    steps, now := Push(opens, sh, r, id, steps, Outbound, Nothing);
    steps, now := Push(opens, sh, r, id, steps, Outbound, Nothing);
  }

  /**
    * A packet whose seal fails: the number is given back and the loop goes on, but the stream end has already taken
    * the packet. The first such failure takes the request header with it.
    */
  lemma UnsealedTurn(opens: (nat, bytes) -> Option<bytes>, sh: Shared, r: Run, id: nat, p: bytes, d: seq<u64>)
    returns (steps: seq<(Thread, Event)>)
    requires r.out.half == Loop(OutTop) && !sh.stop && p != [] && !Stopped(r.cfg.blockIpv6, p)
    ensures var (sh1, r1) := OwnSteps(opens, sh, r, id, steps);
            && sh1 == sh.(outStats := PlusOut(sh.outStats, OutStats(1, 0, 0, 1)))
            && r1 == r.(out := r.out.(stream := WrapOut(r.out.stream, p, DrawOf(Draws(d))).0,
                                      firstSealFailed := r.out.firstSealFailed || r.out.sent == [],
                                      tally := PlusOut(r.out.tally, OutStats(1, 0, 0, 1))))
  {
    hide OwnSteps, InStep, StartStep, WrapOut, DrawOf, IpVersion, Stopped;
    var now;
    steps := ToTheSeal(opens, sh, r, id, p, d);
    steps, now := Push(opens, sh, r, id, steps, Outbound, Bad);
    steps, now := Push(opens, sh, r, id, steps, Outbound, Nothing);
    steps, now := Push(opens, sh, r, id, steps, Outbound, Nothing);
  }

  /** A packet whose write fails: the number is given back, the socket is shut and the half leaves its loop. */
  lemma UnwrittenTurn(opens: (nat, bytes) -> Option<bytes>, sh: Shared, r: Run, id: nat, p: bytes, d: seq<u64>)
    returns (steps: seq<(Thread, Event)>)
    requires r.out.half == Loop(OutTop) && !sh.stop && p != [] && !Stopped(r.cfg.blockIpv6, p)
    ensures var (sh1, r1) := OwnSteps(opens, sh, r, id, steps);
            var (stream, wrapped) := WrapOut(r.out.stream, p, DrawOf(Draws(d)));
            && sh1 == HaltSocket(sh.(outStats := PlusOut(sh.outStats, OutStats(1, 0, 0, 0))))
            && r1 == r.(out := r.out.(half := Exiting, stream := stream, writeFailed := true,
                                      sealed := r.out.sealed + [Sent(sh.seqOut, p, wrapped)],
                                      tally := PlusOut(r.out.tally, OutStats(1, 0, 0, 0))))
  {
    hide OwnSteps, InStep, StartStep, WrapOut, DrawOf, IpVersion, Stopped, HaltSocket;
    var now;
    steps := ToTheWrite(opens, sh, r, id, p, d);
    steps, now := Push(opens, sh, r, id, steps, Outbound, Bad);
    steps, now := Push(opens, sh, r, id, steps, Outbound, Nothing);
    steps, now := Push(opens, sh, r, id, steps, Outbound, Nothing);
  }

  /** The first part of an inbound turn, until the frame has its number. */
  lemma ToTheOpening(opens: (nat, bytes) -> Option<bytes>, sh: Shared, r: Run, id: nat, f: bytes)
    returns (steps: seq<(Thread, Event)>)
    requires r.inn.half == Loop(InTop) && !sh.stop && f != []
    ensures OwnSteps(opens, sh, r, id, steps)
         == (sh.(seqIn := sh.seqIn + 1), r.(inn := r.inn.(half := Loop(Unsealing(f, sh.seqIn)))))
  {
    hide OwnSteps, OutStep, StartStep, UnwrapIn;
    var now := (sh, r);
    assert OwnSteps(opens, sh, r, id, []) == now by { OwnNothing(opens, sh, r, id); }
    steps, now := Push(opens, sh, r, id, [], Inbound, Nothing);
    steps, now := Push(opens, sh, r, id, steps, Inbound, Frame(f));
    steps, now := Push(opens, sh, r, id, steps, Inbound, Nothing);
  }

  /** A frame that opens at the inbound number and unwraps: its packet reaches the TUN and the number is used up. */
  lemma FrameTurn(opens: (nat, bytes) -> Option<bytes>, sh: Shared, r: Run, id: nat, f: bytes, plaintext: bytes,
                  p: bytes)
    returns (steps: seq<(Thread, Event)>)
    requires r.inn.half == Loop(InTop) && !sh.stop && f != [] && opens(sh.seqIn, f) == Some(plaintext)
    requires UnwrapIn(r.inn.stream, plaintext).1 == Some(p)
    ensures var (sh1, r1) := OwnSteps(opens, sh, r, id, steps);
            && sh1 == sh.(seqIn := sh.seqIn + 1, inStats := PlusIn(sh.inStats, InStats(1, 0)))
            && r1 == r.(inn := r.inn.(stream := UnwrapIn(r.inn.stream, plaintext).0,
                                      delivered := r.inn.delivered + [p],
                                      tally := PlusIn(r.inn.tally, InStats(1, 0))))
  {
    hide OwnSteps, OutStep, StartStep, UnwrapIn;
    var now;
    steps := ToTheOpening(opens, sh, r, id, f);
    steps, now := Push(opens, sh, r, id, steps, Inbound, Nothing);
    steps, now := Push(opens, sh, r, id, steps, Inbound, Good);
    steps, now := Push(opens, sh, r, id, steps, Inbound, Nothing);
  }

  /** A frame that does not open, or does not unwrap: the number is kept and the loop goes on. */
  lemma RefusedTurn(opens: (nat, bytes) -> Option<bytes>, sh: Shared, r: Run, id: nat, f: bytes)
    returns (steps: seq<(Thread, Event)>)
    requires r.inn.half == Loop(InTop) && !sh.stop && f != []
    requires opens(sh.seqIn, f).Some? ==> UnwrapIn(r.inn.stream, opens(sh.seqIn, f).value).1 == None
    ensures var (sh1, r1) := OwnSteps(opens, sh, r, id, steps);
            && sh1 == sh.(inStats := PlusIn(sh.inStats, InStats(0, 1)))
            && r1 == r.(inn := r.inn.(stream := if opens(sh.seqIn, f).None? then r.inn.stream
                                                else UnwrapIn(r.inn.stream, opens(sh.seqIn, f).value).0,
                                      tally := PlusIn(r.inn.tally, InStats(0, 1))))
  {
    hide OwnSteps, OutStep, StartStep, UnwrapIn;
    var now;
    steps := ToTheOpening(opens, sh, r, id, f);
    steps, now := Push(opens, sh, r, id, steps, Inbound, Nothing);
    steps, now := Push(opens, sh, r, id, steps, Inbound, Nothing);
    steps, now := Push(opens, sh, r, id, steps, Inbound, Nothing);
  }

  /** A packet the TUN refuses: the number is given back, the socket is shut and the half leaves its loop. */
  lemma UndeliveredTurn(opens: (nat, bytes) -> Option<bytes>, sh: Shared, r: Run, id: nat, f: bytes, plaintext: bytes,
                        p: bytes)
    returns (steps: seq<(Thread, Event)>)
    requires r.inn.half == Loop(InTop) && !sh.stop && f != [] && opens(sh.seqIn, f) == Some(plaintext)
    requires UnwrapIn(r.inn.stream, plaintext).1 == Some(p)
    ensures var (sh1, r1) := OwnSteps(opens, sh, r, id, steps);
            && sh1 == HaltSocket(sh)
            && r1 == r.(inn := r.inn.(half := Exiting, stream := UnwrapIn(r.inn.stream, plaintext).0))
  {
    hide OwnSteps, OutStep, StartStep, UnwrapIn, HaltSocket;
    var now;
    steps := ToTheOpening(opens, sh, r, id, f);
    steps, now := Push(opens, sh, r, id, steps, Inbound, Nothing);
    steps, now := Push(opens, sh, r, id, steps, Inbound, Bad);
    steps, now := Push(opens, sh, r, id, steps, Inbound, Nothing);
    steps, now := Push(opens, sh, r, id, steps, Inbound, Nothing);
  }

  /** A raised stop, a closed TUN or an empty read end the outbound loop; an interrupted read repeats it. */
  lemma IdleOutboundTurn(opens: (nat, bytes) -> Option<bytes>, sh: Shared, r: Run, id: nat, e: Event)
    requires e.Packet? ==> e.p == []
    ensures r.out.half == Loop(OutTop) ==>
              RunStep(opens, sh, r, id, Outbound, e)
              == (sh, r.(out := r.out.(half := if sh.stop then Exiting else Loop(Reading))))
    ensures r.out.half == Loop(Reading) ==>
              RunStep(opens, sh, r, id, Outbound, e)
              == (sh, r.(out := r.out.(half := if e.Packet? || e.Closed? then Exiting else Loop(OutTop))))
  {
    hide IpVersion, WrapOut, DrawOf, InStep, StartStep, HaltSocket;
  }

  /** A raised stop or an ended stream end the inbound loop; an empty frame repeats it. */
  lemma IdleInboundTurn(opens: (nat, bytes) -> Option<bytes>, sh: Shared, r: Run, id: nat, e: Event)
    requires e.Frame? ==> e.f == []
    ensures r.inn.half == Loop(InTop) ==>
              RunStep(opens, sh, r, id, Inbound, e)
              == (sh, r.(inn := r.inn.(half := if sh.stop then Exiting else Loop(Receiving))))
    ensures r.inn.half == Loop(Receiving) ==>
              RunStep(opens, sh, r, id, Inbound, e)
              == (sh, r.(inn := r.inn.(half := if e.Frame? then Loop(InTop) else Exiting)))
  {
    hide UnwrapIn, OutStep, StartStep, HaltSocket;
  }

  /** Every packet that is let through is written, as the first frame of some run: an IPv4 one, shield up or not. */
  lemma FirstPacketIsWritten(opens: (nat, nat, bytes) -> Option<bytes>, cfg: Config, p: bytes, d: seq<u64>)
    returns (actions: seq<Action>)
    requires p != [] && !Stopped(cfg.blockIpv6, p)
    ensures Unstopped(actions) && 0 in After(opens, INITIAL, actions).runs
    ensures var r := After(opens, INITIAL, actions).runs[0];
            && r.cfg == cfg && r.out.half == Loop(OutTop)
            && r.out.sent == [Sent(cfg.firstOut, p, WrapOut(cfg.out, p, DrawOf(Draws(d))).1)]
  {
    hide OwnSteps, After, RunStep, WrapOut, DrawOf, FramesIn, Arrivals, Stopped;
    var before := [CallStart(0, cfg)];
    AfterNothing(opens, INITIAL);
    AfterSnoc(opens, INITIAL, [], CallStart(0, cfg));
    assert [] + before == before;
    var mine := (n: nat, f: bytes) => opens(0, n, f);
    var s := After(opens, INITIAL, before);
    var up := StartsUp(mine, s.sh, cfg, 0);
    before := Extend(opens, before, 0, up);
    s := After(opens, INITIAL, before);
    var turn := PacketTurn(mine, s.sh, s.runs[0], 0, p, d);
    actions := Extend(opens, before, 0, turn);
    assert s.runs[0].out.sent == [];
  }

  lemma Ipv4IsNeverStopped(shield: bool, p: bytes)
    requires p != [] && 0x40 <= p[0] <= 0x4f
    ensures !Stopped(shield, p)
  {
  }
}
