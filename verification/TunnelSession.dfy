/** The session behind the native entry points: its record counters across connect, probes, pump starts and teardown. */
module TunnelSession {
  import opened Bytes
  import opened Primitives
  import VlessStream
  import RequestHeader
  import Pump

  type Identity = u: bytes | |u| == 16 witness Zeros(16)

  /** The VLESS request of the live tunnel, captured on connecting. */
  datatype Profile = Profile(uuid: Identity, flow: Option<bytes>, command: byte, address: RequestHeader.Address,
                             port: u16)

  /**
    * What the session keeps; `log` is the sequence numbers of the probe frames fully written under the present
    * handshake.
    */
  datatype Session = Session(handshake: Option<bool>, socket: bool, profile: Option<Profile>, nextOut: nat, nextIn: nat,
                             log: seq<nat>)

  const TORN_DOWN := Session(None, false, None, 0, 0, [])

  datatype Refusal =
    | NotCompleted | NoSocket | CloneFailed | AlreadyRunning | SealFailed | SendFailed | ReadFailed
    | OpenRejected | EchoMismatch

  /**
    * How the outside world answers one probe; sealing fails while the completion flag is up and the keys are not set
    * yet.
    */
  datatype World = World(clones: bool, seals: bool, writes: bool, echo: Option<bytes>)

  function Probe(): bytes { Ascii("shadevpn-dataplane-probe") }

  /** "shadevpn-dataplane-probe" */
  const PROBE: bytes := [
    0x73, 0x68, 0x61, 0x64, 0x65, 0x76, 0x70, 0x6e, 0x2d, 0x64, 0x61, 0x74, 0x61, 0x70, 0x6c, 0x61,
    0x6e, 0x65, 0x2d, 0x70, 0x72, 0x6f, 0x62, 0x65]

  lemma ProbeIsLiteral()
    ensures Probe() == PROBE
  {
  }

  /**
    * One data-plane probe: the outbound counter moves once the frame is written, the inbound one once the echo is
    * accepted.
    */
  function Probed(s: Session, w: World, opens: (nat, bytes) -> Option<bytes>): (Session, Result<(), Refusal>) {
    if s.handshake != Some(true) then (s, Err(NotCompleted))
    else if !s.socket then (s, Err(NoSocket))
    else if !w.clones then (s, Err(CloneFailed))
    else if !w.seals then (s, Err(SealFailed))
    else if !w.writes then (s, Err(SendFailed))
    else
      var s1 := s.(nextOut := s.nextOut + 1, log := s.log + [s.nextOut]);
      if w.echo.None? then (s1, Err(ReadFailed))
      else
        match opens(s.nextIn, w.echo.value)
        case None => (s1, Err(OpenRejected))
        case Some(p) => if p != Probe() then (s1, Err(EchoMismatch)) else (s1.(nextIn := s.nextIn + 1), Ok(()))
  }

  /** Connecting replaces the handshake, the socket and the profile, and leaves both counters where they were. */
  function Connected(s: Session, profile: Profile): Session {
    s.(handshake := Some(false), socket := true, profile := Some(profile), log := [])
  }

  /** A completion that fails tears the session down. */
  function CompletedWith(s: Session, ok: bool): Session {
    if s.handshake.None? then s else if ok then s.(handshake := Some(true)) else TORN_DOWN
  }

  /** The stream ends a start builds from the profile; none in raw mode. */
  function StreamEnds(profile: Option<Profile>): (Option<VlessStream.OutStream>, Option<Pump.Inbound>) {
    if profile.None? then (None, None)
    else
      var p := profile.value;
      var ends := VlessStream.Opening(p.uuid, p.flow, p.command, p.address, p.port);
      (Some(ends.out), Some(ends.inn))
  }

  /** What the session hands to a pump start. */
  function HandedOver(s: Session, blockIpv6: bool): Pump.Config {
    Pump.Config(blockIpv6, s.nextOut, s.nextIn, StreamEnds(s.profile).0, StreamEnds(s.profile).1)
  }

  /** What some start, with or without a profile found and with the shield up or down, is given by this session. */
  ghost predicate GivenBy(s: Session, cfg: Pump.Config) {
    exists mode: Option<Profile>, shield: bool :: cfg == HandedOver(s.(profile := mode), shield)
  }

  lemma GivenCounters(s: Session, cfg: Pump.Config)
    requires GivenBy(s, cfg)
    ensures cfg.firstOut == s.nextOut && cfg.firstIn == s.nextIn
  {
    var mode: Option<Profile>, shield: bool :| cfg == HandedOver(s.(profile := mode), shield);
  }

  /** `stop`, as one step. */
  function Stopped(p: Pump.State): Pump.State { p.(sh := Pump.HaltSocket(p.sh.(stop := true))) }

  lemma StoppedIsStop(opens: (nat, nat, bytes) -> Option<bytes>, p: Pump.State)
    ensures Stopped(p) == Pump.Next(opens, Pump.Next(opens, p, Pump.StopStores), Pump.StopHalts)
  {
  }

  /** A start called and taken through the clone of its socket, or refused by its swap of `running`. */
  function Entered(p: Pump.State, id: nat, cfg: Pump.Config, clones: bool): Pump.State {
    var (s1, r1) := Pump.StartStep(p.sh, Pump.NewRun(cfg), id, Pump.Nothing);
    var (s2, r2) := Pump.StartStep(s1, r1, id, Pump.Nothing);
    var (s3, r3) := Pump.StartStep(s2, r2, id, Pump.Nothing);
    var (s4, r4) := Pump.StartStep(s3, r3, id, Pump.Nothing);
    var (s5, r5) := Pump.StartStep(s4, r4, id, if clones then Pump.Nothing else Pump.Bad);
    Pump.State(s5, p.runs[id := r5])
  }

  /** That is the call and five steps of the pump's own machine. */
  lemma EnteredIsStart(opens: (nat, nat, bytes) -> Option<bytes>, p: Pump.State, id: nat, cfg: Pump.Config,
                       clones: bool)
    requires id !in p.runs
    ensures var called := Pump.Next(opens, p, Pump.CallStart(id, cfg));
            var step := (s: Pump.State, e: Pump.Event) => Pump.Next(opens, s, Pump.Step(id, Pump.Starter, e));
            Entered(p, id, cfg, clones)
            == step(step(step(step(step(called, Pump.Nothing), Pump.Nothing), Pump.Nothing), Pump.Nothing),
                    if clones then Pump.Nothing else Pump.Bad)
    ensures Entered(p, id, cfg, clones).runs[id].start
            == if p.sh.running then Pump.Refused else if clones then Pump.Cloned else Pump.CloneFailed
  {
  }

  /** The session object; the pump's threads move `pump` between the calls. */
  class TunnelState {
    var handshake: Option<bool>
    var socket: bool
    var profile: Option<Profile>
    var nextOut: nat
    var nextIn: nat
    var pump: Pump.State
    ghost var log: seq<nat>

    ghost function View(): Session
      reads this
    {
      Session(handshake, socket, profile, nextOut, nextIn, log)
    }

    constructor ()
      ensures View() == TORN_DOWN && pump == Pump.INITIAL
    {
      handshake, socket, profile, nextOut, nextIn, log := None, false, None, 0, 0, [];
      pump := Pump.INITIAL;
    }

    /** Stops the pump, then forgets the handshake, the socket, the counters and the profile. */
    method Teardown()
      modifies this
      ensures View() == TORN_DOWN && pump == Stopped(old(pump))
    {
      pump := Stopped(pump);
      handshake, socket, nextOut, nextIn, log := None, false, 0, 0, [];
      profile := None;
    }

    method Connect(p: Profile)
      modifies this
      ensures View() == Connected(old(View()), p) && pump == old(pump)
    {
      handshake, socket, log := Some(false), true, [];
      profile := Some(p);
    }

    method CompleteHandshake(ok: bool)
      modifies this
      ensures View() == CompletedWith(old(View()), ok)
      ensures pump == if old(handshake).Some? && !ok then Stopped(old(pump)) else old(pump)
    {
      if handshake.Some? {
        if ok { handshake := Some(true); } else { Teardown(); }
      }
    }

    method ProbeDataPlane(w: World, opens: (nat, bytes) -> Option<bytes>) returns (r: Result<(), Refusal>)
      modifies this
      ensures (View(), r) == Probed(old(View()), w, opens) && pump == old(pump)
    {
      if handshake.None? || !handshake.value { return Err(NotCompleted); }
      if !socket { return Err(NoSocket); }
      if !w.clones { return Err(CloneFailed); }
      if !w.seals { return Err(SealFailed); }
      if !w.writes { return Err(SendFailed); }
      log := log + [nextOut];
      nextOut := nextOut + 1;
      if w.echo.None? { return Err(ReadFailed); }
      var echoed := opens(nextIn, w.echo.value);
      if echoed.None? { return Err(OpenRejected); }
      if echoed.value != Probe() { return Err(EchoMismatch); }
      nextIn := nextIn + 1;
      return Ok(());
    }

    /**
      * A start under a fresh run id, taken through the clone of the socket inside it; its later steps, which cannot
      * fail, belong to the pump's own machine. It fails without a completed handshake or a socket, if the session's
      * socket cannot be cloned, on a pump already running, and if the clone inside fails; it moves neither counter.
      */
    method PumpStart(id: nat, blockIpv6: bool, clones: bool, innerClones: bool)
      returns (r: Result<Pump.Config, Refusal>)
      requires id !in pump.runs
      modifies this`pump
      ensures r.Ok? <==> handshake == Some(true) && socket && clones && !old(pump).sh.running && innerClones
      ensures r.Ok? ==> r.value == HandedOver(View(), blockIpv6)
      ensures pump == if handshake == Some(true) && socket && clones
                      then Entered(old(pump), id, HandedOver(View(), blockIpv6), innerClones) else old(pump)
    {
      if handshake != Some(true) { return Err(NotCompleted); }
      if !socket { return Err(NoSocket); }
      if !clones { return Err(CloneFailed); }
      var cfg := HandedOver(Session(handshake, socket, profile, nextOut, nextIn, []), blockIpv6);
      pump := Entered(pump, id, cfg, innerClones);
      if pump.runs[id].start.Refused? { return Err(AlreadyRunning); }
      if pump.runs[id].start.CloneFailed? { return Err(CloneFailed); }
      return Ok(cfg);
    }
  }

  function ProbedAll(s: Session, worlds: seq<World>, opens: (nat, bytes) -> Option<bytes>): Session
    decreases |worlds|
  {
    if worlds == [] then s else ProbedAll(Probed(s, worlds[0], opens).0, worlds[1..], opens)
  }

  /**
    * The probe's verdict and its effect: it succeeds if and only if the handshake is completed, the socket is there and
    * can be cloned, the record is sealed and written, and what comes back opens at the inbound number to the probe's
    * own bytes; the outbound counter moves exactly if the frame was written, the inbound one exactly on success.
    */
  lemma ProbeSucceedsExactlyIf(s: Session, w: World, opens: (nat, bytes) -> Option<bytes>)
    ensures var (t, r) := Probed(s, w, opens);
            var written := s.handshake == Some(true) && s.socket && w.clones && w.seals && w.writes;
            && (r == Ok(()) <==> written && w.echo.Some? && opens(s.nextIn, w.echo.value) == Some(PROBE))
            && t == s.(nextOut := s.nextOut + (if written then 1 else 0), nextIn := s.nextIn + (if r.Ok? then 1 else 0),
                       log := s.log + (if written then [s.nextOut] else []))
  {
    hide Probe;
    ProbeIsLiteral();
    assert s.log + [] == s.log;
  }

  /**
    * A failed completion leaves nothing behind: every probe is refused until a new connection, whose numbers start at
    * zero; a successful one keeps all but the flag.
    */
  lemma CompletionDecides(s: Session, w: World, opens: (nat, bytes) -> Option<bytes>, profile: Profile)
    requires s.handshake.Some?
    ensures var failed := CompletedWith(s, false);
            && Probed(failed, w, opens) == (failed, Err(NotCompleted))
            && Connected(failed, profile) == Session(Some(false), true, Some(profile), 0, 0, [])
    ensures CompletedWith(s, true) == s.(handshake := Some(true))
  {
  }

  /** The frames written since the handshake carry consecutive numbers from `base`, and the counter is next. */
  predicate CountsFrom(s: Session, base: nat) {
    s.nextOut == base + |s.log| && forall k | 0 <= k < |s.log| :: s.log[k] == base + k
  }

  lemma {:induction false} ProbesCount(s: Session, worlds: seq<World>, opens: (nat, bytes) -> Option<bytes>, base: nat,
                                       inBase: nat)
    requires CountsFrom(s, base) && inBase <= s.nextIn <= inBase + |s.log|
    ensures var t := ProbedAll(s, worlds, opens);
            && CountsFrom(t, base) && inBase <= t.nextIn <= inBase + |t.log|
            && t.handshake == s.handshake && t.socket == s.socket && t.profile == s.profile
    decreases |worlds|
  {
    if worlds != [] { ProbesCount(Probed(s, worlds[0], opens).0, worlds[1..], opens, base, inBase); }
  }

  function Numbers(sent: seq<Pump.Sent>): (r: seq<nat>)
    ensures |r| == |sent| && forall k | 0 <= k < |r| :: r[k] == sent[k].seqno
  {
    seq(|sent|, k requires 0 <= k < |sent| => sent[k].seqno)
  }

  /** The session that connects and completes from `s`. */
  function Ready(s: Session, profile: Profile): Session { CompletedWith(Connected(s, profile), true) }

  /**
    * Connect, complete, any number of probes with any outcomes, then one pump run in any interleaving: the
    * frames fully written under the handshake carry 0, 1, 2, ... without gap or repeat exactly when the
    * counter stood at zero on connecting, which teardown guarantees.
    */
  lemma SessionNumbersAreContiguous(s: Session, profile: Profile, worlds: seq<World>,
                                    opens: (nat, bytes) -> Option<bytes>,
                                    pumpOpens: (nat, nat, bytes) -> Option<bytes>, actions: seq<Pump.Action>, id: nat)
    requires id in Pump.After(pumpOpens, Pump.INITIAL, actions).runs
    requires GivenBy(ProbedAll(Ready(s, profile), worlds, opens),
                     Pump.After(pumpOpens, Pump.INITIAL, actions).runs[id].cfg)
    ensures var all := ProbedAll(Ready(s, profile), worlds, opens).log
                       + Numbers(Pump.After(pumpOpens, Pump.INITIAL, actions).runs[id].out.sent);
            && (forall k | 0 <= k < |all| :: all[k] == s.nextOut + k)
            && (all != [] ==> ((forall k | 0 <= k < |all| :: all[k] == k) <==> s.nextOut == 0))
  {
    hide Pump.After, Probed, ProbedAll, GivenBy;
    GivenCounters(ProbedAll(Ready(s, profile), worlds, opens),
                  Pump.After(pumpOpens, Pump.INITIAL, actions).runs[id].cfg);
    ProbesCount(Ready(s, profile), worlds, opens, s.nextOut, s.nextIn);
    Pump.EveryRunIsOrderly(pumpOpens, actions, id);
    var probed := ProbedAll(Ready(s, profile), worlds, opens);
    var all := probed.log + Numbers(Pump.After(pumpOpens, Pump.INITIAL, actions).runs[id].out.sent);
    assert all != [] ==> all[0] == s.nextOut;
  }

  // ---- any probes and runs, in any order ----

  /** An entry point called under one handshake, in the order of the calls. */
  datatype Activity = Probing(w: World) | Running(id: nat)

  /** A probe moves the counter once its frame is written; a pump start never does. */
  function Following(s: Session, a: Activity, opens: (nat, bytes) -> Option<bytes>): Session {
    match a
    case Probing(w) => Probed(s, w, opens).0
    case Running(_) => s
  }

  /** What is counted: frames fully written, or records sealed, written or not. */
  datatype Kind = FramesWritten | RecordsSealed

  /** A probe gets as far as sealing. */
  predicate Seals(s: Session, w: World) { s.handshake == Some(true) && s.socket && w.clones && w.seals }

  /** The numbers one activity uses. */
  function UsedBy(kind: Kind, s: Session, a: Activity, opens: (nat, bytes) -> Option<bytes>, runs: map<nat, Pump.Run>)
    : seq<nat>
  {
    match a
    case Probing(w) => if Seals(s, w) && (kind.RecordsSealed? || w.writes) then [s.nextOut] else []
    case Running(id) =>
      if id !in runs then []
      else if kind.FramesWritten? then Numbers(runs[id].out.sent)
      else Numbers(runs[id].out.sealed)
  }

  function UsedByAll(kind: Kind, s: Session, acts: seq<Activity>, opens: (nat, bytes) -> Option<bytes>,
                     runs: map<nat, Pump.Run>): seq<nat>
    decreases |acts|
  {
    if acts == [] then []
    else UsedBy(kind, s, acts[0], opens, runs) + UsedByAll(kind, Following(s, acts[0], opens), acts[1..], opens, runs)
  }

  /** Every run was given what the session had when it was called. */
  ghost predicate StartedInTurn(s: Session, acts: seq<Activity>, opens: (nat, bytes) -> Option<bytes>,
                          runs: map<nat, Pump.Run>)
    decreases |acts|
  {
    acts == [] || (&& (acts[0].Running? && acts[0].id in runs ==> GivenBy(s, runs[acts[0].id].cfg))
                   && StartedInTurn(Following(s, acts[0], opens), acts[1..], opens, runs))
  }

  /**
    * An activity uses numbers without moving the session's counter: a run that sealed or wrote something, or a probe
    * whose write failed after its record was sealed.
    */
  predicate LeavesCounter(kind: Kind, s: Session, a: Activity, opens: (nat, bytes) -> Option<bytes>,
                          runs: map<nat, Pump.Run>) {
    UsedBy(kind, s, a, opens, runs) != [] && (a.Running? || !a.w.writes)
  }

  /** No number is used by an activity called after one that left the counter behind. */
  predicate NothingAfter(kind: Kind, s: Session, acts: seq<Activity>, opens: (nat, bytes) -> Option<bytes>,
                         runs: map<nat, Pump.Run>)
    decreases |acts|
  {
    acts == [] || (var rest := Following(s, acts[0], opens);
                   && (LeavesCounter(kind, s, acts[0], opens, runs) ==>
                         UsedByAll(kind, rest, acts[1..], opens, runs) == [])
                   && NothingAfter(kind, rest, acts[1..], opens, runs))
  }

  predicate Distinct(ns: seq<nat>) { forall i, j | 0 <= i < j < |ns| :: ns[i] != ns[j] }

  predicate Orderly(runs: map<nat, Pump.Run>) {
    forall i | i in runs ::
      Pump.Contiguous(runs[i].out.sent, runs[i].cfg.firstOut)
          && Pump.Contiguous(runs[i].out.sealed, runs[i].cfg.firstOut)
  }

  /** Whatever is used next is the counter's number first, and nothing used is smaller. */
  lemma {:induction false} UsedFromTheCounter(kind: Kind, s: Session, acts: seq<Activity>,
                                              opens: (nat, bytes) -> Option<bytes>,
                                              runs: map<nat, Pump.Run>)
    requires Orderly(runs) && StartedInTurn(s, acts, opens, runs)
    ensures var ns := UsedByAll(kind, s, acts, opens, runs);
            (ns != [] ==> ns[0] == s.nextOut) && forall k | 0 <= k < |ns| :: ns[k] >= s.nextOut
    decreases |acts|
  {
    hide Probed, Orderly, UsedBy;
    if acts != [] {
      CounterMoves(kind, s, acts[0], opens, runs);
      UsedFromTheCounter(kind, Following(s, acts[0], opens), acts[1..], opens, runs);
    }
  }

  /**
    * One activity uses consecutive numbers from the counter on, and leaves the counter behind or moves it past the one
    * number.
    */
  lemma CounterMoves(kind: Kind, s: Session, a: Activity, opens: (nat, bytes) -> Option<bytes>,
                     runs: map<nat, Pump.Run>)
    requires Orderly(runs) && (a.Running? && a.id in runs ==> runs[a.id].cfg.firstOut == s.nextOut)
    ensures var ns, next := UsedBy(kind, s, a, opens, runs), Following(s, a, opens).nextOut;
            && (forall k | 0 <= k < |ns| :: ns[k] == s.nextOut + k)
            && (ns == [] || LeavesCounter(kind, s, a, opens, runs) ==> next == s.nextOut)
            && (ns != [] && !LeavesCounter(kind, s, a, opens, runs) ==> |ns| == 1 && next == s.nextOut + 1)
  {
  }

  lemma DistinctSplit(a: seq<nat>, b: seq<nat>)
    ensures Distinct(a + b) <==>
            Distinct(a) && Distinct(b) && forall i, j | 0 <= i < |a| && 0 <= j < |b| :: a[i] != b[j]
  {
    var ab := a + b;
    if Distinct(ab) {
      assert forall i | 0 <= i < |a| :: a[i] == ab[i];
      assert forall j | 0 <= j < |b| :: b[j] == ab[|a| + j];
    }
  }

  lemma {:induction false} DistinctExactlyIfNothingAfter(kind: Kind, s: Session, acts: seq<Activity>,
                                                         opens: (nat, bytes) -> Option<bytes>, runs: map<nat, Pump.Run>)
    requires Orderly(runs) && StartedInTurn(s, acts, opens, runs)
    ensures Distinct(UsedByAll(kind, s, acts, opens, runs)) <==> NothingAfter(kind, s, acts, opens, runs)
    decreases |acts|
  {
    hide Probed, Distinct, UsedBy, Orderly, LeavesCounter, Following;
    if acts == [] {
      assert Distinct([]) by { NothingIsDistinct(); }
    } else {
      var t := Following(s, acts[0], opens);
      var ns, rest := UsedBy(kind, s, acts[0], opens, runs), UsedByAll(kind, t, acts[1..], opens, runs);
      CounterMoves(kind, s, acts[0], opens, runs);
      UsedFromTheCounter(kind, t, acts[1..], opens, runs);
      DistinctExactlyIfNothingAfter(kind, t, acts[1..], opens, runs);
      DistinctSplit(ns, rest);
      assert Distinct(ns) by { CountingIsDistinct(ns, s.nextOut); }
      LeavingUses(kind, s, acts[0], opens, runs);
      if ns != [] && rest != [] && t.nextOut == s.nextOut { assert ns[0] == rest[0]; }
    }
  }

  lemma LeavingUses(kind: Kind, s: Session, a: Activity, opens: (nat, bytes) -> Option<bytes>, runs: map<nat, Pump.Run>)
    ensures LeavesCounter(kind, s, a, opens, runs) ==> UsedBy(kind, s, a, opens, runs) != []
  {
  }

  lemma NothingIsDistinct()
    ensures Distinct([])
  {
  }

  lemma CountingIsDistinct(ns: seq<nat>, first: nat)
    requires forall k | 0 <= k < |ns| :: ns[k] == first + k
    ensures Distinct(ns)
  {
  }

  /**
    * Record numbers over a whole session: take any probes and pump runs under one handshake, in any order and in any
    * interleaving of the pump's threads, each start given the counter of its moment. The numbers of all records sealed
    * are pairwise distinct if and only if none was sealed by an activity called after a run that sealed one or after a
    * probe whose write failed; and the numbers of all frames fully written, if and only if none was written by an
    * activity called after a run that wrote one.
    */
  lemma NumbersAreDistinctExactlyIfNothingAfter(kind: Kind, s: Session, acts: seq<Activity>,
                                                opens: (nat, bytes) -> Option<bytes>,
                                                pumpOpens: (nat, nat, bytes) -> Option<bytes>,
                                                actions: seq<Pump.Action>)
    requires StartedInTurn(s, acts, opens, Pump.After(pumpOpens, Pump.INITIAL, actions).runs)
    ensures var runs := Pump.After(pumpOpens, Pump.INITIAL, actions).runs;
            Distinct(UsedByAll(kind, s, acts, opens, runs)) <==> NothingAfter(kind, s, acts, opens, runs)
  {
    hide Pump.After;
    var runs := Pump.After(pumpOpens, Pump.INITIAL, actions).runs;
    forall i | i in runs
      ensures Pump.Contiguous(runs[i].out.sent, runs[i].cfg.firstOut)
              && Pump.Contiguous(runs[i].out.sealed, runs[i].cfg.firstOut)
    {
      Pump.EveryRunIsOrderly(pumpOpens, actions, i);
    }
    DistinctExactlyIfNothingAfter(kind, s, acts, opens, runs);
  }
}
