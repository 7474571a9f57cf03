/** Building interleavings of the pump step by step. */
module PumpTraces {
  import opened Bytes
  import opened Pump

  /** No `stop` is called. */
  predicate Unstopped(actions: seq<Action>) {
    forall k | 0 <= k < |actions| :: actions[k].CallStart? || actions[k].Step?
  }

  /** The frames that arrive on a run's socket, from whomever and in whatever order. */
  function Arrivals(actions: seq<Action>, id: nat): set<bytes> {
    set a | a in actions && a.Step? && a.id == id && a.e.Frame? :: a.e.f
  }

  lemma {:induction false} AfterSnoc(opens: (nat, nat, bytes) -> Option<bytes>, s: State, actions: seq<Action>,
                                     a: Action)
    ensures After(opens, s, actions + [a]) == Next(opens, After(opens, s, actions), a)
    decreases |actions|
  {
    hide Next;
    if actions == [] {
      assert actions + [a] == [a];
      assert After(opens, Next(opens, s, a), []) == Next(opens, s, a);
    } else {
      assert (actions + [a])[0] == actions[0] && (actions + [a])[1..] == actions[1..] + [a];
      AfterSnoc(opens, Next(opens, s, actions[0]), actions[1..], a);
    }
  }

  /** A list of steps of one run, seen from that run. */
  function OwnSteps(opens: (nat, bytes) -> Option<bytes>, sh: Shared, r: Run, id: nat, steps: seq<(Thread, Event)>)
    : (Shared, Run)
    decreases |steps|
  {
    if steps == [] then (sh, r)
    else
      var (sh1, r1) := OwnSteps(opens, sh, r, id, steps[..|steps| - 1]);
      var (t, e) := steps[|steps| - 1];
      RunStep(opens, sh1, r1, id, t, e)
  }

  /** The frames that arrive in a list of steps. */
  function FramesIn(steps: seq<(Thread, Event)>): set<bytes> { set x | x in steps && x.1.Frame? :: x.1.f }

  lemma ArrivalsSnoc(actions: seq<Action>, id: nat, steps: seq<(Thread, Event)>, t: Thread, e: Event)
    requires steps != [] && steps[|steps| - 1] == (t, e)
    ensures Arrivals(actions + [Step(id, t, e)], id) <= Arrivals(actions, id) + FramesIn(steps)
    ensures FramesIn(steps[..|steps| - 1]) <= FramesIn(steps)
  {
    assert (t, e) in steps && (e.Frame? ==> (t, e).1.f in FramesIn(steps));
    forall f | f in Arrivals(actions + [Step(id, t, e)], id)
      ensures f in Arrivals(actions, id) + FramesIn(steps)
    {
      var a :| a in actions + [Step(id, t, e)] && a.Step? && a.id == id && a.e.Frame? && a.e.f == f;
      assert a in actions || a == Step(id, t, e);
    }
    forall f | f in FramesIn(steps[..|steps| - 1])
      ensures f in FramesIn(steps)
    {
      var x :| x in steps[..|steps| - 1] && x.1.Frame? && x.1.f == f;
      assert x in steps;
    }
  }

  /** Those steps, taken one after the other, extend an interleaving. */
  lemma {:induction false} Extend(opens: (nat, nat, bytes) -> Option<bytes>, before: seq<Action>, id: nat,
                                  steps: seq<(Thread, Event)>)
    returns (actions: seq<Action>)
    requires Unstopped(before) && id in After(opens, INITIAL, before).runs
    ensures Unstopped(actions)
    ensures Arrivals(actions, id) <= Arrivals(before, id) + FramesIn(steps)
    ensures var s := After(opens, INITIAL, before);
            var (sh, r) := OwnSteps((n, f) => opens(id, n, f), s.sh, s.runs[id], id, steps);
            After(opens, INITIAL, actions) == State(sh, s.runs[id := r])
    decreases |steps|
  {
    hide After, RunStep;
    var s := After(opens, INITIAL, before);
    if steps == [] {
      actions := before;
      assert s.runs[id := s.runs[id]] == s.runs;
    } else {
      var shorter := Extend(opens, before, id, steps[..|steps| - 1]);
      var (t, e) := steps[|steps| - 1];
      AfterSnoc(opens, INITIAL, shorter, Step(id, t, e));
      actions := shorter + [Step(id, t, e)];
      ArrivalsSnoc(shorter, id, steps, t, e);
      var (sh1, r1) := OwnSteps((n, f) => opens(id, n, f), s.sh, s.runs[id], id, steps[..|steps| - 1]);
      assert s.runs[id := r1][id := RunStep((n, f) => opens(id, n, f), sh1, r1, id, t, e).1]
          == s.runs[id := RunStep((n, f) => opens(id, n, f), sh1, r1, id, t, e).1];
    }
  }

  lemma Push(opens: (nat, bytes) -> Option<bytes>, sh: Shared, r: Run, id: nat, before: seq<(Thread, Event)>, t: Thread,
             e: Event)
    returns (steps: seq<(Thread, Event)>, now: (Shared, Run))
    ensures steps == before + [(t, e)] && now == OwnSteps(opens, sh, r, id, steps)
    ensures var (sh1, r1) := OwnSteps(opens, sh, r, id, before); now == RunStep(opens, sh1, r1, id, t, e)
  {
    hide RunStep;
    steps := before + [(t, e)];
    now := OwnSteps(opens, sh, r, id, steps);
    assert steps[..|before|] == before;
  }

  /** A start that meets an idle pump, taken to its end. */
  lemma StartsUp(opens: (nat, bytes) -> Option<bytes>, sh: Shared, cfg: Config, id: nat)
    returns (steps: seq<(Thread, Event)>)
    requires !sh.running
    ensures var (sh1, r1) := OwnSteps(opens, sh, NewRun(cfg), id, steps);
            && sh1.running && !sh1.stop && sh1.alive == 2 && sh1.halt == Some(id) && sh1.shut == sh.shut
            && r1.start == Started && r1.out == NewRun(cfg).out.(half := Loop(OutTop))
            && r1.inn == NewRun(cfg).inn.(half := Loop(InTop))
            && sh1.seqOut == cfg.firstOut && sh1.seqIn == cfg.firstIn && r1.cfg == cfg
    ensures FramesIn(steps) == {}
  {
    hide OwnSteps, OutStep, InStep, FramesIn;
    var r, now := NewRun(cfg), (sh, NewRun(cfg));
    assert OwnSteps(opens, sh, r, id, []) == now by { OwnNothing(opens, sh, r, id); }
    steps, now := Push(opens, sh, r, id, [], Starter, Nothing);
    steps, now := Push(opens, sh, r, id, steps, Starter, Nothing);
    steps, now := Push(opens, sh, r, id, steps, Starter, Nothing);
    steps, now := Push(opens, sh, r, id, steps, Starter, Nothing);
    steps, now := Push(opens, sh, r, id, steps, Starter, Nothing);
    steps, now := Push(opens, sh, r, id, steps, Starter, Nothing);
    steps, now := Push(opens, sh, r, id, steps, Starter, Nothing);
    steps, now := Push(opens, sh, r, id, steps, Starter, Nothing);
    steps, now := Push(opens, sh, r, id, steps, Starter, Nothing);
    NoFrames(steps);
  }

  lemma NoFrames(steps: seq<(Thread, Event)>)
    requires forall k | 0 <= k < |steps| :: !steps[k].1.Frame?
    ensures FramesIn(steps) == {}
  {
  }

  lemma OwnNothing(opens: (nat, bytes) -> Option<bytes>, sh: Shared, r: Run, id: nat)
    ensures OwnSteps(opens, sh, r, id, []) == (sh, r)
  {
  }

  lemma AfterNothing(opens: (nat, nat, bytes) -> Option<bytes>, s: State)
    ensures After(opens, s, []) == s
  {
  }
}
