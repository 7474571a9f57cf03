/** Who shuts whose socket: the halt slot across the pump's runs, in every interleaving. */
module PumpHalt {
  import opened Bytes
  import opened Pump
  import opened PumpTraces

  /** From the moment a start has filled the slot until its run is over, the slot holds that run's handle or nothing. */
  ghost predicate HaltOwned(s: State) {
    forall i | i in s.runs && Busy(s.runs[i]) && Rank(s.runs[i].start) >= 6 :: s.sh.halt == None || s.sh.halt == Some(i)
  }

  lemma RunStepHalt(opens: (nat, bytes) -> Option<bytes>, sh: Shared, r: Run, id: nat, t: Thread, e: Event)
    requires RunOk(r)
    ensures var (sh1, r1) := RunStep(opens, sh, r, id, t, e);
            && (sh1.halt == sh.halt || sh1.halt == None || (sh1.halt == Some(id) && Busy(r1)))
            && (Busy(r1) && Rank(r1.start) >= 6 ==>
                  (Busy(r) && Rank(r.start) >= 6) || sh1.halt == None || sh1.halt == Some(id))
  {
    hide OutStep, InStep, OutOk, InOk;
  }

  lemma NextKeepsHaltOwned(opens: (nat, nat, bytes) -> Option<bytes>, s: State, a: Action)
    requires Inv(s) && HaltOwned(s)
    ensures HaltOwned(Next(opens, s, a))
  {
    hide RunStep, RunOk, Busy, Rank, Linked;
    var t := Next(opens, s, a);
    NextKeepsInv(opens, s, a);
    match a
    case Step(id, th, e) =>
      if id in s.runs { RunStepHalt((n, f) => opens(id, n, f), s.sh, s.runs[id], id, th, e); }
    case CallStart(id, cfg) => NewRunOk(s.sh, cfg);
    case _ =>
  }

  lemma {:induction false} AfterKeepsHaltOwned(opens: (nat, nat, bytes) -> Option<bytes>, s: State,
                                               actions: seq<Action>)
    requires Inv(s) && HaltOwned(s)
    ensures Inv(After(opens, s, actions)) && HaltOwned(After(opens, s, actions))
    decreases |actions|
  {
    hide Next, HaltOwned, Inv;
    if actions != [] {
      NextKeepsInv(opens, s, actions[0]);
      NextKeepsHaltOwned(opens, s, actions[0]);
      AfterKeepsHaltOwned(opens, Next(opens, s, actions[0]), actions[1..]);
    }
  }

  predicate AtFinalHalt(r: Run, t: Thread) {
    (t.Outbound? && r.out.half.FinalHalt?) || (t.Inbound? && r.inn.half.FinalHalt?)
  }

  predicate AtHalt(r: Run, t: Thread) {
    || (t.Outbound? && r.out.half == Loop(OutHalting))
    || (t.Inbound? && r.inn.half == Loop(InHalting))
  }

  lemma LoopHalts(opens: (nat, bytes) -> Option<bytes>, o: OutSide, i: InSide, blockIpv6: bool, stop: bool, n: nat,
                  e: Event)
    ensures o.half.Loop? ==> (OutStep(o, blockIpv6, stop, n, e).halts <==> o.half.at.OutHalting?)
    ensures i.half.Loop? ==> (InStep(opens, i, stop, n, e).halts <==> i.half.at.InHalting?)
  {
    hide IpVersion, WrapOut, UnwrapIn, Logged, DrawOf;
  }

  lemma WhatShuts(opens: (nat, bytes) -> Option<bytes>, sh: Shared, r: Run, id: nat, t: Thread, e: Event)
    ensures var sh1 := RunStep(opens, sh, r, id, t, e).0;
            sh1.shut != sh.shut ==>
              && sh.halt.Some? && sh1.shut == sh.shut + {sh.halt.value}
              && (AtHalt(r, t) || AtFinalHalt(r, t))
  {
    hide OutStep, InStep;
    LoopHalts(opens, r.out, r.inn, r.cfg.blockIpv6, sh.stop, if t.Outbound? then sh.seqOut else sh.seqIn, e);
  }

  /**
    * In every interleaving a run's socket is shut only by `stop`, by one of its own halves giving up, or by
    * the closing step of a half that has lowered `running` and is the last of its run.
    */
  lemma WhoShutsASocket(opens: (nat, nat, bytes) -> Option<bytes>, actions: seq<Action>, a: Action, j: nat)
    requires var s := After(opens, INITIAL, actions); j !in s.sh.shut && j in Next(opens, s, a).sh.shut
    ensures var s := After(opens, INITIAL, actions);
            && s.sh.halt == Some(j)
            && (|| a.StopHalts?
                || (a.Step? && a.id in s.runs && a.id == j && AtHalt(s.runs[j], a.t))
                || (a.Step? && a.id in s.runs && AtFinalHalt(s.runs[a.id], a.t)))
  {
    hide After, RunOk, RunStep, Linked, Busy;
    InitialInv();
    AfterKeepsHaltOwned(opens, INITIAL, actions);
    var s := After(opens, INITIAL, actions);
    if a.Step? && a.id in s.runs {
      WhatShuts((n, f) => opens(a.id, n, f), s.sh, s.runs[a.id], a.id, a.t, a.e);
      if AtHalt(s.runs[a.id], a.t) { LoopingIsBusy(s.runs[a.id]); }
    }
  }

  // ---- exactly when the last of these strikes another run ----

  /** The run's start has filled the slot. */
  predicate PastFill(s: State, i: nat) { i in s.runs && Rank(s.runs[i].start) >= 6 }

  /** Only handles that a start put there are in the slot or have been shut. */
  ghost predicate Traceable(s: State) {
    (s.sh.halt.Some? ==> PastFill(s, s.sh.halt.value)) && forall i | i in s.sh.shut :: PastFill(s, i)
  }

  lemma RunStepTraceable(opens: (nat, bytes) -> Option<bytes>, sh: Shared, r: Run, id: nat, t: Thread, e: Event)
    ensures var (sh1, r1) := RunStep(opens, sh, r, id, t, e);
            && (Rank(r.start) >= 6 ==> Rank(r1.start) >= 6)
            && (|| sh1.halt == sh.halt || sh1.halt == None
                || (sh1.halt == Some(id) && r.start.Cloned? && Rank(r1.start) >= 6))
            && (sh1.shut == sh.shut || (sh.halt.Some? && sh1.shut == sh.shut + {sh.halt.value}))
  {
    hide OutStep, InStep;
  }

  lemma NextKeepsTraceable(opens: (nat, nat, bytes) -> Option<bytes>, s: State, a: Action)
    requires Traceable(s)
    ensures Traceable(Next(opens, s, a))
  {
    hide RunStep, Rank;
    if a.Step? && a.id in s.runs { RunStepTraceable((n, f) => opens(a.id, n, f), s.sh, s.runs[a.id], a.id, a.t, a.e); }
  }

  lemma {:induction false} AfterKeepsTraceable(opens: (nat, nat, bytes) -> Option<bytes>, s: State,
                                               actions: seq<Action>)
    requires Traceable(s)
    ensures Traceable(After(opens, s, actions))
    decreases |actions|
  {
    hide Next, Traceable;
    if actions != [] {
      NextKeepsTraceable(opens, s, actions[0]);
      AfterKeepsTraceable(opens, Next(opens, s, actions[0]), actions[1..]);
    }
  }

  /** A run that has not filled the slot yet, or has nothing left to do. */
  predicate Harmless(r: Run) { Rank(r.start) < 6 || (r.out.half.Finished? && r.inn.half.Finished?) }

  /** As long as run j's handle sits in the slot, every other run is harmless. */
  ghost predicate Undisturbed(s: State, j: nat) {
    PastFill(s, j) && (s.sh.halt == Some(j) ==> forall i | i in s.runs && i != j :: Harmless(s.runs[i]))
  }

  lemma HarmlessStep(opens: (nat, bytes) -> Option<bytes>, sh: Shared, r: Run, id: nat, t: Thread, e: Event)
    requires RunOk(r) && Harmless(r)
    ensures var (sh1, r1) := RunStep(opens, sh, r, id, t, e);
            && sh1.shut == sh.shut
            && (Harmless(r1) || sh1.halt == None || sh1.halt == Some(id))
  {
    hide OutStep, InStep, OutOk, InOk;
  }

  lemma NextUndisturbed(opens: (nat, nat, bytes) -> Option<bytes>, s: State, a: Action, j: nat)
    requires Inv(s) && Undisturbed(s, j)
    ensures Undisturbed(Next(opens, s, a), j)
    ensures !Struck(opens, s, a, j)
  {
    hide RunStep, RunOk, Busy, Rank, Linked, Harmless;
    if a.Step? && a.id in s.runs {
      RunStepTraceable((n, f) => opens(a.id, n, f), s.sh, s.runs[a.id], a.id, a.t, a.e);
      if a.id == j {
        PastFillStep((n, f) => opens(j, n, f), s.sh, s.runs[j], j, a.t, a.e);
      } else if Harmless(s.runs[a.id]) {
        HarmlessStep((n, f) => opens(a.id, n, f), s.sh, s.runs[a.id], a.id, a.t, a.e);
      }
    } else if a.CallStart? {
      NewRunHarmless(a.cfg);
    }
  }

  lemma NewRunHarmless(cfg: Config)
    ensures Harmless(NewRun(cfg))
  {
  }

  lemma PastFillStep(opens: (nat, bytes) -> Option<bytes>, sh: Shared, r: Run, id: nat, t: Thread, e: Event)
    requires Rank(r.start) >= 6
    ensures RunStep(opens, sh, r, id, t, e).0.halt == sh.halt || RunStep(opens, sh, r, id, t, e).0.halt == None
  {
    hide OutStep, InStep;
  }

  /** A thread of another run shuts run j's socket. */
  predicate Struck(opens: (nat, nat, bytes) -> Option<bytes>, s: State, a: Action, j: nat) {
    a.Step? && a.id != j && j !in s.sh.shut && j in Next(opens, s, a).sh.shut
  }

  ghost predicate CanBeStruck(opens: (nat, nat, bytes) -> Option<bytes>, s: State, j: nat) {
    exists more, a :: Struck(opens, After(opens, s, more), a, j)
  }

  lemma StruckAtOnce(opens: (nat, nat, bytes) -> Option<bytes>, s: State, a: Action, j: nat)
    requires Struck(opens, s, a, j)
    ensures CanBeStruck(opens, s, j)
  {
    hide Struck;
    assert Struck(opens, After(opens, s, []), a, j);
  }

  lemma {:induction false} NeverStruck(opens: (nat, nat, bytes) -> Option<bytes>, s: State, more: seq<Action>,
                                       a: Action, j: nat)
    requires Inv(s) && Undisturbed(s, j)
    ensures !Struck(opens, After(opens, s, more), a, j)
    decreases |more|
  {
    hide Next, Undisturbed, Struck, Inv;
    if more == [] {
      NextUndisturbed(opens, s, a, j);
    } else {
      NextKeepsInv(opens, s, more[0]);
      NextUndisturbed(opens, s, more[0], j);
      NeverStruck(opens, Next(opens, s, more[0]), more[1..], a, j);
    }
  }

  /** A run that is not busy has either never taken the pump or has only closing steps left. */
  lemma IdleOrClosing(r: Run)
    requires RunOk(r) && !Busy(r)
    ensures Harmless(r) || AtFinalHalt(r, Outbound) || AtFinalHalt(r, Inbound)
  {
    hide OutOk, InOk;
  }

  /** Filling the slot while no other run has a closing step to take leaves every other run harmless. */
  lemma FillUndisturbed(opens: (nat, nat, bytes) -> Option<bytes>, s: State, j: nat, e: Event)
    requires Inv(s) && j in s.runs && s.runs[j].start == Cloned && !e.Bad?
    requires forall i, t | i in s.runs && i != j :: !AtFinalHalt(s.runs[i], t)
    ensures Undisturbed(Next(opens, s, Step(j, Starter, e)), j)
  {
    hide RunOk, Linked, Busy, Harmless, AtFinalHalt;
    assert Busy(s.runs[j]) by { CloningIsBusy(s.runs[j]); }
    forall i | i in s.runs && i != j
      ensures Harmless(s.runs[i])
    {
      assert !Busy(s.runs[i]);
      IdleOrClosing(s.runs[i]);
    }
  }

  lemma CloningIsBusy(r: Run)
    requires r.start == Cloned
    ensures Busy(r)
  {
  }

  /**
    * The exact condition. Take the step at which run j's start fills the halt slot, in any interleaving: some
    * continuation has a thread of another run shut j's socket if and only if, at that step, another run has a
    * half that has lowered `running` and has yet to take its closing step. Otherwise only `stop` and j's own
    * halves ever shut it.
    */
  lemma StruckExactlyByALateClosingStep(opens: (nat, nat, bytes) -> Option<bytes>, actions: seq<Action>, j: nat,
                                        e: Event)
    requires var s := After(opens, INITIAL, actions); j in s.runs && s.runs[j].start == Cloned
    requires !e.Bad?
    ensures var s := After(opens, INITIAL, actions);
            CanBeStruck(opens, Next(opens, s, Step(j, Starter, e)), j) <==>
            (exists i, t :: i in s.runs && i != j && AtFinalHalt(s.runs[i], t))
  {
    hide After, Inv, Struck;
    var s := After(opens, INITIAL, actions);
    InitialInv();
    AfterKeepsInv(opens, INITIAL, actions);
    AfterKeepsTraceable(opens, INITIAL, actions);
    var filled := Next(opens, s, Step(j, Starter, e));
    if i, t :| i in s.runs && i != j && AtFinalHalt(s.runs[i], t) {
      LateClosingStepStrikes(opens, s, i, t, j, e);
      StruckAtOnce(opens, filled, Step(i, t, Nothing), j);
    } else {
      FillUndisturbed(opens, s, j, e);
      NextKeepsInv(opens, s, Step(j, Starter, e));
      forall more, a
        ensures !Struck(opens, After(opens, filled, more), a, j)
      {
        NeverStruck(opens, filled, more, a, j);
      }
    }
  }

  lemma LateClosingStepStrikes(opens: (nat, nat, bytes) -> Option<bytes>, s: State, i: nat, t: Thread, j: nat, e: Event)
    requires Traceable(s) && j in s.runs && s.runs[j].start == Cloned && !e.Bad?
    requires i in s.runs && i != j && AtFinalHalt(s.runs[i], t)
    ensures Struck(opens, Next(opens, s, Step(j, Starter, e)), Step(i, t, Nothing), j)
  {
    hide OutStep, InStep;
    var filled := Next(opens, s, Step(j, Starter, e));
    assert filled.sh.halt == Some(j) && filled.runs[i] == s.runs[i];
    assert j !in s.sh.shut;
  }

  // ---- such an interleaving exists ----

  /**
    * Both halves meet the end of their input and leave; the inbound one is last, and has yet to take its closing step.
    */
  lemma Leaves(opens: (nat, bytes) -> Option<bytes>, sh: Shared, r: Run, id: nat) returns (steps: seq<(Thread, Event)>)
    requires !sh.stop && sh.alive == 2 && r.out.half == Loop(OutTop) && r.inn.half == Loop(InTop)
    ensures var (sh1, r1) := OwnSteps(opens, sh, r, id, steps);
            !sh1.running && sh1.shut == sh.shut && r1.out.half.Finished? && r1.inn.half.FinalHalt?
  {
    hide OwnSteps, StartStep;
    var now := (sh, r);
    assert OwnSteps(opens, sh, r, id, []) == now by { OwnNothing(opens, sh, r, id); }
    steps, now := Push(opens, sh, r, id, [], Outbound, Nothing);
    steps, now := Push(opens, sh, r, id, steps, Outbound, Closed);
    steps, now := Push(opens, sh, r, id, steps, Outbound, Nothing);
    steps, now := Push(opens, sh, r, id, steps, Inbound, Nothing);
    steps, now := Push(opens, sh, r, id, steps, Inbound, Closed);
    steps, now := Push(opens, sh, r, id, steps, Inbound, Nothing);
    steps, now := Push(opens, sh, r, id, steps, Inbound, Nothing);
  }

  /**
    * The closing step of a run that is over can shut the socket of the run that has since started: `running`
    * is lowered before the halt slot is emptied. No `stop` is called here, and the newer run is left in both its loops.
    */
  lemma ClosingStepShutsANewerRun(opens: (nat, nat, bytes) -> Option<bytes>, older: Config, newer: Config)
    ensures exists actions :: Unstopped(actions) &&
              var s := After(opens, INITIAL, actions);
              && 0 in s.runs && s.runs[0].out.half.Finished? && s.runs[0].inn.half.Finished?
              && 1 in s.runs && s.runs[1].out.half.Loop? && s.runs[1].inn.half.Loop?
              && s.sh.shut == {1}
  {
    hide After, OwnSteps, StartStep, OutStep, InStep;
    var o0, o1 := (n: nat, f: bytes) => opens(0, n, f), (n: nat, f: bytes) => opens(1, n, f);
    AfterSnoc(opens, INITIAL, [], CallStart(0, older));
    var a: seq<Action> := [] + [CallStart(0, older)];
    assert After(opens, INITIAL, []) == INITIAL by { AfterNothing(opens, INITIAL); }
    var steps := StartsUp(o0, INITIAL.sh, older, 0);
    a := Extend(opens, a, 0, steps);
    var s := After(opens, INITIAL, a);
    steps := Leaves(o0, s.sh, s.runs[0], 0);
    a := Extend(opens, a, 0, steps);
    s := After(opens, INITIAL, a);
    AfterSnoc(opens, INITIAL, a, CallStart(1, newer));
    a := a + [CallStart(1, newer)];
    steps := StartsUp(o1, s.sh, newer, 1);
    a := Extend(opens, a, 1, steps);
    AfterSnoc(opens, INITIAL, a, Step(0, Inbound, Nothing));
    a := a + [Step(0, Inbound, Nothing)];
  }
}
