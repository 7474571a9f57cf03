/**
  * `complete` under concurrency: any number of calls interleaved at their accesses to the shared
  * completion flag and the write-once key cell.
  */
module CompletionRace {
  import opened Bytes
  import opened Primitives
  import opened Reality
  import opened Handshake

  /** Where a call stands; every arrow out of a point is one access to shared state or one local decision. */
  datatype Point =
    | Entering             // before the compare-exchange
    | Holding              // owns the flag, response not yet checked
    | Passed               // response authentic, key cell not yet written
    | Keyed                // wrote the key cell, confirmation not yet opened
    | Rejecting            // about to put the flag back
    | ReturnedOk
    | ReturnedErr

  datatype Call = Call(point: Point, response: bytes)

  datatype Shared = Shared(completed: bool, keys: Option<RecordKeys>, calls: map<nat, Call>)

  const FRESH := Shared(false, None, map[])

  predicate Owns(call: Call) {
    call.point.Holding? || call.point.Passed? || call.point.Keyed? || call.point.Rejecting? || call.point.ReturnedOk?
  }

  /** What the point after the checks requires of the response. */
  predicate Justified(c: Primitives, st: Started, call: Call)
    requires Lawful(c)
  {
    && (call.point.Passed? || call.point.Keyed? || call.point.ReturnedOk? ==> Authentic(c, st, call.response))
    && (call.point.ReturnedOk? ==> Confirmed(c, st, call.response))
  }

  /** A call's next point and its effect on the flag and the cell. */
  function Advance(c: Primitives, st: Started, s: Shared, call: Call): (bool, Option<RecordKeys>, Point)
    requires Lawful(c) && Justified(c, st, call)
  {
    match call.point
    case Entering => if s.completed then (true, s.keys, ReturnedErr) else (true, s.keys, Holding)
    case Holding => (s.completed, s.keys, if Authentic(c, st, call.response) then Passed else Rejecting)
    case Passed =>
      if s.keys.Some? then (s.completed, s.keys, Rejecting)
      else (s.completed, Some(ResponseKeys(c, st, call.response)), Keyed)
    case Keyed => (s.completed, s.keys, if Confirmed(c, st, call.response) then ReturnedOk else Rejecting)
    case Rejecting => (false, s.keys, ReturnedErr)
    case ReturnedOk => (s.completed, s.keys, ReturnedOk)
    case ReturnedErr => (s.completed, s.keys, ReturnedErr)
  }

  datatype Event = Invoke(id: nat, response: bytes) | Run(id: nat)

  /** One event; an event that is not enabled changes nothing. */
  function Next(c: Primitives, st: Started, s: Shared, e: Event): Shared
    requires Lawful(c) && Inv(c, st, s)
  {
    match e
    case Invoke(id, response) => if id in s.calls then s else s.(calls := s.calls[id := Call(Entering, response)])
    case Run(id) =>
      if id !in s.calls then s
      else
        var (completed, keys, point) := Advance(c, st, s, s.calls[id]);
        Shared(completed, keys, s.calls[id := s.calls[id].(point := point)])
  }

  /** One owner at a time, the flag says whether there is one, and a keyed call's keys are the keys in the cell. */
  ghost predicate Inv(c: Primitives, st: Started, s: Shared)
    requires Lawful(c)
  {
    && (forall i | i in s.calls :: Justified(c, st, s.calls[i]))
    && (forall i, j | i in s.calls && j in s.calls && Owns(s.calls[i]) && Owns(s.calls[j]) :: i == j)
    && (s.completed <==> exists i :: i in s.calls && Owns(s.calls[i]))
    && (forall i | i in s.calls && (s.calls[i].point.Keyed? || s.calls[i].point.ReturnedOk?) ::
          s.keys == Some(ResponseKeys(c, st, s.calls[i].response)))
  }

  /** The flag is up as soon as some call owns it, and whoever else is found owning is that call. */
  lemma NextKeepsInv(c: Primitives, st: Started, s: Shared, e: Event)
    requires Lawful(c) && Inv(c, st, s)
    ensures Inv(c, st, Next(c, st, s, e))
    ensures s.keys.Some? ==> Next(c, st, s, e).keys == s.keys
  {
    hide Authentic, Confirmed, ResponseKeys, Lawful;
    var t := Next(c, st, s, e);
    if e.Run? && e.id in s.calls {
      if Owns(t.calls[e.id]) {
        assert t.completed;
      } else if Owns(s.calls[e.id]) {
        assert !t.completed;
      } else {
        forall i | i in s.calls && Owns(s.calls[i])
          ensures i in t.calls && Owns(t.calls[i])
        {
        }
      }
    } else {
      forall i | i in s.calls && Owns(s.calls[i])
        ensures i in t.calls && Owns(t.calls[i])
      {
      }
    }
  }

  /** The state after a list of events. */
  ghost function After(c: Primitives, st: Started, s: Shared, events: seq<Event>): (t: Shared)
    requires Lawful(c) && Inv(c, st, s)
    ensures Inv(c, st, t)
    decreases |events|
  {
    if events == [] then s
    else
      NextKeepsInv(c, st, s, events[0]);
      After(c, st, Next(c, st, s, events[0]), events[1..])
  }

  lemma FreshIsInvariant(c: Primitives, st: Started)
    requires Lawful(c)
    ensures Inv(c, st, FRESH)
  {
  }

  lemma {:induction false} KeysNeverChange(c: Primitives, st: Started, s: Shared, events: seq<Event>)
    requires Lawful(c) && Inv(c, st, s) && s.keys.Some?
    ensures After(c, st, s, events).keys == s.keys
    decreases |events|
  {
    if events != [] {
      NextKeepsInv(c, st, s, events[0]);
      KeysNeverChange(c, st, Next(c, st, s, events[0]), events[1..]);
    }
  }

  predicate Quiescent(s: Shared) {
    forall i | i in s.calls :: s.calls[i].point.ReturnedOk? || s.calls[i].point.ReturnedErr?
  }

  /**
    * In every interleaving of any calls: at most one returns Ok, and then the response was authentic and
    * confirmed and the keys are the ones it fixed; when all calls have returned, the flag is up exactly if one did.
    */
  lemma CompletionIsSingleUse(c: Primitives, st: Started, events: seq<Event>)
    requires Lawful(c)
    ensures Inv(c, st, FRESH)
    ensures var s := After(c, st, FRESH, events);
            && (forall i, j | i in s.calls && j in s.calls
                              && s.calls[i].point.ReturnedOk? && s.calls[j].point.ReturnedOk? :: i == j)
            && (forall i | i in s.calls && s.calls[i].point.ReturnedOk? ::
                  && Authentic(c, st, s.calls[i].response) && Confirmed(c, st, s.calls[i].response)
                  && s.completed && s.keys == Some(ResponseKeys(c, st, s.calls[i].response)))
            && (Quiescent(s) ==> (s.completed <==> exists i :: i in s.calls && s.calls[i].point.ReturnedOk?))
  {
    hide Authentic, Confirmed, ResponseKeys;
    FreshIsInvariant(c, st);
    var s := After(c, st, FRESH, events);
    if s.completed {
      var i :| i in s.calls && Owns(s.calls[i]);
      if Quiescent(s) { assert s.calls[i].point.ReturnedOk?; }
    }
  }

  /**
    * At every moment of every interleaving the flag is up exactly while some call owns it: one that returned Ok, or one
    * still under way.
    */
  lemma FlagUpExactlyWhileOwned(c: Primitives, st: Started, events: seq<Event>)
    requires Lawful(c)
    ensures Inv(c, st, FRESH)
    ensures var s := After(c, st, FRESH, events); s.completed <==> exists i :: i in s.calls && Owns(s.calls[i])
  {
    hide Authentic, Confirmed, ResponseKeys;
    FreshIsInvariant(c, st);
  }

  /**
    * So whoever reads the flag between the steps of a call can find it up, with the keys in the cell, and that call
    * still fail: with any response that is authentic but unconfirmed, after three of its five steps.
    */
  lemma FlagAndKeysBeforeARejection(c: Primitives, st: Started, id: nat, response: bytes)
    requires Lawful(c) && Authentic(c, st, response) && !Confirmed(c, st, response)
    ensures Inv(c, st, FRESH)
    ensures var during := After(c, st, FRESH, [Invoke(id, response)] + Runs(id, 3));
            during.completed && during.keys == Some(ResponseKeys(c, st, response))
    ensures var done := After(c, st, FRESH, [Invoke(id, response)] + Runs(id, 5));
            && !done.completed && done.keys == Some(ResponseKeys(c, st, response))
            && id in done.calls && done.calls[id].point == ReturnedErr
  {
    hide Authentic, Confirmed, ResponseKeys, Inv, After, Next, Runs, Justified, Lawful;
    FreshIsInvariant(c, st);
    RunsTo(c, st, id, response, 3);
    RunsTo(c, st, id, response, 5);
  }

  /** Where an uninterrupted call with an authentic but unconfirmed response stands after so many steps. */
  lemma RunsTo(c: Primitives, st: Started, id: nat, response: bytes, n: nat)
    requires Lawful(c) && Authentic(c, st, response) && !Confirmed(c, st, response) && (n == 3 || n == 5)
    requires Inv(c, st, FRESH)
    ensures var t := After(c, st, FRESH, [Invoke(id, response)] + Runs(id, n));
            && id in t.calls && t.keys == Some(ResponseKeys(c, st, response))
            && if n == 3 then t.completed else !t.completed && t.calls[id].point == ReturnedErr
  {
    hide Authentic, Confirmed, ResponseKeys, Inv, After, Next, Runs, Justified, Lawful;
    var t1 := Stepped(c, st, FRESH, Invoke(id, response), Runs(id, n));
    assert t1 == FRESH.(calls := FRESH.calls[id := Call(Entering, response)]) by {
      Invoked(c, st, FRESH, id, response);
    }
    var t2 := SteppedRun(c, st, t1, id, n);
    var t3 := SteppedRun(c, st, t2, id, n - 1);
    var t4 := SteppedRun(c, st, t3, id, n - 2);
    if n == 3 {
      assert After(c, st, t4, Runs(id, 0)) == t4 by { NoRuns(c, st, t4, id); }
    } else {
      var t5 := SteppedRun(c, st, t4, id, 2);
      var t6 := SteppedRun(c, st, t5, id, 1);
      assert After(c, st, t6, Runs(id, 0)) == t6 by { NoRuns(c, st, t6, id); }
    }
  }

  /** The cell is written but its writer is gone: a response failed its confirmation only. */
  ghost predicate Spent(s: Shared) {
    s.keys.Some? && forall i | i in s.calls :: !s.calls[i].point.Keyed? && !s.calls[i].point.ReturnedOk?
  }

  lemma SpentStaysSpent(c: Primitives, st: Started, s: Shared, e: Event)
    requires Lawful(c) && Inv(c, st, s) && Spent(s)
    ensures Spent(Next(c, st, s, e))
  {
    hide Authentic, Confirmed, ResponseKeys;
    var t := Next(c, st, s, e);
    forall i | i in t.calls
      ensures !t.calls[i].point.Keyed? && !t.calls[i].point.ReturnedOk?
    {
      if i in s.calls { assert !s.calls[i].point.Keyed? && !s.calls[i].point.ReturnedOk?; }
    }
  }

  /** Once a response has failed only its confirmation, no call of any later interleaving returns Ok. */
  lemma {:induction false} FailedConfirmationIsFinal(c: Primitives, st: Started, s: Shared, events: seq<Event>)
    requires Lawful(c) && Inv(c, st, s) && Spent(s)
    ensures Spent(After(c, st, s, events))
    decreases |events|
  {
    if events != [] {
      NextKeepsInv(c, st, s, events[0]);
      SpentStaysSpent(c, st, s, events[0]);
      FailedConfirmationIsFinal(c, st, Next(c, st, s, events[0]), events[1..]);
    }
  }

  /** Rejecting an unconfirmed response is what spends a handshake: from then on the flag is down but the keys stay. */
  lemma RejectionAfterKeyingSpends(c: Primitives, st: Started, s: Shared, id: nat)
    requires Lawful(c) && Inv(c, st, s) && id in s.calls && s.calls[id].point.Keyed?
    requires !Confirmed(c, st, s.calls[id].response)
    ensures Spent(Next(c, st, s, Run(id)))
  {
    var t := Next(c, st, s, Run(id));
    forall i | i in t.calls
      ensures !t.calls[i].point.Keyed? && !t.calls[i].point.ReturnedOk?
    {
      if i != id { assert Owns(s.calls[id]); }
    }
  }

  /** A lone call run from start to finish does what the sequential method does. */
  lemma SoloRunIsSequential(c: Primitives, st: Started, s: Shared, id: nat, response: bytes)
    requires Lawful(c) && Inv(c, st, s) && id !in s.calls
    ensures var t := After(c, st, s, [Invoke(id, response)] + Runs(id, 5));
            && id in t.calls
            && (t.completed, t.keys, t.calls[id].point == ReturnedOk) == Completed(c, st, s.completed, s.keys, response)
  {
    hide Authentic, Confirmed, ResponseKeys, Inv, After, Next, Runs, Justified, Lawful;
    var t1 := Stepped(c, st, s, Invoke(id, response), Runs(id, 5));
    assert t1 == s.(calls := s.calls[id := Call(Entering, response)]) by { Invoked(c, st, s, id, response); }
    var t2 := SteppedRun(c, st, t1, id, 5);
    var t3 := SteppedRun(c, st, t2, id, 4);
    var t4 := SteppedRun(c, st, t3, id, 3);
    var t5 := SteppedRun(c, st, t4, id, 2);
    var t6 := SteppedRun(c, st, t5, id, 1);
    assert After(c, st, t6, Runs(id, 0)) == t6 by { NoRuns(c, st, t6, id); }
  }

  function Runs(id: nat, n: nat): seq<Event> {
    if n == 0 then [] else [Run(id)] + Runs(id, n - 1)
  }

  lemma NoRuns(c: Primitives, st: Started, s: Shared, id: nat)
    requires Lawful(c) && Inv(c, st, s)
    ensures After(c, st, s, Runs(id, 0)) == s
  {
  }

  lemma Invoked(c: Primitives, st: Started, s: Shared, id: nat, response: bytes)
    requires Lawful(c) && Inv(c, st, s) && id !in s.calls
    ensures Next(c, st, s, Invoke(id, response)) == s.(calls := s.calls[id := Call(Entering, response)])
  {
  }

  lemma Stepped(c: Primitives, st: Started, s: Shared, e: Event, rest: seq<Event>) returns (t: Shared)
    requires Lawful(c) && Inv(c, st, s)
    ensures t == Next(c, st, s, e) && Inv(c, st, t)
    ensures After(c, st, s, [e] + rest) == After(c, st, t, rest)
  {
    NextKeepsInv(c, st, s, e);
    t := Next(c, st, s, e);
    assert ([e] + rest)[1..] == rest;
  }

  lemma SteppedRun(c: Primitives, st: Started, s: Shared, id: nat, n: nat) returns (t: Shared)
    requires Lawful(c) && Inv(c, st, s) && id in s.calls && n > 0
    ensures Inv(c, st, t) && Justified(c, st, s.calls[id])
            && After(c, st, s, Runs(id, n)) == After(c, st, t, Runs(id, n - 1))
    ensures id in t.calls && t.calls[id].response == s.calls[id].response
    ensures (t.completed, t.keys, t.calls[id].point) == Advance(c, st, s, s.calls[id])
  {
    t := Stepped(c, st, s, Run(id), Runs(id, n - 1));
  }
}
