/**
  * What whole sequences of client calls leave behind: the numbers and channels records are sealed under, and the
  * transcript.
  */
module TlsHistory {
  import opened Bytes
  import opened RecordLayer
  import opened KeySchedule
  import opened ServerFlight
  import opened Tls13Client

  lemma AfterSnoc(c: Tls, calls: seq<Call>, call: Call)
    requires Lawful(c)
    ensures After(c, calls + [call]) == Did(c, After(c, calls), call)
  {
    hide Did;
    assert (calls + [call])[..|calls|] == calls;
  }

  /**
    * The distinctness of nonces ends with the channel: a client that is given the same ServerHello and shared secret
    * again, after whatever calls but a new ClientHello, is back on the very same handshake channels at number zero.
    */
  lemma RepeatingTheHelloRepeatsTheChannels(c: Tls, calls: seq<Call>, between: seq<Call>, wire: bytes, shared: bytes)
    requires Lawful(c) && HelloParsed(wire).Ok? && After(c, calls).hello.Some? && |After(c, calls).hello.value| >= 5
    requires forall k | 0 <= k < |between| :: !between[k].SetHello?
    ensures var once := After(c, calls + [Hello(wire)] + [Derive(shared)]);
            var again := After(c, calls + [Hello(wire)] + [Derive(shared)] + between + [Hello(wire)]
                               + [Derive(shared)]);
            && once.hsWrite.Some? && again.hsWrite == once.hsWrite && again.hsRead == once.hsRead
            && once.hsWrite.value.seqno == 0
  {
    hide After, Did, HelloParsed;
    var first := calls + [Hello(wire)] + [Derive(shared)];
    HelloThenDerive(c, calls, wire, shared);
    HelloStays(c, first, between);
    HelloThenDerive(c, first + between, wire, shared);
  }

  /** The channels that a ServerHello and a shared secret lead to depend on the stored ClientHello alone. */
  function ChannelsFor(c: Tls, hello: bytes, wire: bytes, shared: bytes): (Channel, Channel)
    requires Lawful(c) && HelloParsed(wire).Ok? && |hello| >= 5
  {
    var f := HelloParsed(wire).value;
    var h := SuiteHash(f.suite);
    var early := Extract(c, h, Zeros(HashLen(h)), Zeros(HashLen(h)));
    var hs := Extract(c, h, DeriveSecret(c, h, early, "derived", c.hash(h, [])), shared);
    var th := c.hash(h, hello[5..] + f.body);
    (ChannelFrom(c, f.suite, DeriveSecret(c, h, hs, "c hs traffic", th)),
     ChannelFrom(c, f.suite, DeriveSecret(c, h, hs, "s hs traffic", th)))
  }

  lemma HelloThenDerive(c: Tls, calls: seq<Call>, wire: bytes, shared: bytes)
    requires Lawful(c) && HelloParsed(wire).Ok? && After(c, calls).hello.Some? && |After(c, calls).hello.value| >= 5
    ensures var cl := After(c, calls + [Hello(wire)] + [Derive(shared)]);
            var (write, read) := ChannelsFor(c, After(c, calls).hello.value, wire, shared);
            cl.hello == After(c, calls).hello && cl.hsWrite == Some(write) && cl.hsRead == Some(read)
  {
    hide After, HelloParsed, DeriveSecret, Extract, ChannelFrom, SuiteHash, HashLen, WithFlight, WithClientFinished,
         WithSealed, WithOpened;
    AfterSnoc(c, calls, Hello(wire));
    AfterSnoc(c, calls + [Hello(wire)], Derive(shared));
  }

  lemma {:induction false} HelloStays(c: Tls, calls: seq<Call>, between: seq<Call>)
    requires Lawful(c) && forall k | 0 <= k < |between| :: !between[k].SetHello?
    ensures After(c, calls + between).hello == After(c, calls).hello
    decreases |between|
  {
    hide After, HelloParsed, DeriveSecret, Extract, ChannelFrom;
    if between == [] {
      assert calls + between == calls;
    } else {
      var init, last := between[..|between| - 1], between[|between| - 1];
      HelloStays(c, calls, init);
      AfterSnoc(c, calls + init, last);
      assert calls + between == calls + init + [last];
      DidKeepsHello(c, After(c, calls + init), last);
    }
  }

  lemma DidKeepsHello(c: Tls, cl: Client, call: Call)
    requires Lawful(c) && Typed(cl) && !call.SetHello?
    ensures Did(c, cl, call).hello == cl.hello
  {
    hide HelloParsed, DeriveSecret, Extract, ChannelFrom, Processed, Sealed, Opened;
  }

  // ---- when a nonce repeats ----

  /** The two write channels: application data, and the client's Finished. */
  datatype Kind = Application | HandshakeKind

  function ChannelOf(kind: Kind, cl: Client): Option<Channel> { if kind.Application? then cl.appWrite else cl.hsWrite }

  /** A call that sets the channel up afresh: an accepted flight, or a key derivation that succeeds. */
  predicate Resets(kind: Kind, c: Tls, cl: Client, call: Call)
    requires Lawful(c) && Typed(cl)
  {
    if kind.Application? then call.TakeFlight? && WithFlight(c, cl, call.records).1.Ok?
    else call.Derive? && WithHandshakeKeys(c, cl, call.shared).1.Ok?
  }

  /** A call that seals a record under the channel. */
  predicate Uses(kind: Kind, c: Tls, cl: Client, call: Call)
    requires Lawful(c) && Typed(cl)
  {
    if kind.Application? then call.Seal? && WithSealed(c, cl, call.data).1.Ok?
    else call.Finish? && WithClientFinished(c, cl).1.Ok?
  }

  /** One call sets the channel up at number zero, moves it by one record, or leaves it. */
  lemma CallMovesChannel(kind: Kind, c: Tls, cl: Client, call: Call)
    requires Lawful(c) && Typed(cl)
    ensures var next := ChannelOf(kind, Did(c, cl, call));
            if Resets(kind, c, cl, call) then next.Some? && next.value.seqno == 0
            else if Uses(kind, c, cl, call) then
              ChannelOf(kind, cl).Some? && next == Some(Advanced(ChannelOf(kind, cl).value))
            else next == ChannelOf(kind, cl)
  {
    hide HelloParsed, DeriveSecret, Extract, Processed, Sealed, Opened, Advanced;
  }

  /** The channel as it was last set up, at number zero. */
  function BaseOf(kind: Kind, c: Tls, calls: seq<Call>): Option<Channel>
    requires Lawful(c)
    decreases |calls|
  {
    if calls == [] then None
    else
      var init := calls[..|calls| - 1];
      if Resets(kind, c, After(c, init), calls[|calls| - 1]) then ChannelOf(kind, After(c, calls))
      else BaseOf(kind, c, init)
  }

  /** The records sealed under it since. */
  function CountOf(kind: Kind, c: Tls, calls: seq<Call>): nat
    requires Lawful(c)
    decreases |calls|
  {
    if calls == [] then 0
    else
      var init, last := calls[..|calls| - 1], calls[|calls| - 1];
      if Resets(kind, c, After(c, init), last) then 0
      else CountOf(kind, c, init) + if Uses(kind, c, After(c, init), last) then 1 else 0
  }

  lemma NextNumber(ch: Channel, n: nat)
    ensures Later(ch, 0) == ch && Advanced(Later(ch, n)) == Later(ch, n + 1)
  {
    var a := (ch.seqno + n) % TWO_TO_THE_64;
    if a == TWO_TO_THE_64 - 1 {
      assert (ch.seqno + n + 1) % TWO_TO_THE_64 == 0;
    }
  }

  /**
    * Over every call sequence a write channel is the one last set up, so many records later as were sealed since: for
    * application data since the last accepted flight, for Finished since the last key derivation.
    */
  lemma {:induction false} NumberIsTheCount(kind: Kind, c: Tls, calls: seq<Call>)
    requires Lawful(c)
    ensures var base := BaseOf(kind, c, calls);
            && (base.Some? ==> base.value.seqno == 0)
            && ChannelOf(kind, After(c, calls)) ==
               if base.None? then None else Some(Later(base.value, CountOf(kind, c, calls)))
    decreases |calls|
  {
    hide Resets, Uses, Did, Later, Advanced;
    if calls != [] {
      var init, last := calls[..|calls| - 1], calls[|calls| - 1];
      NumberIsTheCount(kind, c, init);
      CallMovesChannel(kind, c, After(c, init), last);
      if BaseOf(kind, c, init).Some? { NextNumber(BaseOf(kind, c, init).value, CountOf(kind, c, init)); }
      if ChannelOf(kind, After(c, calls)).Some? { NextNumber(ChannelOf(kind, After(c, calls)).value, 0); }
    }
  }

  /** Call `i` seals a record. */
  predicate SealsAt(kind: Kind, c: Tls, calls: seq<Call>, i: nat)
    requires Lawful(c)
  {
    i < |calls| && Uses(kind, c, Before(c, calls, i), calls[i])
  }

  /** The channel the record of call `i` is sealed under. */
  function SealedUnder(kind: Kind, c: Tls, calls: seq<Call>, i: nat): (ch: Channel)
    requires Lawful(c) && SealsAt(kind, c, calls, i)
    ensures ChannelOf(kind, Before(c, calls, i)) == Some(ch) && Usable(ch)
  {
    hide Did, Processed;
    CallMovesChannel(kind, c, Before(c, calls, i), calls[i]);
    ChannelOf(kind, Before(c, calls, i)).value
  }

  /** It is what the record is made with. */
  lemma RecordOfCall(c: Tls, calls: seq<Call>, i: nat)
    requires Lawful(c) && i < |calls|
    ensures SealsAt(Application, c, calls, i) ==>
              WithSealed(c, Before(c, calls, i), calls[i].data).1
              == Ok(AppSealed(c, SealedUnder(Application, c, calls, i), calls[i].data))
    ensures SealsAt(HandshakeKind, c, calls, i) ==>
              var cl := Before(c, calls, i);
              WithClientFinished(c, cl).1
              == Ok(Sealed(c, SealedUnder(HandshakeKind, c, calls, i), CONTENT_HANDSHAKE,
                           FinishedMessage(c, SuiteHash(cl.suite.value), cl.chts.value, cl.transcript.value), 0))
  {
    hide After, AppSealed, Sealed;
  }

  /** Two records are sealed with the same key, IV and nonce. */
  predicate SameProtection(a: Channel, b: Channel)
    requires Usable(a) && Usable(b)
  {
    a.suite == b.suite && a.key == b.key && a.iv == b.iv && RecordNonce(a.iv, a.seqno) == RecordNonce(b.iv, b.seqno)
  }

  /**
    * The exact condition, over every call sequence: two records are sealed with the same key, IV and nonce if and only
    * if the channels they were sealed under were set up alike and as many records were sealed under each since, modulo
    * the 64-bit word.
    */
  lemma NonceRepeatsExactlyIf(kind: Kind, c: Tls, calls: seq<Call>, i: nat, j: nat)
    requires Lawful(c) && SealsAt(kind, c, calls, i) && SealsAt(kind, c, calls, j)
    ensures SameProtection(SealedUnder(kind, c, calls, i), SealedUnder(kind, c, calls, j)) <==>
            && BaseOf(kind, c, calls[..i]) == BaseOf(kind, c, calls[..j])
            && CountOf(kind, c, calls[..i]) % TWO_TO_THE_64 == CountOf(kind, c, calls[..j]) % TWO_TO_THE_64
  {
    hide Uses, After, RecordNonce, BaseOf, CountOf;
    NumberIsTheCount(kind, c, calls[..i]);
    NumberIsTheCount(kind, c, calls[..j]);
    var a, b := SealedUnder(kind, c, calls, i), SealedUnder(kind, c, calls, j);
    assert BaseOf(kind, c, calls[..i]) == Some(a.(seqno := 0)) && BaseOf(kind, c, calls[..j]) == Some(b.(seqno := 0));
    if a.seqno != b.seqno && a.iv == b.iv { NoncesAreDistinct(a.iv, a.seqno, b.seqno); }
  }

  /** While no call sets the channel up afresh, its base stays and its count only grows. */
  lemma {:induction false} CountGrows(kind: Kind, c: Tls, calls: seq<Call>, i: nat, j: nat)
    requires Lawful(c) && i <= j <= |calls|
    requires forall k | i <= k < j :: !Resets(kind, c, Before(c, calls, k), calls[k])
    ensures BaseOf(kind, c, calls[..j]) == BaseOf(kind, c, calls[..i])
    ensures CountOf(kind, c, calls[..j])
         >= CountOf(kind, c, calls[..i]) + if i < j && SealsAt(kind, c, calls, i) then 1 else 0
    decreases j - i
  {
    hide Resets, Uses, After;
    if i < j {
      CountGrows(kind, c, calls, i, j - 1);
      assert calls[..j][..j - 1] == calls[..j - 1] && calls[..j][j - 1] == calls[j - 1];
    }
  }

  /** Under one set-up of the channel, no two of fewer than 2^64 records share a nonce. */
  lemma NoRepeatUnderOneSetUp(kind: Kind, c: Tls, calls: seq<Call>, i: nat, j: nat)
    requires Lawful(c) && i < j && SealsAt(kind, c, calls, i) && SealsAt(kind, c, calls, j)
    requires forall k | i < k < j :: !Resets(kind, c, Before(c, calls, k), calls[k])
    requires CountOf(kind, c, calls[..j]) - CountOf(kind, c, calls[..i]) < TWO_TO_THE_64
    ensures SealedUnder(kind, c, calls, i).key == SealedUnder(kind, c, calls, j).key
    ensures !SameProtection(SealedUnder(kind, c, calls, i), SealedUnder(kind, c, calls, j))
  {
    hide After, RecordNonce, BaseOf, CountOf, SameProtection;
    assert !Resets(kind, c, Before(c, calls, i), calls[i]);
    CountGrows(kind, c, calls, i, j);
    NonceRepeatsExactlyIf(kind, c, calls, i, j);
    NumberIsTheCount(kind, c, calls[..i]);
    NumberIsTheCount(kind, c, calls[..j]);
    DifferentCounts(CountOf(kind, c, calls[..i]), CountOf(kind, c, calls[..j]));
  }

  lemma DifferentCounts(a: nat, b: nat)
    requires a < b < a + TWO_TO_THE_64
    ensures a % TWO_TO_THE_64 != b % TWO_TO_THE_64
  {
  }

  // ---- it does repeat when the handshake is replayed ----

  /** What a flight is read against. */
  predicate SameForFlight(a: Client, b: Client) {
    && a.suite == b.suite && a.transcript == b.transcript && a.shts == b.shts && a.master == b.master
    && a.hsRead == b.hsRead
  }

  lemma SameHelloSameFlightState(c: Tls, a: Client, b: Client, wire: bytes, shared: bytes)
    requires Lawful(c) && Typed(a) && Typed(b) && a.hello == b.hello
    requires HelloParsed(wire).Ok? && a.hello.Some? && |a.hello.value| >= 5
    ensures SameForFlight(Did(c, Did(c, a, Hello(wire)), Derive(shared)),
                          Did(c, Did(c, b, Hello(wire)), Derive(shared)))
  {
    hide HelloParsed, DeriveSecret, Extract, ChannelFrom, SuiteHash, HashLen, WithFlight, WithClientFinished,
         WithSealed, WithOpened;
  }

  lemma SameFlight(c: Tls, a: Client, b: Client, records: bytes)
    requires Lawful(c) && Typed(a) && Typed(b) && SameForFlight(a, b)
    ensures WithFlight(c, a, records).1 == WithFlight(c, b, records).1
    ensures WithFlight(c, a, records).1.Ok? ==>
              && WithFlight(c, a, records).0.appWrite == WithFlight(c, b, records).0.appWrite
              && WithFlight(c, a, records).0.appRead == WithFlight(c, b, records).0.appRead
  {
    hide Processed, ChannelFrom;
  }

  /** ServerHello, shared secret and flight, given again. */
  function Replay(wire: bytes, shared: bytes, records: bytes): seq<Call> {
    [Hello(wire)] + [Derive(shared)] + [TakeFlight(records)]
  }

  /**
    * Distinctness ends with an accepted flight: a client that is given the same ServerHello, shared secret and flight
    * again, after whatever calls but a new ClientHello, is back on the very same application channels at number zero,
    * so what it seals next goes out under the key and nonce of what it sealed first.
    */
  lemma ReplayingTheFlightRepeatsTheChannels(c: Tls, calls: seq<Call>, between: seq<Call>, wire: bytes, shared: bytes,
                                             records: bytes,
                                             d1: bytes, d2: bytes)
    requires Lawful(c) && HelloParsed(wire).Ok? && After(c, calls).hello.Some? && |After(c, calls).hello.value| >= 5
    requires forall k | 0 <= k < |between| :: !between[k].SetHello?
    requires WithFlight(c, After(c, calls + [Hello(wire)] + [Derive(shared)]), records).1.Ok?
    ensures var once := After(c, calls + Replay(wire, shared, records));
            var again := After(c, calls + Replay(wire, shared, records) + between + Replay(wire, shared, records));
            && once.appWrite.Some? && again.appWrite == once.appWrite && again.appRead == once.appRead
            && once.appWrite.value.seqno == 0
            && WithSealed(c, once, d1).1 == Ok(AppSealed(c, once.appWrite.value, d1))
            && WithSealed(c, again, d2).1 == Ok(AppSealed(c, once.appWrite.value, d2))
  {
    hide After, Did, HelloParsed, WithFlight, AppSealed;
    var first := calls + Replay(wire, shared, records);
    AfterReplay(c, calls, wire, shared, records);
    AfterReplay(c, first + between, wire, shared, records);
    HelloStays(c, calls, Replay(wire, shared, records) + between);
    assert calls + (Replay(wire, shared, records) + between) == first + between;
    SameHelloSameFlightState(c, After(c, calls), After(c, first + between), wire, shared);
    var a := Did(c, Did(c, After(c, calls), Hello(wire)), Derive(shared));
    var b := Did(c, Did(c, After(c, first + between), Hello(wire)), Derive(shared));
    SameFlight(c, a, b, records);
    AcceptedFlightAtZero(c, a, records);
  }

  lemma AfterReplay(c: Tls, calls: seq<Call>, wire: bytes, shared: bytes, records: bytes)
    requires Lawful(c)
    ensures var ready := Did(c, Did(c, After(c, calls), Hello(wire)), Derive(shared));
            && After(c, calls + [Hello(wire)] + [Derive(shared)]) == ready
            && After(c, calls + Replay(wire, shared, records)) == WithFlight(c, ready, records).0
  {
    hide After, HelloParsed, WithServerHello, WithHandshakeKeys, WithFlight;
    AfterSnoc(c, calls, Hello(wire));
    AfterSnoc(c, calls + [Hello(wire)], Derive(shared));
    AfterSnoc(c, calls + [Hello(wire)] + [Derive(shared)], TakeFlight(records));
    assert calls + Replay(wire, shared, records) == calls + [Hello(wire)] + [Derive(shared)] + [TakeFlight(records)];
  }

  lemma AcceptedFlightAtZero(c: Tls, cl: Client, records: bytes)
    requires Lawful(c) && Typed(cl) && WithFlight(c, cl, records).1.Ok?
    ensures WithFlight(c, cl, records).0.appWrite.Some? && WithFlight(c, cl, records).0.appWrite.value.seqno == 0
  {
    hide Processed;
  }

  // ---- the transcript ----

  /** A ServerHello the client takes. */
  predicate TakesHello(cl: Client, call: Call) {
    call.Hello? && HelloParsed(call.wire).Ok? && cl.hello.Some? && |cl.hello.value| >= 5
  }

  /**
    * What the transcript then begins with: the stored ClientHello without its record header, and the ServerHello's
    * body.
    */
  function HelloBytes(cl: Client, call: Call): bytes
    requires TakesHello(cl, call)
  {
    cl.hello.value[5..] + HelloParsed(call.wire).value.body
  }

  /** Whatever becomes of a flight, its transcript grows by the whole messages consumed. */
  lemma {:induction false} FlightAppends(c: Tls, h: HashAlg, shts: Option<bytes>, ch: Option<Channel>, rest: bytes,
                                         pending: bytes, s: Scan)
    returns (msgs: seq<bytes>)
    requires Lawful(c) && Keyed(ch)
    ensures Messages(msgs)
    ensures Flight(c, h, shts, ch, rest, pending, s).scan.transcript == s.transcript + Flatten(msgs)
    decreases |rest|, |pending|
  {
    hide Absorb, U16, U24, HsOpened;
    msgs := [];
    assert s.transcript + [] == s.transcript;
    if HasMessage(pending) {
      var n := MessageLen(pending);
      var m := pending[..n];
      assert IsMessage(m);
      var o := Absorb(c, h, shts, s, m);
      OneMessage(m);
      msgs := [m];
      if o.verdict == Ok(false) {
        var more := FlightAppends(c, h, shts, ch, rest, pending[n..], o.scan);
        msgs := [m] + more;
        assert msgs[1..] == more;
        assert s.transcript + m + Flatten(more) == s.transcript + (m + Flatten(more));
      }
    } else if |rest| >= 5 && |rest| >= 5 + U16(rest[3], rest[4]) as int {
      var n := 5 + U16(rest[3], rest[4]) as int;
      if rest[0] == CHANGE_CIPHER_SPEC {
        msgs := FlightAppends(c, h, shts, ch, rest[n..], pending, s);
      } else {
        var (ch1, plain) := HsOpened(c, ch, rest[..n]);
        if plain.Ok? && plain.value.0 == CONTENT_HANDSHAKE {
          msgs := FlightAppends(c, h, shts, ch1, rest[n..], pending + plain.value.1, s);
        }
      }
    }
  }

  lemma OneMessage(m: bytes)
    ensures Flatten([m]) == m
  {
    var tail: seq<bytes> := [m][1..];
    assert tail == [] && m + [] == m;
  }

  lemma FinishedIsMessage(c: Tls, h: HashAlg, chts: bytes, transcript: bytes)
    requires Lawful(c)
    ensures IsMessage(FinishedMessage(c, h, chts, transcript))
  {
    hide FinishedKey;
  }

  /** Any call but an accepted ServerHello leaves a transcript or appends whole messages to it, and never starts one. */
  lemma CallAppends(c: Tls, cl: Client, call: Call) returns (msgs: seq<bytes>)
    requires Lawful(c) && Typed(cl) && !TakesHello(cl, call)
    ensures Messages(msgs)
    ensures Did(c, cl, call).transcript ==
            if cl.transcript.None? then None else Some(cl.transcript.value + Flatten(msgs))
  {
    hide HelloParsed, DeriveSecret, Extract, Flight, Concluded, Sealed, Opened, FinishedMessage, ChannelFrom;
    msgs := [];
    if cl.transcript.Some? {
      var t := cl.transcript.value;
      assert t + [] == t;
      if call.TakeFlight? && cl.suite.Some? {
        msgs := FlightAppends(c, SuiteHash(cl.suite.value), cl.shts, cl.hsRead, call.records, [], Scan(t, [], None));
      } else if call.Finish? && cl.suite.Some? && cl.chts.Some? {
        var m := FinishedMessage(c, SuiteHash(cl.suite.value), cl.chts.value, t);
        FinishedIsMessage(c, SuiteHash(cl.suite.value), cl.chts.value, t);
        msgs := [m];
        OneMessage(m);
      }
    }
  }

  /**
    * The transcript is a stored ClientHello without its record header, the body of the ServerHello of call `i`, the
    * last taken, and whole messages.
    */
  ghost predicate TranscriptFrom(c: Tls, calls: seq<Call>, transcript: bytes, i: nat, msgs: seq<bytes>)
    requires Lawful(c)
  {
    && i < |calls| && TakesHello(Before(c, calls, i), calls[i]) && Messages(msgs)
    && transcript == HelloBytes(Before(c, calls, i), calls[i]) + Flatten(msgs)
    && forall k | i < k < |calls| :: !TakesHello(Before(c, calls, k), calls[k])
  }

  /**
    * Over every call sequence, failing flights included, a set transcript is a stored ClientHello, the body of the
    * ServerHello taken last, and the whole messages consumed since, the client's Finished among them.
    */
  lemma {:induction false} TranscriptIsMessages(c: Tls, calls: seq<Call>) returns (i: nat, msgs: seq<bytes>)
    requires Lawful(c)
    ensures After(c, calls).transcript.Some? ==> TranscriptFrom(c, calls, After(c, calls).transcript.value, i, msgs)
    decreases |calls|
  {
    hide Did, HelloParsed, TakesHello, HelloBytes;
    i, msgs := 0, [];
    if calls != [] {
      var init, last := calls[..|calls| - 1], calls[|calls| - 1];
      if TakesHello(After(c, init), last) {
        i := |calls| - 1;
        TakenHello(c, After(c, init), last);
        assert Before(c, calls, i) == After(c, init) && Messages(msgs);
      } else {
        i, msgs := TranscriptIsMessages(c, init);
        var more := CallAppends(c, After(c, init), last);
        if After(c, init).transcript.Some? {
          LaterMessages(c, init, last, After(c, init).transcript.value, i, msgs, more);
          msgs := msgs + more;
          assert init + [last] == calls;
        }
      }
    }
  }

  lemma TakenHello(c: Tls, cl: Client, call: Call)
    requires Lawful(c) && Typed(cl) && TakesHello(cl, call)
    ensures Did(c, cl, call).transcript == Some(HelloBytes(cl, call) + Flatten([]))
  {
    hide HelloParsed;
    assert HelloBytes(cl, call) + [] == HelloBytes(cl, call);
  }

  lemma LaterMessages(c: Tls, init: seq<Call>, last: Call, transcript: bytes, i: nat, msgs: seq<bytes>,
                      more: seq<bytes>)
    requires Lawful(c) && TranscriptFrom(c, init, transcript, i, msgs) && Messages(more)
    requires !TakesHello(After(c, init), last)
    ensures TranscriptFrom(c, init + [last], transcript + Flatten(more), i, msgs + more)
  {
    hide TakesHello, After, HelloBytes, IsMessage, Messages, Lawful, Flatten;
    var calls := init + [last];
    assert calls[..i] == init[..i] && calls[i] == init[i];
    forall k | i < k < |calls|
      ensures !TakesHello(Before(c, calls, k), calls[k])
    {
      if k < |init| {
        assert calls[..k] == init[..k] && calls[k] == init[k];
      } else {
        assert calls[..k] == init && calls[k] == last;
      }
    }
    FlattenConcat(msgs, more);
    var front := HelloBytes(Before(c, init, i), init[i]);
    assert front + Flatten(msgs) + Flatten(more) == front + (Flatten(msgs) + Flatten(more));
    MessagesConcat(msgs, more);
  }

  lemma MessagesConcat(a: seq<bytes>, b: seq<bytes>)
    requires Messages(a) && Messages(b)
    ensures Messages(a + b)
  {
    hide IsMessage;
    forall k | 0 <= k < |a + b|
      ensures IsMessage((a + b)[k])
    {
      assert (a + b)[k] == if k < |a| then a[k] else b[k - |a|];
    }
  }
}
