/** The Vision padding stream: the frame grammar, the byte-at-a-time reader and the framing writer. */
module Vision {
  import opened Bytes
  import opened RequestHeader

  const MAX_FRAME_BODY := 2027
  const PADDING_CONTINUE: byte := 0
  const PADDING_END: byte := 1
  const PADDING_DIRECT: byte := 2

  // ---- the frame grammar ----

  datatype Frame = Frame(command: byte, content: bytes, padding: bytes)

  function FrameHead(command: byte, contentLen: nat, paddingLen: nat): (h: bytes)
    ensures |h| == 5 && h[0] == command
    ensures U16(h[1], h[2]) == contentLen % 0x1_0000 && U16(h[3], h[4]) == paddingLen % 0x1_0000
  {
    [command] + PutU16(contentLen) + PutU16(paddingLen)
  }

  function FrameBytes(f: Frame): (r: bytes)
    ensures |r| == 5 + |f.content| + |f.padding|
  {
    FrameHead(f.command, |f.content|, |f.padding|) + f.content + f.padding
  }

  function FramesBytes(fs: seq<Frame>): bytes {
    if fs == [] then [] else FrameBytes(fs[0]) + FramesBytes(fs[1..])
  }

  function Contents(fs: seq<Frame>): bytes {
    if fs == [] then [] else fs[0].content + Contents(fs[1..])
  }

  /** A frame the reader accepts: each length within the body bound. */
  predicate Legal(f: Frame) {
    |f.content| <= MAX_FRAME_BODY && |f.padding| <= MAX_FRAME_BODY
  }

  predicate AllContinue(fs: seq<Frame>) {
    forall i | 0 <= i < |fs| :: Legal(fs[i]) && fs[i].command == PADDING_CONTINUE
  }

  /** A padding phase that ends: continue frames, then one END or DIRECT frame. */
  predicate Ending(fs: seq<Frame>) {
    && fs != []
    && AllContinue(fs[..|fs| - 1])
    && Legal(fs[|fs| - 1])
    && (fs[|fs| - 1].command == PADDING_END || fs[|fs| - 1].command == PADDING_DIRECT)
  }

  /** What a byte string at a frame boundary means, one whole frame at a time. */
  datatype Meaning = Meaning(out: bytes, err: Option<VlessError>, direct: bool)

  function Prefixed(content: bytes, m: Meaning): Meaning { m.(out := content + m.out) }

  function Meant(w: bytes): Meaning {
    if |w| < 5 then Meaning([], None, false)
    else
      var c, p := U16(w[1], w[2]), U16(w[3], w[4]);
      if c > MAX_FRAME_BODY || p > MAX_FRAME_BODY then Meaning([], Some(BadFrame), false)
      else if |w| < 5 + c + p then Meaning(w[5..Min(5 + c, |w|)], None, false)
      else
        var rest := w[5 + c + p..];
        Prefixed(w[5..5 + c],
                 if w[0] == PADDING_CONTINUE then Meant(rest)
                 else if w[0] == PADDING_END || w[0] == PADDING_DIRECT then Meaning(rest, None, true)
                 else Meaning([], Some(BadFrame), false))
  }

  // ---- the reader as a state machine ----

  datatype Phase = Initial | Header | Content(remaining: nat) | Padding(remaining: nat) | Direct

  datatype Reader = Reader(phase: Phase, command: byte, uuid: bytes, header: bytes, fill: nat, within: bool,
                           first: bool)

  datatype Fed = Fed(reader: Reader, out: bytes, err: Option<VlessError>)

  function NewReader(uuid: bytes): Reader {
    Reader(Initial, 0, uuid, Zeros(5), 0, false, true)
  }

  function ContentLen(r: Reader): u16
    requires |r.header| == 5
  {
    U16(r.header[1], r.header[2])
  }

  function PaddingLen(r: Reader): u16
    requires |r.header| == 5
  {
    U16(r.header[3], r.header[4])
  }

  /** What holds between calls in every reachable state, errors included. */
  predicate Sound(r: Reader) {
    && |r.uuid| == 16 && |r.header| == 5 && r.fill < 5
    && (r.phase.Content? || r.phase.Padding? ==>
          && 1 <= r.phase.remaining <= MAX_FRAME_BODY
          && PaddingLen(r) <= MAX_FRAME_BODY)
    && (r.within <==> r.phase.Header? || r.phase.Content? || r.phase.Padding?)
    && (r.first ==> r.phase.Initial?)
    && (!r.phase.Header? ==> r.fill == 0)
  }

  predicate Locked(r: Reader) { Sound(r) && !r.phase.Initial? }

  function FrameDone(r: Reader, out: bytes): (f: Fed)
    requires Locked(r) && !r.phase.Direct? && (r.phase.Header? ==> r.fill == 0)
    ensures Locked(f.reader)
  {
    if r.command == PADDING_CONTINUE then Fed(r.(phase := Header), out, None)
    else if r.command == PADDING_END || r.command == PADDING_DIRECT then
      Fed(r.(phase := Direct, within := false), out, None)
    else Fed(r, out, Some(BadFrame))
  }

  /** One byte of the reader's loop. */
  function Step(r: Reader, b: byte): (f: Fed)
    requires Locked(r)
    ensures Locked(f.reader) && f.reader.uuid == r.uuid && |f.out| <= 1
    ensures r.phase.Direct? ==> f == Fed(r, [b], None)
  {
    match r.phase
    case Direct => Fed(r, [b], None)
    case Header =>
      var r1 := r.(header := r.header[r.fill := b], fill := r.fill + 1);
      if r1.fill < 5 then Fed(r1, [], None)
      else
        var r2 := r1.(command := r1.header[0], fill := 0);
        if ContentLen(r2) > MAX_FRAME_BODY || PaddingLen(r2) > MAX_FRAME_BODY then Fed(r2, [], Some(BadFrame))
        else if ContentLen(r2) > 0 then Fed(r2.(phase := Content(ContentLen(r2))), [], None)
        else if PaddingLen(r2) > 0 then Fed(r2.(phase := Padding(PaddingLen(r2))), [], None)
        else FrameDone(r2, [])
    case Content(remaining) =>
      if remaining > 1 then Fed(r.(phase := Content(remaining - 1)), [b], None)
      else if PaddingLen(r) > 0 then Fed(r.(phase := Padding(PaddingLen(r))), [b], None)
      else FrameDone(r, [b])
    case Padding(remaining) =>
      if remaining > 1 then Fed(r.(phase := Padding(remaining - 1)), [], None)
      else FrameDone(r, [])
  }

  /** The reader's loop over a buffer; it stops at the first error. */
  function Feed(r: Reader, w: bytes): (f: Fed)
    requires Locked(r)
    ensures Locked(f.reader) && f.reader.uuid == r.uuid && |f.out| <= |w|
    decreases |w|
  {
    if w == [] then Fed(r, [], None)
    else
      var s := Step(r, w[0]);
      if s.err.Some? then s
      else
        var t := Feed(s.reader, w[1..]);
        Fed(t.reader, s.out + t.out, t.err)
  }

  function Emitted(f: Fed): Result<bytes, VlessError> {
    if f.err.Some? then Err(f.err.value) else Ok(f.out)
  }

  /** One `unpad` call: the stream-start decision, then the loop. */
  function Unpadded(r: Reader, wire: bytes): (s: (Reader, Result<bytes, VlessError>))
    requires Sound(r)
    ensures Sound(s.0) && s.0.uuid == r.uuid && !s.0.first
    ensures s.1.Ok? ==> |s.1.value| <= |wire|
  {
    if r.phase.Initial? then
      if |wire| >= 21 && wire[..16] == r.uuid then
        var f := Feed(r.(phase := Header, within := true, first := false), wire[16..]);
        (f.reader, Emitted(f))
      else if r.first && |wire| >= 21 then (r.(first := false), Err(UuidMismatch))
      else (r.(first := false), Ok(wire))
    else
      var f := Feed(r, wire);
      (f.reader, Emitted(f))
  }

  // ---- chunking independence ----

  function Then(f: Fed, w: bytes): Fed
    requires Locked(f.reader)
  {
    if f.err.Some? then f
    else
      var g := Feed(f.reader, w);
      Fed(g.reader, f.out + g.out, g.err)
  }

  /** Feeding a buffer in two parts is feeding it whole. */
  lemma {:induction false} FeedConcat(r: Reader, a: bytes, b: bytes)
    requires Locked(r)
    ensures Feed(r, a + b) == Then(Feed(r, a), b)
    decreases |a|
  {
    if a == [] {
      assert a + b == b;
    } else {
      assert (a + b)[1..] == a[1..] + b;
      var s := Step(r, a[0]);
      if s.err.None? {
        FeedConcat(s.reader, a[1..], b);
        var t := Feed(s.reader, a[1..]);
        if t.err.None? { assert s.out + (t.out + Feed(t.reader, b).out) == (s.out + t.out) + Feed(t.reader, b).out; }
      }
    }
  }

  /** A run of `unpad` calls, stopped at the first failing one. */
  function UnpaddedAll(r: Reader, chunks: seq<bytes>): (s: (Reader, Result<bytes, VlessError>))
    requires Sound(r)
    ensures Sound(s.0)
    decreases |chunks|
  {
    if chunks == [] then (r, Ok([]))
    else
      var (r1, out) := Unpadded(r, chunks[0]);
      if out.Err? then (r1, out)
      else
        var (r2, rest) := UnpaddedAll(r1, chunks[1..]);
        (r2, if rest.Err? then rest else Ok(out.value + rest.value))
  }

  /**
    * Once the reader has locked on, every way of cutting the input into calls gives the same
    * concatenated output (or the same error) and the same final state as a single call.
    */
  lemma {:induction false} ChunkingIndependence(r: Reader, chunks: seq<bytes>)
    requires Locked(r)
    ensures UnpaddedAll(r, chunks) == Unpadded(r, Flatten(chunks))
    decreases |chunks|
  {
    if chunks != [] {
      FeedConcat(r, chunks[0], Flatten(chunks[1..]));
      var f := Feed(r, chunks[0]);
      if f.err.None? { ChunkingIndependence(f.reader, chunks[1..]); }
    }
  }

  lemma {:induction false} DirectIsAbsorbing(r: Reader, w: bytes)
    requires Locked(r) && r.phase.Direct?
    ensures Feed(r, w) == Fed(r, w, None)
    decreases |w|
  {
    if w != [] {
      DirectIsAbsorbing(r, w[1..]);
      assert [w[0]] + w[1..] == w;
    }
  }

  /** Past the stream start the only error is a bad frame. */
  lemma {:induction false} FeedNeverMismatches(r: Reader, w: bytes)
    requires Locked(r)
    ensures Feed(r, w).err.Some? ==> Feed(r, w).err.value == BadFrame
    decreases |w|
  {
    if w != [] && Step(r, w[0]).err.None? { FeedNeverMismatches(Step(r, w[0]).reader, w[1..]); }
  }

  // ---- the machine agrees with the grammar ----

  predicate AtBoundary(r: Reader) { Locked(r) && r.phase.Header? && r.fill == 0 }

  lemma {:induction false} FeedPartialHeader(r: Reader, w: bytes)
    requires Locked(r) && r.phase.Header? && r.fill + |w| < 5
    ensures Feed(r, w) == Fed(Feed(r, w).reader, [], None)
    ensures var q := Feed(r, w).reader;
            && q == r.(header := q.header, fill := r.fill + |w|)
            && q.header[..q.fill] == r.header[..r.fill] + w
    decreases |w|
  {
    if w != [] {
      var s := Step(r, w[0]).reader;
      FeedPartialHeader(s, w[1..]);
      assert s.header[..s.fill] == r.header[..r.fill] + [w[0]];
      assert r.header[..r.fill] + [w[0]] + w[1..] == r.header[..r.fill] + w;
    } else {
      assert r.header[..r.fill] + w == r.header[..r.fill];
    }
  }

  /** The five header bytes, read at a boundary. */
  lemma FeedHeader(r: Reader, h: bytes)
    requires AtBoundary(r) && |h| == 5
    ensures Feed(r, h) ==
            var r2 := r.(header := h, command := h[0]);
            if U16(h[1], h[2]) > MAX_FRAME_BODY || U16(h[3], h[4]) > MAX_FRAME_BODY then Fed(r2, [], Some(BadFrame))
            else if U16(h[1], h[2]) > 0 then Fed(r2.(phase := Content(U16(h[1], h[2]))), [], None)
            else if U16(h[3], h[4]) > 0 then Fed(r2.(phase := Padding(U16(h[3], h[4]))), [], None)
            else FrameDone(r2, [])
  {
    FeedPartialHeader(r, h[..4]);
    FeedConcat(r, h[..4], h[4..]);
    assert h[..4] + h[4..] == h;
    var q := Feed(r, h[..4]).reader;
    assert q.header[..4] == h[..4];
    assert q.header[4 := h[4]] == h by {
      forall j | 0 <= j < 4
        ensures q.header[j] == h[j]
      {
        assert q.header[..4][j] == h[..4][j];
      }
    }
    assert h[4..][1..] == [];
    assert Feed(q, h[4..]) == Step(q, h[4]) by {
      var s := Step(q, h[4]);
      assert s.out + [] == s.out;
    }
  }

  lemma {:induction false} FeedContent(r: Reader, w: bytes)
    requires Locked(r) && r.phase.Content? && |w| <= r.phase.remaining
    ensures Feed(r, w) ==
            if |w| < r.phase.remaining then Fed(r.(phase := Content(r.phase.remaining - |w|)), w, None)
            else if PaddingLen(r) > 0 then Fed(r.(phase := Padding(PaddingLen(r))), w, None)
            else FrameDone(r.(phase := Content(1)), w)
    decreases |w|
  {
    if w != [] {
      assert [w[0]] + w[1..] == w;
      if r.phase.remaining > 1 {
        FeedContent(Step(r, w[0]).reader, w[1..]);
      } else {
        assert w[1..] == [] && [w[0]] == w;
      }
    }
  }

  lemma {:induction false} FeedPadding(r: Reader, w: bytes)
    requires Locked(r) && r.phase.Padding? && |w| <= r.phase.remaining
    ensures Feed(r, w) ==
            if |w| < r.phase.remaining then Fed(r.(phase := Padding(r.phase.remaining - |w|)), [], None)
            else FrameDone(r.(phase := Padding(1)), [])
    decreases |w|
  {
    if w != [] {
      if r.phase.remaining > 1 {
        FeedPadding(Step(r, w[0]).reader, w[1..]);
      } else {
        assert w[1..] == [];
      }
    }
  }

  /** Where a whole frame leaves a boundary reader. */
  predicate FrameOutcome(r: Reader, command: byte, content: bytes, f: Fed) {
    && Locked(f.reader) && f.out == content
    && (if command == PADDING_CONTINUE then f.err.None? && AtBoundary(f.reader)
        else if command == PADDING_END || command == PADDING_DIRECT then f.err.None? && f.reader.phase.Direct?
        else f.err == Some(BadFrame) && !f.reader.phase.Direct?)
  }

  /** Content and padding of a frame whose header has just been read. */
  lemma FeedBody(r: Reader, command: byte, content: bytes, padding: bytes)
    requires Locked(r) && r.command == command
    requires PaddingLen(r) == |padding|
    requires r.phase == if content != [] then Content(|content|) else Padding(|padding|)
    requires |content| + |padding| > 0
    ensures FrameOutcome(r, command, content, Feed(r, content + padding))
  {
    hide Step, Feed, U16;
    if content == [] {
      FeedPadding(r, padding);
      assert content + padding == padding;
    } else {
      FeedContent(r, content);
      if padding == [] {
        assert content + padding == content;
      } else {
        var f := Feed(r, content);
        FeedConcat(r, content, padding);
        FeedPadding(f.reader, padding);
        assert content + [] == content;
      }
    }
  }

  lemma FeedParts(r: Reader, h: bytes, content: bytes, padding: bytes)
    requires AtBoundary(r) && |h| == 5
    requires U16(h[1], h[2]) == |content| <= MAX_FRAME_BODY && U16(h[3], h[4]) == |padding| <= MAX_FRAME_BODY
    ensures FrameOutcome(r, h[0], content, Feed(r, h + (content + padding)))
  {
    hide Step, Feed, U16;
    FeedHeader(r, h);
    FeedConcat(r, h, content + padding);
    if |content| + |padding| > 0 {
      FeedBody(Feed(r, h).reader, h[0], content, padding);
      assert [] + content == content;
    } else {
      assert content + padding == [] && h + [] == h;
    }
  }

  /** The reader stands on the last byte of a frame whose command it does not know, and no byte moves it. */
  predicate Stuck(r: Reader) {
    && Locked(r) && r.command > PADDING_DIRECT
    && ((r.phase == Content(1) && PaddingLen(r) == 0) || r.phase == Padding(1))
  }

  lemma StuckStays(r: Reader, w: bytes)
    requires Stuck(r) && w != []
    ensures Feed(r, w).reader == r && Feed(r, w).err == Some(BadFrame)
  {
  }

  /** A whole frame with a body and an unknown command leaves the reader stuck. */
  lemma UnknownCommandSticks(r: Reader, h: bytes, content: bytes, padding: bytes)
    requires AtBoundary(r) && |h| == 5 && h[0] > PADDING_DIRECT && |content| + |padding| > 0
    requires U16(h[1], h[2]) == |content| <= MAX_FRAME_BODY && U16(h[3], h[4]) == |padding| <= MAX_FRAME_BODY
    ensures Stuck(Feed(r, h + (content + padding)).reader) && Feed(r, h + (content + padding)).err == Some(BadFrame)
  {
    hide Step, Feed, U16;
    FeedHeader(r, h);
    FeedConcat(r, h, content + padding);
    var q := Feed(r, h).reader;
    if content == [] {
      FeedPadding(q, padding);
      assert content + padding == padding;
    } else {
      FeedContent(q, content);
      if padding == [] {
        assert content + padding == content;
      } else {
        FeedConcat(q, content, padding);
        FeedPadding(Feed(q, content).reader, padding);
      }
    }
  }

  lemma FeedFrame(r: Reader, w: bytes)
    requires AtBoundary(r) && |w| >= 5
    requires var c, p := U16(w[1], w[2]), U16(w[3], w[4]);
             c <= MAX_FRAME_BODY && p <= MAX_FRAME_BODY && |w| == 5 + c + p
    ensures FrameOutcome(r, w[0], w[5..5 + U16(w[1], w[2])], Feed(r, w))
  {
    hide Step, Feed, U16;
    var c, p := U16(w[1], w[2]), U16(w[3], w[4]);
    var h, content, padding := w[..5], w[5..5 + c], w[5 + c..];
    FeedParts(r, h, content, padding);
    assert w == h + (content + padding);
  }

  lemma FeedCutFrame(r: Reader, w: bytes)
    requires AtBoundary(r) && |w| >= 5
    requires var c, p := U16(w[1], w[2]), U16(w[3], w[4]); c <= MAX_FRAME_BODY && p <= MAX_FRAME_BODY && |w| < 5 + c + p
    ensures var f := Feed(r, w);
            f.err.None? && !f.reader.phase.Direct? && f.out == w[5..Min(5 + U16(w[1], w[2]), |w|)]
  {
    hide Step, Feed, U16;
    var c, p := U16(w[1], w[2]), U16(w[3], w[4]);
    var h, body := w[..5], w[5..];
    assert w == h + body;
    FeedHeader(r, h);
    FeedConcat(r, h, body);
    var q := Feed(r, h).reader;
    if c == 0 {
      FeedPadding(q, body);
    } else if |body| < c {
      FeedContent(q, body);
      assert w[5..|w|] == body;
    } else {
      var content, padding := body[..c], body[c..];
      assert body == content + padding && content == w[5..5 + c];
      FeedContent(q, content);
      FeedConcat(q, content, padding);
      FeedPadding(Feed(q, content).reader, padding);
    }
  }

  predicate Agrees(f: Fed, m: Meaning) {
    f.out == m.out && f.err == m.err && (f.reader.phase.Direct? <==> m.direct)
  }

  /** What follows a whole frame, by its command. */
  lemma FeedPastFrame(r: Reader, frame: bytes, rest: bytes, command: byte, content: bytes, later: Meaning)
    requires AtBoundary(r) && FrameOutcome(r, command, content, Feed(r, frame))
    requires command == PADDING_CONTINUE ==> Agrees(Feed(Feed(r, frame).reader, rest), later)
    requires command == PADDING_END || command == PADDING_DIRECT ==> later == Meaning(rest, None, true)
    requires command > PADDING_DIRECT ==> later == Meaning([], Some(BadFrame), false)
    ensures Agrees(Feed(r, frame + rest), Prefixed(content, later))
  {
    hide Step, Feed, U16;
    FeedConcat(r, frame, rest);
    if command == PADDING_END || command == PADDING_DIRECT {
      DirectIsAbsorbing(Feed(r, frame).reader, rest);
    } else if command != PADDING_CONTINUE {
      assert content + [] == content;
    }
  }

  /** From a frame boundary the byte-at-a-time machine computes the frame-at-a-time meaning of every input. */
  lemma {:induction false} ReaderRefinesGrammar(r: Reader, w: bytes)
    requires AtBoundary(r)
    ensures Agrees(Feed(r, w), Meant(w))
    decreases |w|
  {
    hide Step, Feed, U16, Agrees, Prefixed;
    if |w| < 5 {
      FeedPartialHeader(r, w);
      assert Agrees(Feed(r, w), Meaning([], None, false)) by { AgreesWith(Feed(r, w), [], None, false); }
    } else {
      var c, p := U16(w[1], w[2]), U16(w[3], w[4]);
      if c > MAX_FRAME_BODY || p > MAX_FRAME_BODY {
        assert w == w[..5] + w[5..];
        FeedHeader(r, w[..5]);
        FeedConcat(r, w[..5], w[5..]);
        AgreesWith(Feed(r, w), [], Some(BadFrame), false);
      } else if |w| < 5 + c + p {
        FeedCutFrame(r, w);
        AgreesWith(Feed(r, w), w[5..Min(5 + c, |w|)], None, false);
      } else {
        var frame, rest := w[..5 + c + p], w[5 + c + p..];
        assert w == frame + rest && frame[5..5 + c] == w[5..5 + c];
        FeedFrame(r, frame);
        if w[0] == PADDING_CONTINUE { ReaderRefinesGrammar(Feed(r, frame).reader, rest); }
        FeedPastFrame(r, frame, rest, w[0], w[5..5 + c],
                      if w[0] == PADDING_CONTINUE then Meant(rest)
                      else if w[0] == PADDING_END || w[0] == PADDING_DIRECT then Meaning(rest, None, true)
                      else Meaning([], Some(BadFrame), false));
      }
    }
  }

  lemma AgreesWith(f: Fed, out: bytes, err: Option<VlessError>, direct: bool)
    requires f.out == out && f.err == err && (f.reader.phase.Direct? <==> direct)
    ensures Agrees(f, Meaning(out, err, direct))
  {
  }

  lemma FrameBytesAt(f: Frame, rest: bytes)
    requires Legal(f)
    ensures var w := FrameBytes(f) + rest;
            && w[0] == f.command && U16(w[1], w[2]) == |f.content| && U16(w[3], w[4]) == |f.padding|
            && w[5..5 + |f.content|] == f.content && w[5 + |f.content| + |f.padding|..] == rest
  {
    hide FrameHead, U16, PutU16;
    SplitAt(FrameHead(f.command, |f.content|, |f.padding|), f.content, f.padding, rest);
  }

  lemma SplitAt(head: bytes, content: bytes, padding: bytes, rest: bytes)
    requires |head| == 5
    ensures var w := head + content + padding + rest;
            && (forall i | 0 <= i < 5 :: w[i] == head[i])
            && w[5..5 + |content|] == content && w[5 + |content| + |padding|..] == rest
  {
  }

  lemma MeantFrame(f: Frame, rest: bytes)
    requires Legal(f)
    ensures f.command == PADDING_CONTINUE ==> Meant(FrameBytes(f) + rest) == Prefixed(f.content, Meant(rest))
    ensures f.command == PADDING_END || f.command == PADDING_DIRECT ==>
              Meant(FrameBytes(f) + rest) == Meaning(f.content + rest, None, true)
  {
    FrameBytesAt(f, rest);
  }

  lemma {:induction false} MeantContinue(fs: seq<Frame>, rest: bytes)
    requires AllContinue(fs)
    ensures Meant(FramesBytes(fs) + rest) == Prefixed(Contents(fs), Meant(rest))
  {
    if fs == [] {
      assert FramesBytes(fs) + rest == rest && Contents(fs) == [];
      PrefixedNothing(Meant(rest));
    } else {
      var tail := FramesBytes(fs[1..]) + rest;
      FramesBytesCons(fs, rest);
      MeantFrame(fs[0], tail);
      MeantContinue(fs[1..], rest);
      PrefixedTwice(fs[0].content, Contents(fs[1..]), Meant(rest));
    }
  }

  lemma PrefixedNothing(m: Meaning)
    ensures Prefixed([], m) == m
  {
    assert [] + m.out == m.out;
  }

  lemma PrefixedTwice(a: bytes, b: bytes, m: Meaning)
    ensures Prefixed(a, Prefixed(b, m)) == Prefixed(a + b, m)
  {
    assert a + (b + m.out) == a + b + m.out;
  }

  lemma FramesBytesCons(fs: seq<Frame>, rest: bytes)
    requires fs != []
    ensures FramesBytes(fs) + rest == FrameBytes(fs[0]) + (FramesBytes(fs[1..]) + rest)
  {
  }

  lemma {:induction false} FramesSnoc(fs: seq<Frame>, f: Frame)
    ensures FramesBytes(fs + [f]) == FramesBytes(fs) + FrameBytes(f)
    ensures Contents(fs + [f]) == Contents(fs) + f.content
  {
    hide FrameBytes;
    if fs == [] {
      assert fs + [f] == [f] && [f][1..] == [];
      assert FrameBytes(f) + [] == FrameBytes(f) && f.content + [] == f.content;
    } else {
      assert (fs + [f])[0] == fs[0] && (fs + [f])[1..] == fs[1..] + [f];
      FramesSnoc(fs[1..], f);
      assert FrameBytes(fs[0]) + (FramesBytes(fs[1..]) + FrameBytes(f)) == FramesBytes(fs) + FrameBytes(f);
      assert fs[0].content + (Contents(fs[1..]) + f.content) == Contents(fs) + f.content;
    }
  }

  /** Every ending frame list followed by raw bytes means its contents, then the raw bytes. */
  lemma MeantEnding(fs: seq<Frame>, raw: bytes)
    requires Ending(fs)
    ensures Meant(FramesBytes(fs) + raw) == Meaning(Contents(fs) + raw, None, true)
  {
    var init, last := fs[..|fs| - 1], fs[|fs| - 1];
    assert fs == init + [last];
    FramesSnoc(init, last);
    Regroup(FramesBytes(init), FrameBytes(last), raw);
    MeantContinue(init, FrameBytes(last) + raw);
    MeantFrame(last, raw);
    Regroup(Contents(init), last.content, raw);
  }

  lemma Regroup(a: bytes, b: bytes, c: bytes)
    ensures a + b + c == a + (b + c)
  {
  }

  lemma FrameRebuilt(w: bytes) returns (f: Frame)
    requires |w| >= 5
    requires var c, p := U16(w[1], w[2]), U16(w[3], w[4]);
             c <= MAX_FRAME_BODY && p <= MAX_FRAME_BODY && |w| >= 5 + c + p
    ensures Legal(f) && f.command == w[0] && f.content == w[5..5 + U16(w[1], w[2])]
    ensures w == FrameBytes(f) + w[5 + U16(w[1], w[2]) + U16(w[3], w[4])..]
  {
    hide U16, PutU16, FrameHead;
    var c, p := U16(w[1], w[2]), U16(w[3], w[4]);
    f := Frame(w[0], w[5..5 + c], w[5 + c..5 + c + p]);
    HeadRebuilt(w[..5]);
    assert w == w[..5] + f.content + f.padding + w[5 + c + p..];
  }

  lemma HeadRebuilt(h: bytes)
    requires |h| == 5
    ensures FrameHead(h[0], U16(h[1], h[2]), U16(h[3], h[4])) == h
  {
    U16Value(h[1], h[2]);
    U16Value(h[3], h[4]);
    assert PutU16(U16(h[1], h[2])) == [h[1], h[2]] && PutU16(U16(h[3], h[4])) == [h[3], h[4]];
  }

  /** Conversely, an input that leaves the padding phase splits into an ending frame list and raw bytes. */
  lemma {:induction false} DirectMeansEnding(w: bytes) returns (fs: seq<Frame>, raw: bytes)
    requires Meant(w).direct
    ensures Ending(fs) && w == FramesBytes(fs) + raw && Meant(w).out == Contents(fs) + raw
    decreases |w|
  {
    hide U16, FrameBytes, Legal;
    var f := FrameRebuilt(w);
    var rest := w[5 + U16(w[1], w[2]) + U16(w[3], w[4])..];
    if w[0] == PADDING_CONTINUE {
      var gs;
      gs, raw := DirectMeansEnding(rest);
      fs := [f] + gs;
      EndingCons(f, gs, raw);
    } else {
      fs, raw := [f], rest;
      FramesSnoc([], f);
      assert [] + [f] == fs && [] + FrameBytes(f) == FrameBytes(f) && [] + f.content == f.content;
    }
  }

  lemma EndingCons(f: Frame, gs: seq<Frame>, raw: bytes)
    requires Legal(f) && f.command == PADDING_CONTINUE && Ending(gs)
    ensures Ending([f] + gs)
    ensures FramesBytes([f] + gs) + raw == FrameBytes(f) + (FramesBytes(gs) + raw)
    ensures Contents([f] + gs) + raw == f.content + (Contents(gs) + raw)
  {
    hide FrameBytes, Legal, AllContinue, Ending;
    var fs := [f] + gs;
    assert fs[0] == f && fs[1..] == gs;
    Regroup(FrameBytes(f), FramesBytes(gs), raw);
    Regroup(f.content, Contents(gs), raw);
    EndingGrows(f, gs);
  }

  lemma EndingGrows(f: Frame, gs: seq<Frame>)
    requires Legal(f) && f.command == PADDING_CONTINUE && Ending(gs)
    ensures Ending([f] + gs)
  {
    hide Legal;
    var fs := [f] + gs;
    assert fs[..|fs| - 1] == [f] + gs[..|gs| - 1] && fs[|fs| - 1] == gs[|gs| - 1];
  }

  /**
    * The reader leaves the padding phase on exactly the inputs of the grammar: frames ending in END or DIRECT, then raw
    * bytes.
    */
  lemma GrammarCharacterisesReader(r: Reader, w: bytes)
    requires AtBoundary(r)
    ensures Feed(r, w).reader.phase.Direct? <==>
            exists fs, raw :: Ending(fs) && w == FramesBytes(fs) + raw
    ensures forall fs, raw :: Ending(fs) && w == FramesBytes(fs) + raw ==>
                                Feed(r, w).out == Contents(fs) + raw && Feed(r, w).err.None?
  {
    ReaderRefinesGrammar(r, w);
    forall fs, raw | Ending(fs) && w == FramesBytes(fs) + raw
      ensures Meant(w) == Meaning(Contents(fs) + raw, None, true)
    {
      MeantEnding(fs, raw);
    }
    if Meant(w).direct {
      var fs, raw := DirectMeansEnding(w);
    }
  }
}
