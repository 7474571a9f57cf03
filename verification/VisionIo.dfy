/** The objects that carry a Vision direction's state between calls, proved against the Vision specification. */
module VisionIo {
  import opened Bytes
  import opened RequestHeader
  import opened Vision

  // ---- the writer's specification ----

  datatype Writer = Writer(uuid: Option<bytes>, padding: bool)

  /** `xtls_padding`'s draw: long padding for short content, short padding otherwise, capped to the body bound. */
  function PaddingDraw(contentLen: nat, long: bool, draw: u64): (n: nat)
    requires contentLen <= MAX_FRAME_BODY
    ensures contentLen + n <= MAX_FRAME_BODY
    ensures long && contentLen < 900 ==> 900 <= contentLen + n < 1400
  {
    Min(if contentLen < 900 && long then draw % 500 + 900 - contentLen else draw % 256, MAX_FRAME_BODY - contentLen)
  }

  /** The frames one `pad` call emits; the i-th frame uses the i-th random draw. */
  function Reshaped(payload: bytes, long: bool, end: bool, draw: nat -> u64, i: nat): (fs: seq<Frame>)
    ensures fs != []
    decreases |payload|
  {
    var last := |payload| <= MAX_FRAME_BODY;
    var content := payload[..Min(|payload|, MAX_FRAME_BODY)];
    var f := Frame(if last && end then PADDING_END else PADDING_CONTINUE, content,
                   Zeros(PaddingDraw(|content|, long, draw(i))));
    if last then [f] else [f] + Reshaped(payload[MAX_FRAME_BODY..], long, end, draw, i + 1)
  }

  function Identity(uuid: Option<bytes>): bytes { if uuid.Some? then uuid.value else [] }

  /** One `pad` call on the writer's state. */
  function Padded(w: Writer, payload: bytes, long: bool, end: bool, draw: nat -> u64): (Writer, bytes) {
    if !w.padding then (w, payload)
    else (Writer(None, !end), Identity(w.uuid) + FramesBytes(Reshaped(payload, long, end, draw, 0)))
  }

  function XtlsPadding(content: bytes, command: byte, uuid: Option<bytes>, long: bool, draw: u64): (out: bytes)
    requires |content| <= MAX_FRAME_BODY
    ensures out == Identity(uuid) + FrameBytes(Frame(command, content, Zeros(PaddingDraw(|content|, long, draw))))
  {
    var n := PaddingDraw(|content|, long, draw);
    Identity(uuid) + ([command] + PutU16(|content|) + PutU16(n) + content + Zeros(n))
  }

  lemma EmitFrame(out: bytes, id: Option<bytes>, fs: seq<Frame>)
    requires fs != []
    ensures out + (Identity(id) + FramesBytes(fs))
         == out + (Identity(id) + FrameBytes(fs[0])) + (Identity(None) + FramesBytes(fs[1..]))
    ensures |fs| == 1 ==> Identity(None) + FramesBytes(fs[1..]) == []
  {
    hide FrameBytes;
    Reassociate(out, Identity(id), FrameBytes(fs[0]), FramesBytes(fs[1..]));
  }

  lemma Reassociate(a: bytes, b: bytes, c: bytes, d: bytes)
    ensures a + (b + (c + d)) == a + (b + c) + ([] + d)
  {
  }

  class VisionWriter {
    var uuid: Option<bytes>
    var isPadding: bool

    ghost function View(): Writer
      reads this
    {
      Writer(uuid, isPadding)
    }

    constructor (id: bytes)
      ensures View() == Writer(Some(id), true)
    {
      uuid, isPadding := Some(id), true;
    }

    method Pad(payload: bytes, long: bool, end: bool, draw: nat -> u64) returns (out: bytes)
      modifies this
      ensures (View(), out) == Padded(old(View()), payload, long, end, draw)
    {
      if !isPadding { return payload; }
      var id := uuid;
      uuid := None;
      out := [];
      var remaining, i := payload, 0;
      ghost var whole := Identity(id) + FramesBytes(Reshaped(payload, long, end, draw, 0));
      while true
        invariant out + (Identity(id) + FramesBytes(Reshaped(remaining, long, end, draw, i))) == whole
        invariant uuid == None && isPadding
        decreases |remaining|
      {
        var last := |remaining| <= MAX_FRAME_BODY;
        var content := remaining[..Min(|remaining|, MAX_FRAME_BODY)];
        var command := if last && end then PADDING_END else PADDING_CONTINUE;
        ghost var fs := Reshaped(remaining, long, end, draw, i);
        EmitFrame(out, id, fs);
        out := out + XtlsPadding(content, command, id, long, draw(i));
        id := None;
        if last {
          assert out + [] == out;
          break;
        }
        remaining, i := remaining[MAX_FRAME_BODY..], i + 1;
        assert fs[1..] == Reshaped(remaining, long, end, draw, i);
      }
      if end { isPadding := false; }
    }
  }

  class VisionReader {
    var state: Phase
    var command: byte
    const uuid: bytes
    const header: array<byte>
    var headerFill: nat
    var withinPaddingBuffers: bool
    var firstBuffer: bool

    ghost function View(): Reader
      reads this, header
    {
      Reader(state, command, uuid, header[..], headerFill, withinPaddingBuffers, firstBuffer)
    }

    ghost predicate Valid()
      reads this, header
    {
      Sound(View())
    }

    constructor (id: bytes)
      requires |id| == 16
      ensures Valid() && View() == NewReader(id) && fresh(header)
    {
      state, command, uuid, headerFill := Initial, 0, id, 0;
      withinPaddingBuffers, firstBuffer := false, true;
      header := new byte[5](_ => 0);
      new;
      assert header[..] == Zeros(5);
    }

    /** One finished frame: dispatch on its command. */
    method FrameFinished() returns (err: Option<VlessError>)
      requires Valid() && state != Initial && state != Direct && headerFill == 0
      modifies this
      ensures (View(), err) == (FrameDone(old(View()), []).reader, FrameDone(old(View()), []).err)
    {
      if command == PADDING_CONTINUE {
        state := Header;
      } else if command == PADDING_END || command == PADDING_DIRECT {
        state := Direct;
        withinPaddingBuffers := false;
      } else {
        return Some(BadFrame);
      }
      return None;
    }

    /** The loop body: the `Initial` arm is unreachable, so it is not written. */
    method Consume(b: byte) returns (out: bytes, err: Option<VlessError>)
      requires Locked(View())
      modifies this, header
      ensures Fed(View(), out, err) == Step(old(View()), b)
    {
      out, err := [], None;
      match state {
        case Direct => out := [b];
        case Header =>
          header[headerFill] := b;
          assert header[..] == old(header[..])[headerFill := b];
          headerFill := headerFill + 1;
          if headerFill == 5 {
            command := header[0];
            var contentLen, paddingLen := U16(header[1], header[2]), U16(header[3], header[4]);
            headerFill := 0;
            if contentLen > MAX_FRAME_BODY || paddingLen > MAX_FRAME_BODY { return [], Some(BadFrame); }
            if contentLen > 0 {
              state := Content(contentLen);
            } else if paddingLen > 0 {
              state := Padding(paddingLen);
            } else {
              err := FrameFinished();
            }
          }
        case Content(remaining) =>
          out := [b];
          if remaining == 1 {
            if header[3] != 0 || header[4] != 0 {
              state := Padding(U16(header[3], header[4]));
            } else {
              err := FrameFinished();
            }
          } else {
            state := Content(remaining - 1);
          }
        case Padding(remaining) =>
          if remaining == 1 {
            err := FrameFinished();
          } else {
            state := Padding(remaining - 1);
          }
      }
    }

    method Unpad(input: bytes) returns (r: Result<bytes, VlessError>)
      requires Valid()
      modifies this, header
      ensures Valid()
      ensures (View(), r) == Unpadded(old(View()), input)
    {
      var wire := input;
      if state == Initial {
        if |wire| >= 21 && wire[..16] == uuid {
          state := Header;
          withinPaddingBuffers := true;
          firstBuffer := false;
          wire := wire[16..];
        } else if firstBuffer && |wire| >= 21 {
          firstBuffer := false;
          return Err(UuidMismatch);
        } else {
          firstBuffer := false;
          return Ok(wire);
        }
      }
      r := Drain(wire);
    }

    /** The byte loop, from a locked state. */
    method Drain(wire: bytes) returns (r: Result<bytes, VlessError>)
      requires Locked(View())
      modifies this, header
      ensures Locked(View())
      ensures (View(), r) == (Feed(old(View()), wire).reader, Emitted(Feed(old(View()), wire)))
    {
      var out, i := [], 0;
      while i < |wire|
        invariant 0 <= i <= |wire|
        invariant Locked(View())
        invariant Feed(old(View()), wire) == Then(Fed(View(), out, None), wire[i..])
      {
        ThenStep(View(), out, wire[i..]);
        assert wire[i..][1..] == wire[i + 1..];
        var more, err := Consume(wire[i]);
        if err.Some? { return Err(err.value); }
        out := out + more;
        i := i + 1;
      }
      assert wire[i..] == [] && out + [] == out;
      return Ok(out);
    }
  }

  lemma ThenStep(r: Reader, out: bytes, rest: bytes)
    requires Locked(r) && rest != []
    ensures var s := Step(r, rest[0]);
            Then(Fed(r, out, None), rest) ==
            if s.err.Some? then Fed(s.reader, out + s.out, s.err) else Then(Fed(s.reader, out + s.out, None), rest[1..])
  {
    var s := Step(r, rest[0]);
    if s.err.None? {
      var t := Feed(s.reader, rest[1..]);
      assert out + (s.out + t.out) == out + s.out + t.out;
    }
  }

  // ---- what the writer's frames are ----

  /** Frames per payload, the reshaping bound, lossless lengths, and END only on the last frame of a forced end. */
  lemma {:induction false} ReshapedShape(payload: bytes, long: bool, end: bool, draw: nat -> u64, i: nat)
    ensures var fs := Reshaped(payload, long, end, draw, i);
            && Contents(fs) == payload
            && |fs| == (if payload == [] then 1 else (|payload| + MAX_FRAME_BODY - 1) / MAX_FRAME_BODY)
            && (forall k | 0 <= k < |fs| ::
                  && |fs[k].content| + |fs[k].padding| <= MAX_FRAME_BODY
                  && fs[k].command == (if end && k == |fs| - 1 then PADDING_END else PADDING_CONTINUE))
    decreases |payload|
  {
    var fs := Reshaped(payload, long, end, draw, i);
    if |payload| <= MAX_FRAME_BODY {
      assert payload[..|payload|] == payload && fs[1..] == [];
      assert Contents(fs) == payload + [];
    } else {
      var rest := payload[MAX_FRAME_BODY..];
      ReshapedShape(rest, long, end, draw, i + 1);
      assert fs[1..] == Reshaped(rest, long, end, draw, i + 1);
      assert payload[..MAX_FRAME_BODY] + rest == payload;
    }
  }

  lemma ReshapedEnds(payload: bytes, long: bool, end: bool, draw: nat -> u64)
    ensures var fs := Reshaped(payload, long, end, draw, 0);
            && Contents(fs) == payload
            && (if end then Ending(fs) else AllContinue(fs))
  {
    ReshapedShape(payload, long, end, draw, 0);
  }

  lemma {:induction false} FramesBytesBound(fs: seq<Frame>)
    requires forall k | 0 <= k < |fs| :: |fs[k].content| + |fs[k].padding| <= MAX_FRAME_BODY
    ensures |FramesBytes(fs)| <= |fs| * (MAX_FRAME_BODY + 5)
  {
    if fs != [] { FramesBytesBound(fs[1..]); }
  }

  lemma FramesBytesNonEmpty(fs: seq<Frame>)
    requires fs != []
    ensures |FramesBytes(fs)| >= 5
  {
  }

  // ---- writer and reader together ----

  /** A reader in step with a writer: same identity slot, or both past the padding phase. */
  predicate InStep(w: Writer, r: Reader) {
    && Sound(r)
    && (w.padding ==>
          if w.uuid.Some? then r.phase.Initial? && w.uuid.value == r.uuid else AtBoundary(r))
    && (!w.padding ==> r.phase.Direct?)
  }

  lemma NewInStep(uuid: bytes)
    requires |uuid| == 16
    ensures InStep(Writer(Some(uuid), true), NewReader(uuid))
  {
  }

  /** Every padded payload, whatever the flags and draws, is unpadded to itself, and the pair stays in step. */
  lemma UnpadInvertsPad(w: Writer, r: Reader, payload: bytes, long: bool, end: bool, draw: nat -> u64)
    requires InStep(w, r)
    ensures var (w1, out) := Padded(w, payload, long, end, draw);
            var (r1, got) := Unpadded(r, out);
            got == Ok(payload) && InStep(w1, r1) && r1.uuid == r.uuid
  {
    if !w.padding {
      DirectIsAbsorbing(r, payload);
    } else {
      var fs := Reshaped(payload, long, end, draw, 0);
      var locked := if w.uuid.Some? then r.(phase := Header, within := true, first := false) else r;
      var out := Identity(w.uuid) + FramesBytes(fs);
      if w.uuid.Some? {
        FramesBytesNonEmpty(fs);
        assert out[..16] == r.uuid && out[16..] == FramesBytes(fs);
      } else {
        assert out == FramesBytes(fs);
      }
      FeedFrames(locked, payload, long, end, draw);
    }
  }

  lemma FeedFrames(r: Reader, payload: bytes, long: bool, end: bool, draw: nat -> u64)
    requires AtBoundary(r)
    ensures var f := Feed(r, FramesBytes(Reshaped(payload, long, end, draw, 0)));
            f.out == payload && f.err.None? && (if end then f.reader.phase.Direct? else AtBoundary(f.reader))
  {
    var fs := Reshaped(payload, long, end, draw, 0);
    ReshapedEnds(payload, long, end, draw);
    assert FramesBytes(fs) + [] == FramesBytes(fs);
    if end {
      ReaderRefinesGrammar(r, FramesBytes(fs));
      MeantEnding(fs, []);
      assert Contents(fs) + [] == payload;
    } else {
      FeedContinueFrames(r, fs);
    }
  }

  lemma {:induction false} FeedContinueFrames(r: Reader, fs: seq<Frame>)
    requires AtBoundary(r) && AllContinue(fs)
    ensures var f := Feed(r, FramesBytes(fs));
            f.out == Contents(fs) && f.err.None? && AtBoundary(f.reader)
    decreases |fs|
  {
    if fs != [] {
      var head, rest := FrameBytes(fs[0]), FramesBytes(fs[1..]);
      FrameBytesAt(fs[0], []);
      assert head + [] == head;
      FeedFrame(r, head);
      FeedConcat(r, head, rest);
      FeedContinueFrames(Feed(r, head).reader, fs[1..]);
    }
  }

  // ---- every reachable reader ----

  /** The reader after a list of calls, failing calls included. */
  function AfterCalls(r: Reader, calls: seq<bytes>): Reader
    requires Sound(r)
    decreases |calls|
  {
    if calls == [] then r else AfterCalls(Unpadded(r, calls[0]).0, calls[1..])
  }

  /**
    * Whatever the calls, and whatever errors they ended in, the reader stays sound; once direct it stays
    * direct and copies; and a call never emits more than it was given.
    */
  lemma {:induction false} EveryReachableReaderIsSound(r: Reader, calls: seq<bytes>, next: bytes)
    requires Sound(r)
    ensures var q := AfterCalls(r, calls);
            && Sound(q) && q.uuid == r.uuid
            && (r.phase.Direct? ==> q.phase.Direct?)
            && (q.phase.Direct? ==> Unpadded(q, next) == (q, Ok(next)))
            && (Unpadded(q, next).1.Ok? ==> |Unpadded(q, next).1.value| <= |next|)
    decreases |calls|
  {
    if calls == [] {
      if r.phase.Direct? { DirectIsAbsorbing(r, next); }
    } else {
      if r.phase.Direct? { DirectIsAbsorbing(r, calls[0]); }
      EveryReachableReaderIsSound(Unpadded(r, calls[0]).0, calls[1..], next);
    }
  }
}
