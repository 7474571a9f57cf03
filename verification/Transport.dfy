/** Length-prefixed record frames over a byte stream. */
module Transport {
  import opened Bytes

  const MAX_FRAME_LEN := 70_000

  datatype FrameError = Io | TooLarge(n: int) | ClosedMidFrame

  function Framed(payload: bytes): bytes
    requires |payload| <= MAX_FRAME_LEN
  {
    PutU32(|payload|) + payload
  }

  /**
    * What one read leaves and returns on a stream that ends after `buf`, in an I/O error if `broken`. A clean end
    * inside the length prefix counts as no frame; either end inside the payload reads as a cut frame.
    */
  function ReadOne(buf: bytes, broken: bool): (r: (bytes, Result<Option<bytes>, FrameError>))
    ensures r.1.Ok? && r.1.value.Some? ==> |r.0| < |buf|
  {
    if |buf| < 4 then ([], if broken then Err(Io) else Ok(None))
    else
      var len := U32(buf[0], buf[1], buf[2], buf[3]);
      if len > MAX_FRAME_LEN then (buf[4..], Err(TooLarge(len)))
      else if |buf| - 4 < len then ([], Err(ClosedMidFrame))
      else (buf[4 + len..], Ok(Some(buf[4..4 + len])))
  }

  /** A connected byte stream: what has been written and not yet read. */
  class ByteStream {
    var buf: bytes

    constructor ()
      ensures buf == []
    {
      buf := [];
    }

    /**
      * `accepts` is how many more bytes the connection takes before a write fails; a failed write leaves what went
      * before it.
      */
    method WriteFrame(payload: bytes, accepts: nat, flushes: bool) returns (r: Result<(), FrameError>)
      modifies this
      ensures |payload| > MAX_FRAME_LEN ==> r.Err? && r.error.TooLarge? && buf == old(buf)
      ensures |payload| <= MAX_FRAME_LEN ==>
                && r == (if accepts >= 4 + |payload| && flushes then Ok(()) else Err(Io))
                && buf == old(buf) + Framed(payload)[..Min(accepts, 4 + |payload|)]
    {
      if |payload| >= 0x1_0000_0000 { return Err(TooLarge(0xFFFF_FFFF)); }
      if |payload| > MAX_FRAME_LEN { return Err(TooLarge(|payload|)); }
      var prefix := PutU32(|payload|);
      ghost var whole := Framed(payload);
      if accepts < 4 {
        buf := buf + prefix[..accepts];
        assert prefix[..accepts] == whole[..accepts];
        return Err(Io);
      }
      ghost var before := buf;
      buf := buf + prefix;
      var room := accepts - 4;
      if room < |payload| {
        buf := buf + payload[..room];
        assert buf == before + (prefix + payload[..room]) && prefix + payload[..room] == whole[..accepts];
        return Err(Io);
      }
      buf := buf + payload;
      assert buf == before + (prefix + payload) && whole[..4 + |payload|] == whole;
      return if flushes then Ok(()) else Err(Io);
    }

    method ReadFrame(broken: bool) returns (r: Result<Option<bytes>, FrameError>)
      modifies this
      ensures (buf, r) == ReadOne(old(buf), broken)
    {
      if |buf| < 4 {
        buf := [];
        return if broken then Err(Io) else Ok(None);
      }
      var len := U32(buf[0], buf[1], buf[2], buf[3]);
      ghost var all := buf;
      buf := buf[4..];
      if len > MAX_FRAME_LEN { return Err(TooLarge(len)); }
      if |buf| < len {
        buf := [];
        return Err(ClosedMidFrame);
      }
      var payload := buf[..len];
      buf := buf[len..];
      assert payload == all[4..4 + len] && buf == all[4 + len..];
      return Ok(Some(payload));
    }
  }

  function Stream(payloads: seq<bytes>): bytes
    requires forall p | p in payloads :: |p| <= MAX_FRAME_LEN
  {
    if payloads == [] then [] else Framed(payloads[0]) + Stream(payloads[1..])
  }

  /** Everything a reader gets before the stream ends, and whether it saw an error. */
  function ReadAll(buf: bytes, broken: bool): (seq<bytes>, Option<FrameError>)
    decreases |buf|
  {
    match ReadOne(buf, broken)
    case (_, Err(e)) => ([], Some(e))
    case (_, Ok(None)) => ([], None)
    case (rest, Ok(Some(p))) =>
      var (more, e) := ReadAll(rest, broken);
      ([p] + more, e)
  }

  /**
    * What a stream of frames cut after `n` bytes must yield: the whole frames, then its own end unless a payload was
    * cut.
    */
  function CutAfter(payloads: seq<bytes>, n: nat, broken: bool): (seq<bytes>, Option<FrameError>) {
    if payloads == [] || n < 4 then ([], if broken then Some(Io) else None)
    else if n < 4 + |payloads[0]| then ([], Some(ClosedMidFrame))
    else
      var (more, e) := CutAfter(payloads[1..], n - 4 - |payloads[0]|, broken);
      ([payloads[0]] + more, e)
  }

  /** Reading any prefix of a written stream gives exactly the frames wholly inside it, never a damaged one. */
  lemma {:induction false} ReadInvertsWrite(payloads: seq<bytes>, n: nat, broken: bool)
    requires forall p | p in payloads :: |p| <= MAX_FRAME_LEN
    requires n <= |Stream(payloads)|
    ensures ReadAll(Stream(payloads)[..n], broken) == CutAfter(payloads, n, broken)
    ensures n == |Stream(payloads)| ==> CutAfter(payloads, n, broken) == (payloads, if broken then Some(Io) else None)
    decreases |payloads|
  {
    hide PutU32, U32;
    if payloads != [] {
      var p := payloads[0];
      ReadCut(PutU32(|p|), p, Stream(payloads[1..]), n, broken);
      if n >= 4 + |p| {
        ReadInvertsWrite(payloads[1..], n - 4 - |p|, broken);
        assert [p] + payloads[1..] == payloads;
      }
    }
  }

  /** One framed payload and what follows, cut after `n` bytes. */
  lemma ReadCut(prefix: bytes, p: bytes, tail: bytes, n: nat, broken: bool)
    requires |prefix| == 4 && U32(prefix[0], prefix[1], prefix[2], prefix[3]) == |p| <= MAX_FRAME_LEN
    requires n <= 4 + |p| + |tail|
    ensures ReadOne((prefix + p + tail)[..n], broken) ==
            if n < 4 then ([], if broken then Err(Io) else Ok(None))
            else if n < 4 + |p| then ([], Err(ClosedMidFrame))
            else (tail[..n - 4 - |p|], Ok(Some(p)))
  {
    hide U32;
    var buf := (prefix + p + tail)[..n];
    if n >= 4 {
      assert forall i | 0 <= i < 4 :: buf[i] == prefix[i];
      if n >= 4 + |p| {
        assert buf[4..4 + |p|] == p && buf[4 + |p|..] == tail[..n - 4 - |p|];
      }
    }
  }
}
