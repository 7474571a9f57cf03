/**
  * The wire written out byte by byte, as the other end of it would write it: literal code points, lengths as base-256
  * digits, text as encoded scalar values. The builders and readers of the other modules produce and take exactly this.
  */
module WireForms {
  import opened Bytes
  import Varint
  import RequestHeader
  import Vision
  import VisionIo
  import VlessStream
  import Transport
  import ClientHello
  import RecordLayer

  // ---- text ----

  /** A Unicode scalar value: a code point that is no surrogate. */
  predicate Scalar(c: nat) { c < 0xD800 || 0xE000 <= c < 0x11_0000 }

  /** UTF-8 of one scalar value (table 3-6 of the Unicode standard): six bits to each following byte. */
  function EncodeScalar(c: nat): (r: bytes)
    requires Scalar(c)
    ensures 1 <= |r| <= 4
  {
    if c < 0x80 then [c]
    else if c < 0x800 then [0xC0 + c / 64, 0x80 + c % 64]
    else if c < 0x1_0000 then [0xE0 + c / 64 / 64, 0x80 + c / 64 % 64, 0x80 + c % 64]
    else [0xF0 + c / 64 / 64 / 64, 0x80 + c / 64 / 64 % 64, 0x80 + c / 64 % 64, 0x80 + c % 64]
  }

  predicate Scalars(cs: seq<nat>) { forall k | 0 <= k < |cs| :: Scalar(cs[k]) }

  function EncodeText(cs: seq<nat>): bytes
    requires Scalars(cs)
  {
    if cs == [] then [] else EncodeScalar(cs[0]) + EncodeText(cs[1..])
  }

  /** Six more bits. */
  function Joined(high: nat, b: byte): nat { high * 64 + b % 64 }

  /** The first character of a well-formed text. */
  function FirstScalar(s: bytes): nat
    requires s != []
  {
    if s[0] < 0x80 then s[0]
    else if |s| >= 2 && 0xC2 <= s[0] <= 0xDF then Joined(s[0] - 0xC0, s[1])
    else if |s| >= 3 && 0xE0 <= s[0] <= 0xEF then Joined(Joined(s[0] - 0xE0, s[1]), s[2])
    else if |s| >= 4 && 0xF0 <= s[0] then Joined(Joined(Joined(s[0] - 0xF0, s[1]), s[2]), s[3])
    else 0
  }

  lemma Rejoined(high: nat, b: byte)
    ensures Joined(high, b) / 64 == high && Joined(high, b) % 64 == b % 64
    ensures Continuation(b) ==> 0x80 + b % 64 == b
  {
  }

  lemma TwoBytes(a: byte, b: byte)
    requires 0xC2 <= a <= 0xDF && Continuation(b)
    ensures var c := Joined(a - 0xC0, b); Scalar(c) && EncodeScalar(c) == [a, b]
  {
  }

  lemma ThreeBytes(a: byte, b: byte, d: byte)
    requires ThreeByteLead(a, b) && Continuation(d)
    ensures var c := Joined(Joined(a - 0xE0, b), d); Scalar(c) && EncodeScalar(c) == [a, b, d]
  {
    var high := Joined(a - 0xE0, b);
    assert 0x20 <= high < 0x400 && (high < 0x360 || 0x380 <= high);
    assert 0x800 <= Joined(high, d) < 0x1_0000 && Scalar(Joined(high, d));
    Rejoined(a - 0xE0, b);
    Rejoined(high, d);
    hide Joined;
  }

  lemma FourBytes(a: byte, b: byte, d: byte, e: byte)
    requires FourByteLead(a, b) && Continuation(d) && Continuation(e)
    ensures var c := Joined(Joined(Joined(a - 0xF0, b), d), e); Scalar(c) && EncodeScalar(c) == [a, b, d, e]
  {
    var high := Joined(a - 0xF0, b);
    var mid := Joined(high, d);
    assert 0x10 <= high < 0x110;
    assert 0x400 <= mid < 0x4400;
    assert 0x1_0000 <= Joined(mid, e) < 0x11_0000;
    Rejoined(a - 0xF0, b);
    Rejoined(high, d);
    Rejoined(mid, e);
    hide Joined;
  }

  /** A well-formed text that is not empty is an encoded scalar value and a well-formed rest. */
  lemma FirstOfText(s: bytes)
    requires Utf8(s) && s != []
    ensures Scalar(FirstScalar(s))
    ensures var e := EncodeScalar(FirstScalar(s)); |e| <= |s| && s == e + s[|e|..] && Utf8(s[|e|..])
  {
    if s[0] < 0x80 {
      assert EncodeScalar(s[0]) == [s[0]];
      assert s == [s[0]] + s[1..];
    } else if |s| >= 2 && 0xC2 <= s[0] <= 0xDF {
      StartsWithTwo(s);
    } else if |s| >= 3 && ThreeByteLead(s[0], s[1]) {
      StartsWithThree(s);
    } else {
      StartsWithFour(s);
    }
    hide EncodeScalar, Scalar, FirstScalar;
  }

  lemma StartsWithTwo(s: bytes)
    requires |s| >= 2 && 0xC2 <= s[0] <= 0xDF && Continuation(s[1])
    ensures Scalar(FirstScalar(s)) && EncodeScalar(FirstScalar(s)) == [s[0], s[1]] && s == [s[0], s[1]] + s[2..]
  {
    TwoBytes(s[0], s[1]);
    hide EncodeScalar, Scalar, Joined;
  }

  lemma StartsWithThree(s: bytes)
    requires |s| >= 3 && ThreeByteLead(s[0], s[1]) && Continuation(s[2])
    ensures Scalar(FirstScalar(s)) && EncodeScalar(FirstScalar(s)) == [s[0], s[1], s[2]]
    ensures s == [s[0], s[1], s[2]] + s[3..]
  {
    ThreeBytes(s[0], s[1], s[2]);
    hide EncodeScalar, Scalar, Joined;
  }

  lemma StartsWithFour(s: bytes)
    requires |s| >= 4 && FourByteLead(s[0], s[1]) && Continuation(s[2]) && Continuation(s[3])
    ensures Scalar(FirstScalar(s)) && EncodeScalar(FirstScalar(s)) == [s[0], s[1], s[2], s[3]]
    ensures s == [s[0], s[1], s[2], s[3]] + s[4..]
  {
    FourBytes(s[0], s[1], s[2], s[3]);
    hide EncodeScalar, Scalar, Joined;
  }

  lemma TextGrows(c: nat, rest: bytes)
    requires Scalar(c)
    ensures Utf8(EncodeScalar(c) + rest) <== Utf8(rest)
  {
    var e := EncodeScalar(c);
    var s := e + rest;
    assert s[|e|..] == rest;
    if 0x800 <= c < 0x1_0000 {
      assert ThreeByteLead(s[0], s[1]) && Continuation(s[2]);
    } else if 0x1_0000 <= c {
      assert FourByteLead(s[0], s[1]) && Continuation(s[2]) && Continuation(s[3]);
    }
  }

  lemma {:induction false} EncodedTextIsUtf8(cs: seq<nat>)
    requires Scalars(cs)
    ensures Utf8(EncodeText(cs))
    decreases |cs|
  {
    hide EncodeScalar, Utf8;
    if cs == [] {
      NoText();
    } else {
      EncodedTextIsUtf8(cs[1..]);
      TextGrows(cs[0], EncodeText(cs[1..]));
    }
  }

  lemma NoText()
    ensures Utf8([])
  {
  }

  lemma {:induction false} Utf8IsEncodedText(s: bytes) returns (cs: seq<nat>)
    requires Utf8(s)
    ensures Scalars(cs) && EncodeText(cs) == s
    decreases |s|
  {
    hide EncodeScalar, Utf8, Scalar;
    if s == [] { return []; }
    FirstOfText(s);
    var c := FirstScalar(s);
    var rest := Utf8IsEncodedText(s[|EncodeScalar(c)|..]);
    cs := [c] + rest;
    assert cs[1..] == rest;
  }

  /** What the parsers accept as text is exactly what encodes some scalar values. */
  lemma Utf8ExactlyIfEncoded(s: bytes)
    ensures Utf8(s) <==> exists cs: seq<nat> :: Scalars(cs) && EncodeText(cs) == s
  {
    hide Utf8, EncodeText, Scalars;
    if Utf8(s) {
      var cs := Utf8IsEncodedText(s);
      assert Scalars(cs) && EncodeText(cs) == s;
    }
    forall cs: seq<nat> | Scalars(cs) && EncodeText(cs) == s
      ensures Utf8(s)
    {
      EncodedTextIsUtf8(cs);
    }
  }

  // ---- the request header ----

  /** Type 1 and four octets, type 2 and a counted name, type 3 and sixteen octets. */
  function AddressOnTheWire(a: RequestHeader.Address): bytes {
    match a
    case Ipv4(octets) => [0x01] + octets
    case Domain(name) => [0x02] + [|name| % 256] + name
    case Ipv6(octets) => [0x03] + octets
  }

  /** No flow is the one byte 0; a flow is a one, its length and its name. Their length goes before, as a varint. */
  function AddonsOnTheWire(flow: Option<bytes>): bytes {
    if flow.None? || flow.value == [] then [0x01, 0x00]
    else Varint.Encoded(2 + |flow.value|) + ([0x01, |flow.value| % 256] + flow.value)
  }

  /**
    * Version 0, the identity, the addons field 0x0a, the command, and unless it is 0x0f a big-endian port and address.
    */
  lemma HeaderOnTheWire(uuid: bytes, flow: Option<bytes>, command: byte, address: RequestHeader.Address, port: u16)
    ensures RequestHeader.HeaderBytes(uuid, flow, command, address, port)
         == [0x00] + uuid + ([0x0a] + AddonsOnTheWire(flow))
            + ([command] + (if command == 0x0f then [] else Digits(port, 2) + AddressOnTheWire(address)))
  {
    AddonsLayout(flow);
    AddressLayout(address);
    PutU16Digits(port);
    hide Digits, PutU16, AddonsOnTheWire, AddressOnTheWire, RequestHeader.Addons, RequestHeader.AddressBytes;
  }

  lemma AddonsLayout(flow: Option<bytes>)
    ensures RequestHeader.Addons(flow) == [0x0a] + AddonsOnTheWire(flow)
  {
    hide Varint.Encoded;
    Varint.Small(1);
    var body := RequestHeader.AddonsBody(flow);
    assert flow.None? || flow.value == [] || |body| == 2 + |flow.value|;
    assert [0x0a] + Varint.Encoded(|body|) + body == [0x0a] + (Varint.Encoded(|body|) + body);
  }

  lemma AddressLayout(a: RequestHeader.Address)
    ensures RequestHeader.AddressBytes(a) == AddressOnTheWire(a)
  {
  }

  /** A mux header carries no destination; the parser puts "v1.mux.cool" and port zero in its place. */
  lemma MuxDestination(uuid: bytes, flow: Option<bytes>, address: RequestHeader.Address, port: u16, suffix: bytes)
    requires |uuid| == 16 && RequestHeader.TypedFlow(flow) && RequestHeader.TypedAddress(address)
    requires RequestHeader.FlowFits(flow)
    ensures RequestHeader.Parsed(RequestHeader.HeaderBytes(uuid, flow, 0x0f, address, port) + suffix)
         == Ok(RequestHeader.ParsedRequest(
                 uuid, RequestHeader.CarriedFlow(flow), 0x0f,
                 RequestHeader.Domain([0x76, 0x31, 0x2e, 0x6d, 0x75, 0x78, 0x2e, 0x63, 0x6f, 0x6f, 0x6c]), 0))
  {
    hide RequestHeader.Parsed, RequestHeader.HeaderBytes, RequestHeader.TypedAddress;
    RequestHeader.ParseInvertsBuild(uuid, flow, 0x0f, address, port, suffix);
  }

  /** Below 128 one byte; below 16384 the low seven bits with the high bit set, then the rest. */
  lemma VarintOnTheWire(v: nat)
    requires v < 16384
    ensures Varint.Encoded(v) == if v < 128 then [v] else [0x80 + v % 128, v / 128]
  {
    if v >= 128 { assert Varint.Encoded(v / 128) == [v / 128]; }
  }

  /** Version 0, and a four-byte header of which the reader checks the length and the version. */
  lemma ResponseOnTheWire(rest: bytes)
    ensures RequestHeader.ResponseHeader() == [0x00, 0x0a, 0x01, 0x00]
    ensures RequestHeader.ParseResponseHeader(rest, RequestHeader.VERSION).Ok? <==> |rest| >= 4 && rest[0] == 0x00
  {
  }

  // ---- Vision frames ----

  function FrameOnTheWire(command: byte, content: bytes, padding: bytes): bytes {
    [command] + Digits(|content|, 2) + Digits(|padding|, 2) + content + padding
  }

  lemma FrameLayout(f: Vision.Frame)
    ensures Vision.FrameBytes(f) == FrameOnTheWire(f.command, f.content, f.padding)
  {
    hide Digits, PutU16;
    PutU16Digits(|f.content|);
    PutU16Digits(|f.padding|);
  }

  /**
    * How a frame reads: 0 goes on with the next frame, 1 and 2 end the padding, anything else is refused after its
    * content; content or padding above 2027 bytes is refused at once.
    */
  lemma FrameMeans(command: byte, content: bytes, padding: bytes, rest: bytes)
    requires |content| < 0x1_0000 && |padding| < 0x1_0000
    ensures Vision.Meant(FrameOnTheWire(command, content, padding) + rest)
         == if |content| > 2027 || |padding| > 2027 then Vision.Meaning([], Some(RequestHeader.BadFrame), false)
            else if command == 0 then
              Vision.Meaning(content + Vision.Meant(rest).out, Vision.Meant(rest).err, Vision.Meant(rest).direct)
            else if command == 1 || command == 2 then Vision.Meaning(content + rest, None, true)
            else Vision.Meaning(content, Some(RequestHeader.BadFrame), false)
  {
    hide Digits, U16, PutU16;
    PutU16Digits(|content|);
    PutU16Digits(|padding|);
    var w := FrameOnTheWire(command, content, padding) + rest;
    assert w[1] == PutU16(|content|)[0] && w[2] == PutU16(|content|)[1];
    assert w[3] == PutU16(|padding|)[0] && w[4] == PutU16(|padding|)[1];
    assert w[5..5 + |content|] == content;
    assert w[5 + |content| + |padding|..] == rest;
    assert content + [] == content;
  }

  /**
    * How a stream starts: 21 bytes or more that begin with the identity lock the reader on and are read from the
    * seventeenth; 21 or more that do not are refused in the first call and copied in a later one; fewer are copied.
    */
  lemma LocksOnExactlyIf(r: Vision.Reader, wire: bytes)
    requires Vision.Sound(r) && r.phase.Initial?
    ensures var (next, out) := Vision.Unpadded(r, wire);
            && (!next.phase.Initial? <==> |wire| >= 21 && wire[..16] == r.uuid)
            && (out == Err(RequestHeader.UuidMismatch) <==> r.first && |wire| >= 21 && wire[..16] != r.uuid)
            && (next.phase.Initial? && out.Ok? ==> out.value == wire)
            && (!next.phase.Initial? && Vision.Meant(wire[16..]).err.None? ==> out == Ok(Vision.Meant(wire[16..]).out))
  {
    if |wire| >= 21 && wire[..16] == r.uuid {
      var locked := r.(phase := Vision.Header, within := true, first := false);
      Vision.ReaderRefinesGrammar(locked, wire[16..]);
      NeverMismatch(locked, wire[16..]);
    }
  }

  /** A locked reader refuses frames, never an identity. */
  lemma {:induction false} NeverMismatch(r: Vision.Reader, w: bytes)
    requires Vision.Locked(r)
    ensures Vision.Feed(r, w).err != Some(RequestHeader.UuidMismatch)
    decreases |w|
  {
    if w != [] && Vision.Step(r, w[0]).err.None? { NeverMismatch(Vision.Step(r, w[0]).reader, w[1..]); }
  }

  /** The paddings that can be drawn: 900 to 1399 less the content to hide a short header, 0 to 255 otherwise. */
  lemma PaddingsDrawn(contentLen: nat, long: bool, n: nat)
    requires contentLen <= 2027
    ensures (exists draw: u64 :: VisionIo.PaddingDraw(contentLen, long, draw) == n) <==>
            if long && contentLen < 900 then 900 <= contentLen + n < 1400 else n < 256 && contentLen + n <= 2027
  {
    if long && contentLen < 900 {
      if 900 <= contentLen + n < 1400 {
        var draw: u64 := contentLen + n - 900;
        assert VisionIo.PaddingDraw(contentLen, long, draw) == n;
      }
    } else if n < 256 && contentLen + n <= 2027 {
      var draw: u64 := n;
      assert VisionIo.PaddingDraw(contentLen, long, draw) == n;
    }
  }

  /**
    * The first record hides a short header: with its packet below 900 bytes it is 921 to 1420 bytes, whatever they are.
    */
  lemma FirstRecordHidesTheHeader(header: bytes, uuid: bytes, payload: bytes, draw: nat -> u64)
    requires |uuid| == 16 && |header + payload| < 900
    ensures var o := VlessStream.OutStream(Some(header), VisionIo.Writer(Some(uuid), true));
            921 <= |VlessStream.Wrapped(o, payload, draw).1| <= 1420
  {
    var fs := VisionIo.Reshaped(header + payload, true, true, draw, 0);
    assert |fs| == 1 && fs[1..] == [];
    assert Vision.FramesBytes(fs) == Vision.FrameBytes(fs[0]) + Vision.FramesBytes(fs[1..]);
  }

  /** Past its header a stream adds nothing once padding has ended, and otherwise a frame head and at most 255 zeros. */
  lemma LaterRecordsAreLean(w: VisionIo.Writer, payload: bytes, draw: nat -> u64)
    requires |payload| <= 2027
    ensures var out := VlessStream.Wrapped(VlessStream.OutStream(None, w), payload, draw).1;
            && (!w.padding ==> out == payload)
            && (w.padding ==> |out| - |VisionIo.Identity(w.uuid)| - 5 - |payload| <= 255)
  {
    if w.padding {
      var fs := VisionIo.Reshaped(payload, false, false, draw, 0);
      assert |fs| == 1 && fs[1..] == [];
      assert Vision.FramesBytes(fs) == Vision.FrameBytes(fs[0]) + Vision.FramesBytes(fs[1..]);
    }
  }

  // ---- transport frames ----

  /** Four big-endian bytes of length and the payload; the reader takes exactly the lengths up to 70000. */
  lemma FrameOnTheSocket(payload: bytes, rest: bytes, broken: bool)
    requires |payload| < 0x1_0000_0000
    ensures |payload| <= 70_000 ==> Transport.Framed(payload) == Digits(|payload|, 4) + payload
    ensures Transport.ReadOne(Digits(|payload|, 4) + payload + rest, broken)
         == if |payload| <= 70_000 then (rest, Ok(Some(payload)))
            else (payload + rest, Err(Transport.TooLarge(|payload|)))
  {
    var l := PutU32(|payload|);
    PutU32Digits(|payload|);
    hide Digits, PutU32, U32;
    ReadBehind(l, payload, rest, broken);
  }

  lemma ReadBehind(l: bytes, payload: bytes, rest: bytes, broken: bool)
    requires |l| == 4 && U32(l[0], l[1], l[2], l[3]) == |payload|
    ensures Transport.ReadOne(l + payload + rest, broken)
         == if |payload| <= 70_000 then (rest, Ok(Some(payload)))
            else (payload + rest, Err(Transport.TooLarge(|payload|)))
  {
    hide U32;
    var w := l + payload + rest;
    assert w[0] == l[0] && w[1] == l[1] && w[2] == l[2] && w[3] == l[3];
    assert w[4..] == payload + rest;
    assert w[4..4 + |payload|] == payload && w[4 + |payload|..] == rest;
  }

  // ---- the ClientHello ----

  lemma NoU16()
    ensures PutU16(0) == [0x00, 0x00]
  {
    PutU16Digits(0);
    Digits2(0);
    hide PutU16, Digits;
  }

  lemma ServerNameOnTheWire(host: bytes)
    ensures ClientHello.ExtBytes(ClientHello.ServerName(host))
         == [0x00, 0x00] + Digits(5 + |host|, 2) + (Digits(3 + |host|, 2) + [0x00] + Digits(|host|, 2) + host)
  {
    NoU16();
    PutU16Digits(5 + |host|);
    PutU16Digits(3 + |host|);
    PutU16Digits(|host|);
    hide Digits, PutU16;
  }

  lemma KeyShareOnTheWire(key: bytes)
    requires |key| == 32
    ensures ClientHello.ExtBytes(ClientHello.KeyShare(key))
         == [0x00, 0x33, 0x00, 0x26, 0x00, 0x24, 0x00, 0x1d, 0x00, 0x20] + key
  {
    assert PutU16(0x0033) == [0x00, 0x33] && PutU16(38) == [0x00, 0x26] && PutU16(36) == [0x00, 0x24];
    assert PutU16(0x001d) == [0x00, 0x1d] && PutU16(32) == [0x00, 0x20];
    hide PutU16;
  }

  lemma FixedExtensionsOnTheWire()
    ensures ClientHello.ExtBytes(ClientHello.GREASE) == [0x1a, 0x1a, 0x00, 0x00]
    ensures ClientHello.ExtBytes(ClientHello.VERSIONS)
         == [0x00, 0x2b, 0x00, 0x07, 0x06, 0x0a, 0x0a, 0x03, 0x04, 0x03, 0x03]
  {
    NoU16();
    assert PutU16(0x1a1a) == [0x1a, 0x1a];
    assert PutU16(0x002b) == [0x00, 0x2b] && PutU16(7) == [0x00, 0x07];
    hide PutU16;
  }

  lemma PaddingOnTheWire(n: nat)
    ensures ClientHello.ExtBytes(ClientHello.Ext(ClientHello.EXT_PADDING, Zeros(n)))
         == [0x00, 0x15] + Digits(n, 2) + Zeros(n)
  {
    assert PutU16(0x0015) == [0x00, 0x15];
    PutU16Digits(n);
    hide Digits, PutU16;
  }

  function Kinds(es: seq<ClientHello.Ext>): (r: seq<u16>)
    ensures |r| == |es| && forall i | 0 <= i < |es| :: r[i] == es[i].kind
  {
    seq(|es|, i requires 0 <= i < |es| => es[i].kind)
  }

  const MIDDLE: seq<u16> := [
    0x0017, 0xff01, 0x000a, 0x0010, 0x000d, 0x0005, 0x001b, 0x0012, 0x002d, 0x0032, 0x001f, 0x4469, 0x44cd, 0x0023,
    0x0016]

  /** The order of the extensions is the browser's: GREASE first, versions and key share last before the padding. */
  lemma ExtensionsInOrder(sni: Option<bytes>, key: bytes)
    ensures Kinds(ClientHello.OfferedExts(ClientHello.BrowserExts(ClientHello.BROWSER_EXT_COUNT), sni, key))
         == [0x1a1a] + (if sni.Some? then [0x0000] else []) + MIDDLE + [0x002b, 0x0033]
  {
    var middle := ClientHello.BrowserExts(ClientHello.BROWSER_EXT_COUNT);
    assert Kinds(middle) == MIDDLE;
    hide ClientHello.BrowserExts;
    var front := [ClientHello.GREASE] + ClientHello.SniExts(sni);
    assert Kinds(front) == [0x1a1a] + (if sni.Some? then [0x0000] else []);
    assert Kinds(front + middle) == Kinds(front) + Kinds(middle);
    var back := [ClientHello.VERSIONS, ClientHello.KeyShare(key)];
    assert Kinds(back) == [0x002b, 0x0033];
    assert Kinds(front + middle + back) == Kinds(front + middle) + Kinds(back);
  }

  /** Padding, of type 0x0015, trails: it brings extensions and name overhead to 512 bytes, or there is none. */
  lemma PaddedTo512(middle: seq<ClientHello.Ext>, sni: Option<bytes>, key: bytes)
    ensures var offered := ClientHello.OfferedExts(middle, sni, key);
            var overhead := if sni.Some? then 9 + |sni.value| else 0;
            var all := ClientHello.Extensions(middle, sni, key);
            if ClientHello.ExtsLen(offered) + overhead < 508
            then all == offered + [all[|all| - 1]] && all[|all| - 1].kind == 0x0015
                 && ClientHello.ExtsLen(all) + overhead == 512
            else all == offered
  {
    var offered := ClientHello.OfferedExts(middle, sni, key);
    var padding := ClientHello.PaddingExts(ClientHello.ExtsLen(offered) + ClientHello.SniOverhead(sni));
    ClientHello.ExtsAppend(offered, padding);
    assert padding == [] || ClientHello.ExtsLen(padding) == 4 + |padding[0].data| + ClientHello.ExtsLen(padding[1..]);
  }

  /** Version, random, session id, sixteen cipher suites, no compression, and the extensions. */
  function BodyOnTheWire(random: bytes, sessionId: bytes, exts: bytes): bytes {
    [0x03, 0x03] + (random + ([|sessionId| % 256] + (sessionId + ([0x00, 0x20] + (
      [0x0a, 0x0a, 0x13, 0x01, 0x13, 0x02, 0x13, 0x03, 0xc0, 0x2b, 0xc0, 0x2f, 0xc0, 0x2c, 0xc0, 0x30, 0xc0, 0x32, 0xc0,
       0x2d, 0xc0, 0x27, 0xc0, 0x13, 0x00, 0x9c, 0x00, 0x9d, 0x00, 0x2f, 0x00, 0x35]
      + ([0x01] + ([0x00] + (Digits(|exts|, 2) + exts))))))))
  }

  lemma SuitesLayout()
    ensures PutU16(|ClientHello.CIPHER_SUITES|) == [0x00, 0x20]
    ensures ClientHello.CIPHER_SUITES
         == [0x0a, 0x0a, 0x13, 0x01, 0x13, 0x02, 0x13, 0x03, 0xc0, 0x2b, 0xc0, 0x2f, 0xc0, 0x2c, 0xc0, 0x30, 0xc0, 0x32,
             0xc0, 0x2d, 0xc0, 0x27, 0xc0, 0x13, 0x00, 0x9c, 0x00, 0x9d, 0x00, 0x2f, 0x00, 0x35]
  {
  }

  lemma BodyLayout(sni: Option<bytes>, key: bytes, random: bytes, sessionId: bytes, exts: bytes)
    requires exts == ClientHello.ExtsBytes(
               ClientHello.Extensions(ClientHello.BrowserExts(ClientHello.BROWSER_EXT_COUNT), sni, key))
    ensures ClientHello.Body(random, sessionId, ClientHello.HelloTail(sni, key))
         == BodyOnTheWire(random, sessionId, exts)
  {
    PutU16Digits(|exts|);
    SuitesLayout();
    hide PutU16, Digits, ClientHello.ExtsBytes, ClientHello.Extensions, ClientHello.BrowserExts,
         ClientHello.CIPHER_SUITES;
  }

  /** The record around the hello: a handshake record of version 0x0301 holding one message of type 1. */
  lemma HelloOnTheWire(sni: Option<bytes>, key: bytes, random: bytes, sessionId: bytes)
    ensures var exts := ClientHello.ExtsBytes(
              ClientHello.Extensions(ClientHello.BrowserExts(ClientHello.BROWSER_EXT_COUNT), sni, key));
            var body := BodyOnTheWire(random, sessionId, exts);
            ClientHello.HelloBytes(sni, key, random, sessionId)
            == [0x16] + ([0x03, 0x01] + (Digits(4 + |body|, 2) + ([0x01] + (Digits(|body|, 3) + body))))
  {
    hide PutU16, PutU24, Digits, ClientHello.ExtsBytes, ClientHello.Extensions, ClientHello.BrowserExts,
         BodyOnTheWire, ClientHello.Body, ClientHello.HelloTail;
    var exts := ClientHello.ExtsBytes(
      ClientHello.Extensions(ClientHello.BrowserExts(ClientHello.BROWSER_EXT_COUNT), sni, key));
    BodyLayout(sni, key, random, sessionId, exts);
    var body := BodyOnTheWire(random, sessionId, exts);
    PutU16Digits(4 + |body|);
    PutU24Digits(|body|);
  }

  // ---- TLS records ----

  /** Bit `j` of a number. */
  predicate Bit(n: nat, j: nat) { if j == 0 then n % 2 == 1 else Bit(n / 2, j - 1) }

  lemma {:induction false} XorIsBitwise(a: nat, b: nat, k: nat, j: nat)
    requires j < k
    ensures Bit(RecordLayer.XorBits(a, b, k), j) <==> (Bit(a, j) != Bit(b, j))
  {
    var low, high := RecordLayer.XorBit(a, b), RecordLayer.XorBits(a / 2, b / 2, k - 1);
    assert (low + 2 * high) % 2 == low && (low + 2 * high) / 2 == high;
    if j > 0 { XorIsBitwise(a / 2, b / 2, k - 1, j - 1); }
  }

  /** The nonce is the IV with the eight big-endian bytes of the number folded, bit by bit, into its last eight. */
  lemma NonceFoldsTheNumber(iv: bytes, n: u64, i: nat, j: nat)
    requires |iv| == 12 && i < 8 && j < 8
    ensures RecordLayer.RecordNonce(iv, n)[..4] == iv[..4]
    ensures Bit(RecordLayer.RecordNonce(iv, n)[4 + i], j) <==> (Bit(iv[4 + i], j) != Bit(Digits(n, 8)[i], j))
  {
    hide Digits, PutU64, Bit, RecordLayer.XorBits;
    PutU64Digits(n);
    XorIsBitwise(iv[4 + i], PutU64(n)[i], 8, j);
  }

  lemma {:induction false} XorZero(a: nat, k: nat)
    requires a < RecordLayer.Pow2(k)
    ensures RecordLayer.XorBits(a, 0, k) == a
  {
    if k > 0 { XorZero(a / 2, k - 1); }
  }

  lemma {:induction false} DigitsOfZero(k: nat)
    ensures Digits(0, k) == Zeros(k)
  {
    if k > 0 { DigitsOfZero(k - 1); }
  }

  /** Record zero goes out under the IV itself. */
  lemma NonceOfRecordZero(iv: bytes)
    requires |iv| == 12
    ensures RecordLayer.RecordNonce(iv, 0) == iv
  {
    PutU64Digits(0);
    DigitsOfZero(8);
    RecordLayer.Pow2Eight();
    hide Digits, PutU64, RecordLayer.XorBits, RecordLayer.Pow2;
    forall i | 0 <= i < 8
      ensures RecordLayer.Xor(iv[4 + i], PutU64(0)[i]) == iv[4 + i]
    {
      XorZero(iv[4 + i], 8);
    }
  }

  /**
    * A record: type 23, version 0x0303, its length, and the payload and its type sealed with these five bytes as data.
    */
  lemma RecordOnTheWire(c: RecordLayer.Tls, ch: RecordLayer.Channel, data: bytes)
    requires RecordLayer.Usable(ch)
    ensures var header := [0x17, 0x03, 0x03] + Digits(|data| + 17, 2);
            RecordLayer.AppSealed(c, ch, data)
            == header + c.seal(ch.suite, ch.key, RecordLayer.RecordNonce(ch.iv, ch.seqno), header, data + [0x17])
  {
    hide Digits, PutU16, RecordLayer.RecordNonce;
    PutU16Digits(|data| + 17);
    assert data + [0x17] + Zeros(0) == data + [0x17];
  }
}
