/** The TLS 1.3 ClientHello record: its layout, its builder and its parser. */
module ClientHello {
  import opened Bytes

  const EXT_SERVER_NAME: u16 := 0x0000
  const EXT_PADDING: u16 := 0x0015
  const EXT_KEY_SHARE: u16 := 0x0033
  const EXT_SUPPORTED_VERSIONS: u16 := 0x002b
  const GROUP_X25519: u16 := 0x001d
  const SESSION_ID_OFFSET := 44

  datatype TlsError =
    Truncated | BadRecordType | BadRecordVersion | LengthMismatch | TrailingBytes | BadServerName | ShortIdTooLong |
    NoX25519KeyShare

  datatype ParsedClientHello = ParsedClientHello(
    sni: Option<bytes>, random: bytes, sessionId: bytes, ephemeralPublic: bytes, tls13Negotiable: bool)

  // ---- layout ----

  datatype Ext = Ext(kind: u16, data: bytes)

  function ExtBytes(e: Ext): (r: bytes)
    ensures |r| == 4 + |e.data|
  {
    PutU16(e.kind) + PutU16(|e.data|) + e.data
  }

  function ExtsBytes(es: seq<Ext>): (r: bytes)
    ensures |r| == ExtsLen(es)
  {
    if es == [] then [] else ExtBytes(es[0]) + ExtsBytes(es[1..])
  }

  function ExtsLen(es: seq<Ext>): nat {
    if es == [] then 0 else 4 + |es[0].data| + ExtsLen(es[1..])
  }

  lemma {:induction false} ExtsAppend(a: seq<Ext>, b: seq<Ext>)
    ensures ExtsBytes(a + b) == ExtsBytes(a) + ExtsBytes(b)
  {
    if a == [] {
      assert a + b == b;
    } else {
      assert (a + b)[1..] == a[1..] + b;
      ExtsAppend(a[1..], b);
    }
  }

  const SIGNATURE_ALGORITHMS: bytes := [
    0x00, 0x10, 0x04, 0x03, 0x08, 0x04, 0x04, 0x01, 0x05, 0x03, 0x08, 0x05, 0x05, 0x01, 0x08, 0x06, 0x06, 0x01]

  const GREASE: Ext := Ext(0x1a1a, [])

  function ServerName(host: bytes): Ext {
    Ext(EXT_SERVER_NAME, PutU16(3 + |host|) + [0] + PutU16(|host|) + host)
  }

  /** The extensions between server_name and supported_versions, none of which the parser interprets. */
  function BrowserExt(i: nat): (e: Ext)
    ensures Ignored(e) && |e.data| < 0x1_0000
  {
    match i
    case 0 => Ext(0x0017, [])
    case 1 => Ext(0xff01, [0x00])
    case 2 => Ext(0x000a, [0x00, 0x08, 0x0a, 0x0a, 0x00, 0x1d, 0x00, 0x17, 0x00, 0x18])
    case 3 => Ext(0x0010, [0x00, 0x0c, 0x02, 0x68, 0x32, 0x08, 0x68, 0x74, 0x74, 0x70, 0x2f, 0x31, 0x2e, 0x31])
    case 4 => Ext(0x000d, SIGNATURE_ALGORITHMS)
    case 5 => Ext(0x0005, [0x01, 0x00, 0x00, 0x00, 0x00])
    case 6 => Ext(0x001b, [0x02, 0x00, 0x02])
    case 7 => Ext(0x0012, [])
    case 8 => Ext(0x002d, [0x01, 0x01])
    case 9 => Ext(0x0032, SIGNATURE_ALGORITHMS)
    case 10 => Ext(0x001f, SIGNATURE_ALGORITHMS)
    case 11 => Ext(0x4469, [0x00, 0x00])
    case 12 => Ext(0x44cd, [0x00, 0x00])
    case 13 => Ext(0x0023, [])
    case _ => Ext(0x0016, [])
  }

  function BrowserExts(n: nat): (es: seq<Ext>)
    ensures |es| == n && forall i | 0 <= i < n :: es[i] == BrowserExt(i)
  {
    seq(n, i requires 0 <= i => BrowserExt(i))
  }

  const BROWSER_EXT_COUNT := 15

  predicate Ignored(e: Ext) {
    e.kind != EXT_SERVER_NAME && e.kind != EXT_KEY_SHARE && e.kind != EXT_SUPPORTED_VERSIONS
  }

  const VERSIONS: Ext := Ext(EXT_SUPPORTED_VERSIONS, [0x06, 0x0a, 0x0a, 0x03, 0x04, 0x03, 0x03])

  function KeyShare(key: bytes): Ext {
    Ext(EXT_KEY_SHARE, PutU16(4 + |key|) + (PutU16(GROUP_X25519) + PutU16(|key|) + key))
  }

  function SniExts(sni: Option<bytes>): seq<Ext> { if sni.Some? then [ServerName(sni.value)] else [] }

  /** Everything before the padding extension, in wire order. */
  function OfferedExts(middle: seq<Ext>, sni: Option<bytes>, key: bytes): seq<Ext> {
    [GREASE] + SniExts(sni) + middle + [VERSIONS, KeyShare(key)]
  }

  function SniOverhead(sni: Option<bytes>): nat { if sni.Some? then 9 + |sni.value| else 0 }

  /** The padding length; negative where the source's unsigned subtraction underflows. */
  function PaddingLen(total: nat): int { if total < 512 then 512 - 4 - total else 0 }

  function PaddingExts(total: nat): seq<Ext> {
    if PaddingLen(total) > 0 then [Ext(EXT_PADDING, Zeros(PaddingLen(total)))] else []
  }

  function Extensions(middle: seq<Ext>, sni: Option<bytes>, key: bytes): seq<Ext> {
    var offered := OfferedExts(middle, sni, key);
    offered + PaddingExts(ExtsLen(offered) + SniOverhead(sni))
  }

  const CIPHER_SUITES: bytes := [
    0x0a, 0x0a, 0x13, 0x01, 0x13, 0x02, 0x13, 0x03, 0xc0, 0x2b, 0xc0, 0x2f, 0xc0, 0x2c, 0xc0, 0x30,
    0xc0, 0x32, 0xc0, 0x2d, 0xc0, 0x27, 0xc0, 0x13, 0x00, 0x9c, 0x00, 0x9d, 0x00, 0x2f, 0x00, 0x35]

  /** The hello after the session id. */
  function Tail(suites: bytes, exts: bytes): bytes {
    PutU16(|suites|) + (suites + ([0x01] + ([0x00] + (PutU16(|exts|) + exts))))
  }

  function Body(random: bytes, sessionId: bytes, tail: bytes): bytes {
    [0x03, 0x03] + (random + ([|sessionId| % 256] + (sessionId + tail)))
  }

  function Record(body: bytes): bytes {
    [0x16] + ([0x03, 0x01] + (PutU16(4 + |body|) + ([0x01] + (PutU24(|body|) + body))))
  }

  function HelloTail(sni: Option<bytes>, key: bytes): bytes {
    Tail(CIPHER_SUITES, ExtsBytes(Extensions(BrowserExts(BROWSER_EXT_COUNT), sni, key)))
  }

  function HelloBytes(sni: Option<bytes>, key: bytes, random: bytes, sessionId: bytes): bytes {
    Record(Body(random, sessionId, HelloTail(sni, key)))
  }

  // ---- the builder ----

  datatype BuildError = SessionIdTooLong | PaddingUnderflow

  method PushExtension(out: bytes, ghost list: seq<Ext>, e: Ext) returns (r: bytes)
    requires out == ExtsBytes(list)
    ensures r == ExtsBytes(list + [e])
  {
    r := out + PutU16(e.kind);
    r := r + PutU16(|e.data|);
    r := r + e.data;
    ExtsAppend(list, [e]);
    assert [e][1..] == [] && ExtsBytes([e]) == ExtBytes(e) + [];
  }

  method PushExtensions(out: bytes, ghost list: seq<Ext>, es: seq<Ext>) returns (r: bytes)
    requires out == ExtsBytes(list)
    ensures r == ExtsBytes(list + es)
  {
    hide ExtsBytes;
    r := out;
    assert list + es[..0] == list;
    for i := 0 to |es|
      invariant r == ExtsBytes(list + es[..i])
    {
      r := PushExtension(r, list + es[..i], es[i]);
      assert list + es[..i] + [es[i]] == list + es[..i + 1];
    }
    assert es[..|es|] == es;
  }

  /** All extensions but the padding, in the browser's order. */
  method OfferExtensions(middle: seq<Ext>, sni: Option<bytes>, key: bytes) returns (exts: bytes)
    ensures exts == ExtsBytes(OfferedExts(middle, sni, key))
  {
    exts := PushExtensions([], [], [GREASE] + SniExts(sni));
    exts := PushExtensions(exts, [] + ([GREASE] + SniExts(sni)), middle);
    assert [] + ([GREASE] + SniExts(sni)) == [GREASE] + SniExts(sni);
    exts := PushExtensions(exts, [GREASE] + SniExts(sni) + middle, [VERSIONS, KeyShare(key)]);
  }

  /** The underflowing subtraction aborts the build: `PaddingUnderflow` stands for that panic. */
  method BuildClientHello(sni: Option<bytes>, key: bytes, random: bytes, sessionId: bytes)
    returns (r: Result<bytes, BuildError>)
    ensures var total := ExtsLen(OfferedExts(BrowserExts(BROWSER_EXT_COUNT), sni, key)) + SniOverhead(sni);
            r == if |sessionId| > 32 then Err(SessionIdTooLong)
                 else if PaddingLen(total) < 0 then Err(PaddingUnderflow)
                 else Ok(HelloBytes(sni, key, random, sessionId))
  {
    hide ExtsBytes, ExtsLen, OfferedExts, BrowserExts, PaddingExts, Tail, Body, Record, SniOverhead, Zeros;
    if |sessionId| > 32 { return Err(SessionIdTooLong); }
    var exts := OfferExtensions(BrowserExts(BROWSER_EXT_COUNT), sni, key);
    var total := |exts| + SniOverhead(sni);
    if total < 512 && 512 - 4 < total { return Err(PaddingUnderflow); }
    exts := PadExtensions(exts, OfferedExts(BrowserExts(BROWSER_EXT_COUNT), sni, key), total);
    var tail := AssembleTail(CIPHER_SUITES, exts);
    var record := AssembleRecord(random, sessionId, tail);
    return Ok(record);
  }

  method PadExtensions(offered: bytes, ghost list: seq<Ext>, total: nat) returns (exts: bytes)
    requires offered == ExtsBytes(list) && PaddingLen(total) >= 0
    ensures exts == ExtsBytes(list + PaddingExts(total))
  {
    var paddingLen := if total < 512 then 512 - 4 - total else 0;
    if paddingLen > 0 {
      exts := PushExtension(offered, list, Ext(EXT_PADDING, Zeros(paddingLen)));
    } else {
      exts := offered;
      assert list + [] == list;
    }
  }

  method AssembleTail(suites: bytes, exts: bytes) returns (tail: bytes)
    ensures tail == Tail(suites, exts)
  {
    tail := PutU16(|suites|);
    tail := tail + suites;
    tail := tail + [0x01];
    tail := tail + [0x00];
    tail := tail + PutU16(|exts|);
    tail := tail + exts;
  }

  method AssembleRecord(random: bytes, sessionId: bytes, tail: bytes) returns (record: bytes)
    ensures record == Record(Body(random, sessionId, tail))
  {
    var body := [0x03, 0x03];
    body := body + random;
    body := body + [|sessionId| % 256];
    body := body + sessionId;
    body := body + tail;
    assert body == Body(random, sessionId, tail);
    var handshake := [0x01];
    handshake := handshake + PutU24(|body|);
    handshake := handshake + body;
    record := [0x16];
    record := record + [0x03, 0x01];
    record := record + PutU16(|handshake|);
    record := record + handshake;
  }

  // ---- the parser's specification: a value and what remains after it ----

  function Cut(w: bytes, n: nat): (r: Result<(bytes, bytes), TlsError>)
    ensures r.Ok? ==> |r.value.0| == n && |r.value.1| == |w| - n
  {
    if |w| < n then Err(Truncated) else Ok((w[..n], w[n..]))
  }

  function CutU8(w: bytes): (r: Result<(byte, bytes), TlsError>)
    ensures r.Ok? ==> |r.value.1| == |w| - 1
  {
    var (b, rest) :- Cut(w, 1);
    Ok((b[0], rest))
  }

  function CutU16(w: bytes): (r: Result<(u16, bytes), TlsError>)
    ensures r.Ok? ==> |r.value.1| == |w| - 2
  {
    var (b, rest) :- Cut(w, 2);
    Ok((U16(b[0], b[1]), rest))
  }

  function CutU24(w: bytes): (r: Result<(nat, bytes), TlsError>)
    ensures r.Ok? ==> |r.value.1| == |w| - 3
  {
    var (b, rest) :- Cut(w, 3);
    Ok((U24(b[0], b[1], b[2]), rest))
  }

  datatype Seen = Seen(sni: Option<bytes>, key: Option<bytes>, tls13: bool)

  function ReadServerName(data: bytes): Result<bytes, TlsError> {
    var (listLen, r1) :- CutU16(data);
    var (nameType, r2) :- CutU8(r1);
    var (nameLen, r3) :- CutU16(r2);
    if nameType != 0 || listLen != 1 + 2 + nameLen as int then Err(BadServerName)
    else
      var (name, r4) :- Cut(r3, nameLen);
      if r4 != [] || !Utf8(name) then Err(BadServerName) else Ok(name)
  }

  function ReadShares(w: bytes, left: int, key: Option<bytes>): (r: Result<(Option<bytes>, bytes), TlsError>)
    decreases |w|
  {
    if left <= 0 then Ok((key, w))
    else
      var (group, r1) :- CutU16(w);
      var (klen, r2) :- CutU16(r1);
      var (share, r3) :- Cut(r2, klen);
      ReadShares(r3, left - 4 - klen, if group == GROUP_X25519 && klen == 32 && key.None? then Some(share) else key)
  }

  function ReadKeyShare(data: bytes, key: Option<bytes>): Result<Option<bytes>, TlsError> {
    var (sharesLen, r1) :- CutU16(data);
    var (found, r2) :- ReadShares(r1, sharesLen, key);
    if r2 != [] then Err(LengthMismatch) else Ok(found)
  }

  function ReadVersionList(w: bytes, n: nat, seen: bool): Result<(bool, bytes), TlsError> {
    if n == 0 then Ok((seen, w))
    else
      var (v, rest) :- CutU16(w);
      ReadVersionList(rest, n - 1, seen || v == 0x0304)
  }

  function ReadVersions(data: bytes, seen: bool): Result<bool, TlsError> {
    var (listBytes, r1) :- CutU8(data);
    if listBytes % 2 != 0 then Err(LengthMismatch)
    else
      var (found, r2) :- ReadVersionList(r1, listBytes / 2, seen);
      if r2 != [] then Err(LengthMismatch) else Ok(found)
  }

  /** What one extension contributes. */
  function Interpret(e: Ext, s: Seen): Result<Seen, TlsError> {
    if e.kind == EXT_SERVER_NAME then
      var name :- ReadServerName(e.data);
      Ok(s.(sni := Some(name)))
    else if e.kind == EXT_KEY_SHARE then
      var key :- ReadKeyShare(e.data, s.key);
      Ok(s.(key := key))
    else if e.kind == EXT_SUPPORTED_VERSIONS then
      var tls13 :- ReadVersions(e.data, s.tls13);
      Ok(s.(tls13 := tls13))
    else Ok(s)
  }

  function ReadExts(w: bytes, left: nat, s: Seen): Result<(Seen, bytes), TlsError>
    decreases left
  {
    if left == 0 then Ok((s, w))
    else
      var (kind, r1) :- CutU16(w);
      var (len, r2) :- CutU16(r1);
      if 4 + len > left then Err(LengthMismatch)
      else
        var (data, r3) :- Cut(r2, len);
        var s1 :- Interpret(Ext(kind, data), s);
        ReadExts(r3, left - 4 - len, s1)
  }

  /** The handshake body inside a record: both declared lengths must match exactly. */
  function RecordBody(wire: bytes): Result<bytes, TlsError> {
    var (content, r1) :- CutU8(wire);
    if content != 0x16 then Err(BadRecordType)
    else
      var (version, r2) :- Cut(r1, 2);
      if version[0] != 0x03 || version[1] > 0x03 then Err(BadRecordVersion)
      else
        var (recordLen, r3) :- CutU16(r2);
        if |r3| != recordLen then Err(LengthMismatch)
        else
          var (message, r4) :- CutU8(r3);
          if message != 0x01 then Err(BadRecordType)
          else
            var (bodyLen, r5) :- CutU24(r4);
            if |r5| != bodyLen then Err(LengthMismatch) else Ok(r5)
  }

  /** The fixed front of the body: random, session id, and what follows them. */
  function BodyFront(w: bytes): (r: Result<(bytes, bytes, bytes), TlsError>)
    ensures r.Ok? ==> |r.value.0| == 32
  {
    var (_, r1) :- Cut(w, 2);
    var (random, r2) :- Cut(r1, 32);
    var (sidLen, r3) :- CutU8(r2);
    if sidLen > 32 then Err(ShortIdTooLong)
    else
      var (sessionId, r4) :- Cut(r3, sidLen);
      Ok((random, sessionId, r4))
  }

  /** Past the cipher suites and compression methods: the declared extension length and the bytes after it. */
  function ExtensionBlock(w: bytes): Result<(u16, bytes), TlsError> {
    var (cipherLen, r1) :- CutU16(w);
    if cipherLen % 2 != 0 then Err(LengthMismatch)
    else
      var (_, r2) :- Cut(r1, cipherLen);
      var (compLen, r3) :- CutU8(r2);
      var (_, r4) :- Cut(r3, compLen);
      CutU16(r4)
  }

  /** The hello a wire record carries. */
  function ReadHello(wire: bytes): (r: Result<ParsedClientHello, TlsError>)
    ensures r.Ok? ==> |r.value.random| == 32
  {
    var body :- RecordBody(wire);
    var (random, sessionId, tail) :- BodyFront(body);
    var (extTotal, exts) :- ExtensionBlock(tail);
    var (seen, rest) :- ReadExts(exts, extTotal, Seen(None, None, false));
    if rest != [] then Err(TrailingBytes)
    else if seen.key.None? then Err(NoX25519KeyShare)
    else Ok(ParsedClientHello(seen.sni, random, sessionId, seen.key.value, seen.tls13))
  }

  // ---- parsing inverts building ----

  lemma CutHead(a: bytes, b: bytes)
    ensures Cut(a + b, |a|) == Ok((a, b))
  {
    assert (a + b)[..|a|] == a && (a + b)[|a|..] == b;
  }

  lemma CutHeadU8(b: byte, rest: bytes)
    ensures CutU8([b] + rest) == Ok((b, rest))
  {
    CutHead([b], rest);
  }

  lemma CutHeadU16(n: nat, rest: bytes)
    ensures CutU16(PutU16(n) + rest) == Ok((n % 0x1_0000, rest))
  {
    CutHead(PutU16(n), rest);
  }

  function Fold(es: seq<Ext>, s: Seen): Result<Seen, TlsError> {
    if es == [] then Ok(s)
    else
      var s1 :- Interpret(es[0], s);
      Fold(es[1..], s1)
  }

  predicate Short(es: seq<Ext>) { forall i | 0 <= i < |es| :: |es[i].data| < 0x1_0000 }

  /** One extension at the front, its two header fields given by their bytes. */
  lemma ReadExtsStep(k2: bytes, l2: bytes, data: bytes, rest: bytes, left: nat, s: Seen)
    requires |k2| == 2 && |l2| == 2 && U16(l2[0], l2[1]) == |data| && 4 + |data| <= left
    ensures ReadExts(k2 + (l2 + (data + rest)), left, s) ==
            var t :- Interpret(Ext(U16(k2[0], k2[1]), data), s); ReadExts(rest, left - 4 - |data|, t)
  {
    CutHead(k2, l2 + (data + rest));
    CutHead(l2, data + rest);
    CutHead(data, rest);
  }

  lemma ExtsBytesCons(es: seq<Ext>)
    requires es != []
    ensures ExtsBytes(es) == PutU16(es[0].kind) + (PutU16(|es[0].data|) + (es[0].data + ExtsBytes(es[1..])))
  {
    Nest(PutU16(es[0].kind), PutU16(|es[0].data|), es[0].data, ExtsBytes(es[1..]));
  }

  lemma Nest(a: bytes, b: bytes, c: bytes, d: bytes)
    ensures a + b + c + d == a + (b + (c + d))
  {
  }

  /** Reading an encoded extension list is folding its meaning over it. */
  lemma {:induction false} ReadExtsInverts(es: seq<Ext>, s: Seen)
    requires Short(es)
    ensures ReadExts(ExtsBytes(es), ExtsLen(es), s) ==
            var t :- Fold(es, s); Ok((t, []))
    decreases |es|
  {
    if es != [] {
      var e, rest := es[0], es[1..];
      ExtsBytesCons(es);
      ReadExtsStep(PutU16(e.kind), PutU16(|e.data|), e.data, ExtsBytes(rest), ExtsLen(es), s);
      if Interpret(e, s).Ok? { ReadExtsInverts(rest, Interpret(e, s).value); }
    }
  }

  lemma {:induction false} FoldAppend(a: seq<Ext>, b: seq<Ext>, s: Seen)
    requires Fold(a, s).Ok?
    ensures Fold(a + b, s) == Fold(b, Fold(a, s).value)
    decreases |a|
  {
    if a == [] {
      assert a + b == b;
    } else {
      assert (a + b)[1..] == a[1..] + b;
      FoldAppend(a[1..], b, Interpret(a[0], s).value);
    }
  }

  lemma {:induction false} FoldIgnored(es: seq<Ext>, s: Seen)
    requires forall i | 0 <= i < |es| :: Ignored(es[i])
    ensures Fold(es, s) == Ok(s)
  {
    if es != [] { FoldIgnored(es[1..], s); }
  }

  lemma ReadServerNameOf(l2: bytes, n2: bytes, host: bytes)
    requires |l2| == 2 && |n2| == 2 && U16(l2[0], l2[1]) == 3 + |host| && U16(n2[0], n2[1]) == |host|
    requires Utf8(host)
    ensures ReadServerName(l2 + [0] + n2 + host) == Ok(host)
  {
    Nest(l2, [0], n2, host + []);
    assert host + [] == host;
    CutHead(l2, [0] + (n2 + host));
    CutHeadU8(0, n2 + host);
    CutHead(n2, host);
    CutHead(host, []);
  }

  lemma InterpretServerName(host: bytes, s: Seen)
    requires Utf8(host) && |host| + 5 < 0x1_0000
    ensures Interpret(ServerName(host), s) == Ok(s.(sni := Some(host)))
  {
    ReadServerNameOf(PutU16(3 + |host|), PutU16(|host|), host);
  }

  lemma InterpretKeyShare(key: bytes, s: Seen)
    requires |key| == 32 && s.key.None?
    ensures Interpret(KeyShare(key), s) == Ok(s.(key := Some(key)))
  {
    var share := PutU16(GROUP_X25519) + (PutU16(32) + (key + []));
    assert KeyShare(key).data == PutU16(36) + share;
    CutHeadU16(36, share);
    CutHeadU16(GROUP_X25519, PutU16(32) + (key + []));
    CutHeadU16(32, key + []);
    CutHead(key, []);
    assert ReadShares([], 0, Some(key)) == Ok((Some(key), []));
  }

  lemma InterpretVersions(s: Seen)
    ensures Interpret(VERSIONS, s) == Ok(s.(tls13 := true))
  {
    var list: bytes := [0x0a, 0x0a, 0x03, 0x04, 0x03, 0x03];
    assert VERSIONS.data[1..] == list;
    assert list[2..] == [0x03, 0x04, 0x03, 0x03] && list[2..][2..] == [0x03, 0x03] && list[2..][2..][2..] == [];
    assert ReadVersionList(list, 3, s.tls13) == ReadVersionList(list[2..], 2, s.tls13);
    assert ReadVersionList(list[2..], 2, s.tls13) == ReadVersionList(list[2..][2..], 1, true);
    assert ReadVersionList(list[2..][2..], 1, true) == ReadVersionList(list[2..][2..][2..], 0, true);
  }

  predicate Browserlike(middle: seq<Ext>) {
    Short(middle) && ExtsLen(middle) == 153 && forall i | 0 <= i < |middle| :: Ignored(middle[i])
  }

  lemma ExtsLenFrom(es: seq<Ext>, i: nat)
    requires i < |es|
    ensures ExtsLen(es[i..]) == 4 + |es[i].data| + ExtsLen(es[i + 1..])
  {
    assert es[i..][1..] == es[i + 1..];
  }

  lemma ExtsLenEmpty()
    ensures ExtsLen([]) == 0
  {
  }

  lemma BrowserExtsBack(es: seq<Ext>)
    requires |es| == 15 && forall i | 10 <= i < 15 :: es[i] == BrowserExt(i)
    ensures ExtsLen(es[10..]) == 42
  {
    hide ExtsLen, Ignored;
    assert es[15..] == [] && ExtsLen([]) == 0 by { ExtsLenEmpty(); }
    ExtsLenFrom(es, 14); ExtsLenFrom(es, 13); ExtsLenFrom(es, 12); ExtsLenFrom(es, 11); ExtsLenFrom(es, 10);
  }

  lemma BrowserExtsMiddle(es: seq<Ext>)
    requires |es| == 15 && forall i | 5 <= i < 10 :: es[i] == BrowserExt(i)
    ensures ExtsLen(es[5..]) == 48 + ExtsLen(es[10..])
  {
    hide ExtsLen, Ignored;
    ExtsLenFrom(es, 9); ExtsLenFrom(es, 8); ExtsLenFrom(es, 7); ExtsLenFrom(es, 6); ExtsLenFrom(es, 5);
  }

  lemma BrowserExtsFront(es: seq<Ext>)
    requires |es| == 15 && forall i | 0 <= i < 5 :: es[i] == BrowserExt(i)
    ensures ExtsLen(es) == 63 + ExtsLen(es[5..])
  {
    hide ExtsLen, Ignored;
    ExtsLenFrom(es, 4); ExtsLenFrom(es, 3); ExtsLenFrom(es, 2); ExtsLenFrom(es, 1); ExtsLenFrom(es, 0);
    assert es[0..] == es;
  }

  lemma BrowserExtsAreBrowserlike()
    ensures Browserlike(BrowserExts(BROWSER_EXT_COUNT))
  {
    hide ExtsLen, Ignored, BrowserExt, BrowserExts;
    var es := BrowserExts(BROWSER_EXT_COUNT);
    BrowserExtsBack(es);
    BrowserExtsMiddle(es);
    BrowserExtsFront(es);
  }

  lemma FoldTwo(e: Ext, f: Ext, s: Seen)
    requires Interpret(e, s).Ok?
    ensures Fold([e, f], s) == Interpret(f, Interpret(e, s).value)
    ensures Fold([e], s) == Interpret(e, s)
  {
    assert [e, f][1..] == [f] && [f][1..] == [] && [e][1..] == [];
    var t := Interpret(f, Interpret(e, s).value);
    assert Fold([f], Interpret(e, s).value) == t;
  }

  lemma FoldAfterIgnored(e: Ext, f: Ext, s: Seen)
    requires Ignored(e)
    ensures Fold([e] + [f], s) == Interpret(f, s)
  {
    assert [e] + [f] == [e, f];
    FoldTwo(e, f, s);
  }

  lemma FoldFront(sni: Option<bytes>)
    requires sni.Some? ==> Utf8(sni.value) && |sni.value| + 5 < 0x1_0000
    ensures Fold([GREASE] + SniExts(sni), Seen(None, None, false)) == Ok(Seen(sni, None, false))
  {
    var s0 := Seen(None, None, false);
    if sni.Some? {
      InterpretServerName(sni.value, s0);
      FoldAfterIgnored(GREASE, ServerName(sni.value), s0);
    } else {
      FoldTwo(GREASE, GREASE, s0);
      assert [GREASE] + SniExts(sni) == [GREASE];
    }
  }

  lemma FoldOffer(key: bytes, s: Seen)
    requires |key| == 32 && s.key.None?
    ensures Fold([VERSIONS, KeyShare(key)], s) == Ok(Seen(s.sni, Some(key), true))
  {
    InterpretVersions(s);
    InterpretKeyShare(key, s.(tls13 := true));
    FoldTwo(VERSIONS, KeyShare(key), s);
  }

  lemma FoldExtensions(middle: seq<Ext>, sni: Option<bytes>, key: bytes)
    requires Browserlike(middle) && |key| == 32
    requires sni.Some? ==> Utf8(sni.value) && |sni.value| + 5 < 0x1_0000
    ensures Fold(Extensions(middle, sni, key), Seen(None, None, false)) == Ok(Seen(sni, Some(key), true))
  {
    hide Fold, KeyShare, SniExts, Utf8, ExtsLen, SniOverhead;
    var s0, s1, s2 := Seen(None, None, false), Seen(sni, None, false), Seen(sni, Some(key), true);
    var padding := PaddingExts(ExtsLen(OfferedExts(middle, sni, key)) + SniOverhead(sni));
    FoldFront(sni);
    FoldIgnored(middle, s1);
    FoldOffer(key, s1);
    FoldIgnored(padding, s2);
    FoldFour([GREASE] + SniExts(sni), middle, [VERSIONS, KeyShare(key)], padding, s0);
  }

  lemma FoldFour(a: seq<Ext>, b: seq<Ext>, c: seq<Ext>, d: seq<Ext>, s: Seen)
    requires Fold(a, s).Ok? && Fold(b, Fold(a, s).value).Ok? && Fold(c, Fold(b, Fold(a, s).value).value).Ok?
    ensures Fold(a + b + c + d, s) == Fold(d, Fold(c, Fold(b, Fold(a, s).value).value).value)
  {
    FoldAppend(a, b, s);
    FoldAppend(a + b, c, s);
    FoldAppend(a + b + c, d, s);
  }

  lemma {:induction false} ExtsLenAppend(a: seq<Ext>, b: seq<Ext>)
    ensures ExtsLen(a + b) == ExtsLen(a) + ExtsLen(b)
  {
    ExtsAppend(a, b);
  }

  /** The arithmetic behind the padding: 210 bytes of extensions besides the server name. */
  lemma OfferedLen(middle: seq<Ext>, sni: Option<bytes>, key: bytes)
    requires Browserlike(middle) && |key| == 32
    ensures ExtsLen(OfferedExts(middle, sni, key)) == 210 + SniOverhead(sni)
  {
    var front, offer := [GREASE] + SniExts(sni), [VERSIONS, KeyShare(key)];
    ExtsLenAppend(front, middle);
    ExtsLenAppend(front + middle, offer);
    assert ExtsLen(offer) == 53 by { assert offer[1..] == [KeyShare(key)] && offer[1..][1..] == []; }
    assert ExtsLen(front) == 4 + SniOverhead(sni) by {
      assert front[1..] == SniExts(sni) && (sni.Some? ==> SniExts(sni)[1..] == []);
    }
  }

  /** Size of the extension block: padded short of the boundary, otherwise what was offered. */
  function ExtensionsSize(sni: Option<bytes>): nat {
    var offered := 210 + SniOverhead(sni);
    if offered + SniOverhead(sni) < 508 then 512 - SniOverhead(sni) else offered
  }

  lemma ExtensionsLen(middle: seq<Ext>, sni: Option<bytes>, key: bytes)
    requires Browserlike(middle) && |key| == 32 && (sni.Some? ==> |sni.value| != 141)
    ensures |ExtsBytes(Extensions(middle, sni, key))| == ExtensionsSize(sni)
  {
    hide OfferedExts, ExtsBytes;
    OfferedLen(middle, sni, key);
    var offered := OfferedExts(middle, sni, key);
    var total := ExtsLen(offered) + SniOverhead(sni);
    ExtsLenAppend(offered, PaddingExts(total));
    if PaddingLen(total) > 0 { assert PaddingExts(total)[1..] == []; }
  }

  lemma ShortExtensions(middle: seq<Ext>, sni: Option<bytes>, key: bytes)
    requires Browserlike(middle) && |key| == 32 && (sni.Some? ==> |sni.value| + 5 < 0x1_0000)
    ensures Short(Extensions(middle, sni, key))
  {
  }

  /** Handshake message length: header, fixed fields, session id, extensions. */
  function HandshakeLen(sni: Option<bytes>, sessionId: bytes): nat { 4 + 73 + |sessionId| + ExtensionsSize(sni) }

  lemma ExtensionBlockOf(s2: bytes, suites: bytes, e2: bytes, exts: bytes)
    requires |s2| == 2 && |e2| == 2 && U16(s2[0], s2[1]) == |suites| && |suites| % 2 == 0
    ensures ExtensionBlock(s2 + (suites + ([0x01] + ([0x00] + (e2 + exts))))) == Ok((U16(e2[0], e2[1]), exts))
  {
    var r4 := e2 + exts;
    CutHead(s2, suites + ([0x01] + ([0x00] + r4)));
    CutHead(suites, [0x01] + ([0x00] + r4));
    CutHeadU8(0x01, [0x00] + r4);
    CutHead([0x00], r4);
    CutHead(e2, exts);
  }

  lemma ExtensionBlockInverts(suites: bytes, exts: bytes)
    requires |suites| < 0x1_0000 && |suites| % 2 == 0 && |exts| < 0x1_0000
    ensures ExtensionBlock(Tail(suites, exts)) == Ok((|exts|, exts))
  {
    ExtensionBlockOf(PutU16(|suites|), suites, PutU16(|exts|), exts);
  }

  lemma BodyFrontInverts(random: bytes, sessionId: bytes, tail: bytes)
    requires |random| == 32 && |sessionId| <= 32
    ensures BodyFront(Body(random, sessionId, tail)) == Ok((random, sessionId, tail))
  {
    var r3 := sessionId + tail;
    CutHead([0x03, 0x03], random + ([|sessionId|] + r3));
    CutHead(random, [|sessionId|] + r3);
    CutHeadU8(|sessionId|, r3);
    CutHead(sessionId, tail);
  }

  lemma RecordBodyInverts(body: bytes)
    ensures RecordBody(Record(body)) == if 4 + |body| < 0x1_0000 then Ok(body) else Err(LengthMismatch)
  {
    var l2, l3 := PutU16(4 + |body|), PutU24(|body|);
    RecordBodyOf(l2, l3, body);
  }

  lemma RecordBodyOf(l2: bytes, l3: bytes, body: bytes)
    requires |l2| == 2 && |l3| == 3
    ensures RecordBody([0x16] + ([0x03, 0x01] + (l2 + ([0x01] + (l3 + body))))) ==
            if U16(l2[0], l2[1]) == 4 + |body|
                && U24(l3[0], l3[1], l3[2]) == |body| then Ok(body) else Err(LengthMismatch)
  {
    var r4 := l3 + body;
    var r3 := [0x01] + r4;
    var r2 := l2 + r3;
    CutHeadU8(0x16, [0x03, 0x01] + r2);
    CutHead([0x03, 0x01], r2);
    CutHead(l2, r3);
    CutHeadU8(0x01, r4);
    CutHead(l3, body);
  }

  /** A hello read piece by piece. */
  lemma ReadHelloFrom(wire: bytes, body: bytes, random: bytes, sessionId: bytes, tail: bytes, exts: bytes, seen: Seen)
    requires RecordBody(wire) == Ok(body) && BodyFront(body) == Ok((random, sessionId, tail))
    requires |exts| < 0x1_0000 && ExtensionBlock(tail) == Ok((|exts|, exts))
    requires ReadExts(exts, |exts|, Seen(None, None, false)) == Ok((seen, [])) && seen.key.Some?
    ensures ReadHello(wire) == Ok(ParsedClientHello(seen.sni, random, sessionId, seen.key.value, seen.tls13))
  {
  }

  /**
    * Parsing a built hello returns exactly the server name, random, session id and key it was built from,
    * with TLS 1.3 on offer, precisely when the handshake length fits the record's 16 bits.
    */
  lemma ParseInvertsBuildHello(sni: Option<bytes>, key: bytes, random: bytes, sessionId: bytes)
    requires |key| == 32 && |random| == 32 && |sessionId| <= 32
    requires sni.Some? ==> Utf8(sni.value) && |sni.value| != 141
    ensures ReadHello(HelloBytes(sni, key, random, sessionId)) ==
            if HandshakeLen(sni, sessionId) < 0x1_0000 then Ok(ParsedClientHello(sni, random, sessionId, key, true))
            else Err(LengthMismatch)
  {
    BrowserExtsAreBrowserlike();
    ParseInvertsLayout(BrowserExts(BROWSER_EXT_COUNT), CIPHER_SUITES, sni, key, random, sessionId);
  }

  lemma ParseInvertsLayout(middle: seq<Ext>, suites: bytes, sni: Option<bytes>, key: bytes, random: bytes,
                           sessionId: bytes)
    requires Browserlike(middle) && |suites| == 32
    requires |key| == 32 && |random| == 32 && |sessionId| <= 32
    requires sni.Some? ==> Utf8(sni.value) && |sni.value| != 141
    ensures ReadHello(Record(Body(random, sessionId, Tail(suites, ExtsBytes(Extensions(middle, sni, key)))))) ==
            if HandshakeLen(sni, sessionId) < 0x1_0000 then Ok(ParsedClientHello(sni, random, sessionId, key, true))
            else Err(LengthMismatch)
  {
    var es := Extensions(middle, sni, key);
    var exts := ExtsBytes(es);
    var tail := Tail(suites, exts);
    var body := Body(random, sessionId, tail);
    ExtensionsLen(middle, sni, key);
    assert 4 + |body| == HandshakeLen(sni, sessionId);
    RecordBodyInverts(body);
    if HandshakeLen(sni, sessionId) < 0x1_0000 {
      var s0, s2 := Seen(None, None, false), Seen(sni, Some(key), true);
      assert ReadExts(exts, |exts|, s0) == Ok((s2, [])) by {
        FoldExtensions(middle, sni, key);
        ShortExtensions(middle, sni, key);
        ReadExtsInverts(es, s0);
      }
      BodyFrontInverts(random, sessionId, tail);
      ExtensionBlockInverts(suites, exts);
      ReadHelloFrom(Record(body), body, random, sessionId, tail, exts, s2);
    }
  }

  /** The build aborts on exactly one server-name length. */
  lemma PaddingUnderflowsOnlyAt141(sni: Option<bytes>, key: bytes)
    requires |key| == 32
    ensures PaddingLen(ExtsLen(OfferedExts(BrowserExts(BROWSER_EXT_COUNT), sni, key)) + SniOverhead(sni)) < 0
            <==> sni.Some? && |sni.value| == 141
  {
    BrowserExtsAreBrowserlike();
    OfferedLen(BrowserExts(BROWSER_EXT_COUNT), sni, key);
  }

  // ---- patching the session id in place ----

  function Patched(hello: bytes, sessionId: bytes): bytes
    requires |hello| >= SESSION_ID_OFFSET + |sessionId|
  {
    hello[..SESSION_ID_OFFSET] + sessionId + hello[SESSION_ID_OFFSET + |sessionId|..]
  }

  function HelloFront(random: bytes, tail: bytes): bytes {
    [0x16, 0x03, 0x01] + PutU16(71 + |tail|) + [0x01] + PutU24(67 + |tail|) + [0x03, 0x03] + random + [32]
  }

  lemma HelloSplit(random: bytes, sid: bytes, tail: bytes)
    requires |random| == 32 && |sid| == 32
    ensures Record(Body(random, sid, tail)) == HelloFront(random, tail) + sid + tail
    ensures |HelloFront(random, tail)| == SESSION_ID_OFFSET
  {
    var len, blen := PutU16(71 + |tail|), PutU24(67 + |tail|);
    var body := Body(random, sid, tail);
    assert body == [0x03, 0x03] + random + [32] + sid + tail;
    assert Record(body) == [0x16, 0x03, 0x01] + len + [0x01] + blen + body;
  }

  lemma PatchedMiddle(front: bytes, a: bytes, b: bytes, tail: bytes)
    requires |front| == SESSION_ID_OFFSET && |a| == |b|
    ensures Patched(front + a + tail, b) == front + b + tail
  {
  }

  /** Building with one 32-byte session id and patching in another equals building with the other. */
  lemma PatchEqualsRebuild(sni: Option<bytes>, key: bytes, random: bytes, a: bytes, b: bytes)
    requires |random| == 32 && |a| == 32 && |b| == 32
    ensures |HelloBytes(sni, key, random, a)| >= SESSION_ID_OFFSET + 32
    ensures Patched(HelloBytes(sni, key, random, a), b) == HelloBytes(sni, key, random, b)
  {
    var tail := HelloTail(sni, key);
    HelloSplit(random, a, tail);
    HelloSplit(random, b, tail);
    PatchedMiddle(HelloFront(random, tail), a, b, tail);
  }
}
