/**
  * The grammar of the hellos the parser accepts, malformed ones included that it lets pass: a hello is accepted, and
  * read as something, exactly if it is written by this grammar and means that.
  */
module HelloGrammar {
  import opened Bytes
  import opened ClientHello

  // ---- the grammar ----

  datatype Share = Share(group: u16, key: bytes)

  /** An extension: server_name, supported_versions, key_share with the length it declares, or one that is skipped. */
  datatype Part =
    | Name(host: bytes) | Versions(list: seq<u16>) | Shares(declared: u16, shares: seq<Share>)
    | Other(kind: u16, data: bytes)

  datatype Hello = Hello(recordVersion: byte, version: bytes, random: bytes, sessionId: bytes, suites: bytes,
                         compression: bytes, parts: seq<Part>)

  function SharesBytes(xs: seq<Share>): bytes {
    if xs == [] then [] else PutU16(xs[0].group) + (PutU16(|xs[0].key|) + (xs[0].key + SharesBytes(xs[1..])))
  }

  function VersionsBytes(vs: seq<u16>): (r: bytes)
    ensures |r| == 2 * |vs|
  {
    if vs == [] then [] else PutU16(vs[0]) + VersionsBytes(vs[1..])
  }

  function KindOf(p: Part): u16 {
    match p
    case Name(_) => 0x0000
    case Versions(_) => 0x002b
    case Shares(_, _) => 0x0033
    case Other(kind, _) => kind
  }

  function DataOf(p: Part): bytes {
    match p
    case Name(host) => PutU16(3 + |host|) + [0x00] + PutU16(|host|) + host
    case Versions(list) => [2 * |list| % 256] + VersionsBytes(list)
    case Shares(declared, shares) => PutU16(declared) + SharesBytes(shares)
    case Other(_, data) => data
  }

  /** The declared length of a share list ends inside the last share or at its end: the parser does not look closer. */
  predicate Covers(left: int, xs: seq<Share>) {
    if xs == [] then left <= 0 else left > 0 && Covers(left - 4 - |xs[0].key|, xs[1..])
  }

  predicate ShortShares(xs: seq<Share>) { forall k | 0 <= k < |xs| :: |xs[k].key| < 0x1_0000 }

  predicate LegalPart(p: Part) {
    && |DataOf(p)| < 0x1_0000
    && match p
       case Name(host) => Utf8(host)
       case Versions(list) => |list| < 128
       case Shares(declared, shares) => ShortShares(shares) && Covers(declared, shares)
       case Other(kind, _) => kind != 0x0000 && kind != 0x002b && kind != 0x0033
  }

  function PartsBytes(ps: seq<Part>): bytes {
    if ps == [] then [] else PutU16(KindOf(ps[0])) + (PutU16(|DataOf(ps[0])|) + (DataOf(ps[0]) + PartsBytes(ps[1..])))
  }

  /** The first x25519 share of 32 bytes. */
  function FirstX25519(xs: seq<Share>): Option<bytes> {
    if xs == [] then None
    else if xs[0].group == 0x001d && |xs[0].key| == 32 then Some(xs[0].key)
    else FirstX25519(xs[1..])
  }

  /** The last name counts, the first key, and TLS 1.3 offered anywhere. */
  function Told(p: Part, s: Seen): Seen {
    match p
    case Name(host) => s.(sni := Some(host))
    case Versions(list) => s.(tls13 := s.tls13 || 0x0304 in list)
    case Shares(_, shares) => if s.key.Some? then s else s.(key := FirstX25519(shares))
    case Other(_, _) => s
  }

  function ToldAll(ps: seq<Part>, s: Seen): Seen {
    if ps == [] then s else ToldAll(ps[1..], Told(ps[0], s))
  }

  function TailOf(g: Hello): bytes {
    PutU16(|g.suites|) + (g.suites + ([|g.compression| % 256] + (g.compression
    + (PutU16(|PartsBytes(g.parts)|) + PartsBytes(g.parts)))))
  }

  function BodyOf(g: Hello): bytes { g.version + (g.random + ([|g.sessionId| % 256] + (g.sessionId + TailOf(g)))) }

  function HelloOf(g: Hello): bytes {
    [0x16] + ([0x03, g.recordVersion] + (PutU16(4 + |BodyOf(g)|) + ([0x01] + (PutU24(|BodyOf(g)|) + BodyOf(g)))))
  }

  predicate LegalParts(ps: seq<Part>) { forall k | 0 <= k < |ps| :: LegalPart(ps[k]) }

  predicate LegalHello(g: Hello) {
    && g.recordVersion <= 0x03 && |g.version| == 2 && |g.random| == 32 && |g.sessionId| <= 32
    && |g.suites| < 0x1_0000 && |g.suites| % 2 == 0 && |g.compression| < 256
    && LegalParts(g.parts) && 4 + |BodyOf(g)| < 0x1_0000
    && ToldAll(g.parts, Seen(None, None, false)).key.Some?
  }

  function ReadAs(g: Hello): ParsedClientHello
    requires LegalHello(g)
  {
    var s := ToldAll(g.parts, Seen(None, None, false));
    ParsedClientHello(s.sni, g.random, g.sessionId, s.key.value, s.tls13)
  }

  // ---- what a cut takes off ----

  lemma CutIs(w: bytes, n: nat)
    requires Cut(w, n).Ok?
    ensures w == Cut(w, n).value.0 + Cut(w, n).value.1
  {
  }

  lemma CutU8Is(w: bytes)
    requires CutU8(w).Ok?
    ensures w == [CutU8(w).value.0] + CutU8(w).value.1
  {
  }

  lemma Rejoin(a: byte, b: byte)
    ensures PutU16(U16(a, b)) == [a, b]
  {
    U16Value(a, b);
    var n := U16(a, b);
    assert n / 256 == a && n % 256 == b;
    hide U16;
  }

  lemma CutU16Is(w: bytes)
    requires CutU16(w).Ok?
    ensures w == PutU16(CutU16(w).value.0) + CutU16(w).value.1
  {
    Rejoin(w[0], w[1]);
    hide PutU16, U16;
  }

  lemma CutU24Is(w: bytes)
    requires CutU24(w).Ok?
    ensures w == PutU24(CutU24(w).value.0) + CutU24(w).value.1
  {
    Rejoin24(w[0], w[1], w[2]);
    hide PutU24, U24;
  }

  lemma Wide(high: nat, low: u16)
    ensures (high * 65536 + low) / 65536 == high && (high * 65536 + low) % 65536 == low
  {
  }

  lemma Narrow(high: byte, low: byte)
    ensures high * 256 + low < 65536 && (high * 256 + low) / 256 == high && (high * 256 + low) % 256 == low
  {
  }

  lemma Rejoin24(a: byte, b: byte, c: byte)
    ensures PutU24(U24(a, b, c)) == [a, b, c]
  {
    Narrow(b, c);
    Wide(a, b * 256 + c);
    var n := U24(a, b, c);
    assert n == a * 65536 + (b * 256 + c);
  }

  // ---- shares ----

  function Picked(key: Option<bytes>, xs: seq<Share>): Option<bytes> { if key.Some? then key else FirstX25519(xs) }

  lemma {:induction false} SharesRead(w: bytes, left: int, key: Option<bytes>) returns (xs: seq<Share>)
    requires ReadShares(w, left, key).Ok?
    ensures ShortShares(xs) && Covers(left, xs) && w == SharesBytes(xs) + ReadShares(w, left, key).value.1
    ensures ReadShares(w, left, key).value.0 == Picked(key, xs)
    decreases |w|
  {
    hide CutU16, Cut, PutU16;
    if left <= 0 { return []; }
    var (group, r1) := CutU16(w).value;
    var (klen, r2) := CutU16(r1).value;
    var (share, r3) := Cut(r2, klen).value;
    CutU16Is(w);
    CutU16Is(r1);
    CutIs(r2, klen);
    var next := if group == GROUP_X25519 && klen == 32 && key.None? then Some(share) else key;
    var rest := SharesRead(r3, left - 4 - klen, next);
    xs := [Share(group, share)] + rest;
    assert xs[1..] == rest;
    Nest(PutU16(group), PutU16(klen), share, r3);
    ShareJoins(PutU16(group), PutU16(klen), share, SharesBytes(rest), ReadShares(r3, left - 4 - klen, next).value.1);
  }

  lemma ShareJoins(a: bytes, b: bytes, c: bytes, d: bytes, e: bytes)
    ensures a + (b + (c + (d + e))) == a + (b + (c + d)) + e
  {
  }

  lemma {:induction false} SharesOf(xs: seq<Share>, left: int, key: Option<bytes>, rest: bytes)
    requires ShortShares(xs) && Covers(left, xs)
    ensures ReadShares(SharesBytes(xs) + rest, left, key) == Ok((Picked(key, xs), rest))
    decreases |xs|
  {
    hide CutU16, Cut, PutU16;
    if xs == [] {
      assert [] + rest == rest;
    } else {
      var x, more := xs[0], SharesBytes(xs[1..]) + rest;
      ShareJoins(PutU16(x.group), PutU16(|x.key|), x.key, SharesBytes(xs[1..]), rest);
      CutHeadU16(x.group, PutU16(|x.key|) + (x.key + more));
      CutHeadU16(|x.key|, x.key + more);
      CutHead(x.key, more);
      var next := if x.group == GROUP_X25519 && |x.key| == 32 && key.None? then Some(x.key) else key;
      SharesOf(xs[1..], left - 4 - |x.key|, next, rest);
    }
  }

  // ---- versions ----

  lemma {:induction false} VersionsRead(w: bytes, n: nat, seen: bool) returns (vs: seq<u16>)
    requires ReadVersionList(w, n, seen).Ok?
    ensures |vs| == n && w == VersionsBytes(vs) + ReadVersionList(w, n, seen).value.1
    ensures ReadVersionList(w, n, seen).value.0 == (seen || 0x0304 in vs)
    decreases n
  {
    hide CutU16, PutU16;
    if n == 0 { return []; }
    var (v, rest) := CutU16(w).value;
    CutU16Is(w);
    var more := VersionsRead(rest, n - 1, seen || v == 0x0304);
    vs := [v] + more;
    assert vs[1..] == more;
    var last := ReadVersionList(rest, n - 1, seen || v == 0x0304).value.1;
    assert PutU16(v) + (VersionsBytes(more) + last) == PutU16(v) + VersionsBytes(more) + last;
  }

  lemma {:induction false} VersionsOf(vs: seq<u16>, seen: bool, rest: bytes)
    ensures ReadVersionList(VersionsBytes(vs) + rest, |vs|, seen) == Ok((seen || 0x0304 in vs, rest))
    decreases |vs|
  {
    hide CutU16, PutU16;
    if vs == [] {
      assert [] + rest == rest;
    } else {
      var more := VersionsBytes(vs[1..]) + rest;
      assert VersionsBytes(vs) + rest == PutU16(vs[0]) + more;
      CutHeadU16(vs[0], more);
      VersionsOf(vs[1..], seen || vs[0] == 0x0304, rest);
      assert 0x0304 in vs <==> vs[0] == 0x0304 || 0x0304 in vs[1..];
    }
  }

  // ---- one extension ----

  lemma NameRead(data: bytes)
    requires ReadServerName(data).Ok?
    ensures var host := ReadServerName(data).value; Utf8(host) && data == DataOf(Name(host))
  {
    hide CutU16, CutU8, Cut, PutU16, Utf8;
    var (listLen, r1) := CutU16(data).value;
    var (nameType, r2) := CutU8(r1).value;
    var (nameLen, r3) := CutU16(r2).value;
    var (name, r4) := Cut(r3, nameLen).value;
    CutU16Is(data);
    CutU8Is(r1);
    CutU16Is(r2);
    CutIs(r3, nameLen);
    Nest(PutU16(listLen), [0x00], PutU16(nameLen), name);
  }

  lemma VersionsDataRead(data: bytes, seen: bool) returns (vs: seq<u16>)
    requires ReadVersions(data, seen).Ok?
    ensures |vs| < 128 && data == DataOf(Versions(vs)) && ReadVersions(data, seen).value == (seen || 0x0304 in vs)
  {
    hide CutU8, ReadVersionList, VersionsBytes;
    var (listBytes, r1) := CutU8(data).value;
    CutU8Is(data);
    vs := VersionsRead(r1, listBytes / 2, seen);
    assert VersionsBytes(vs) + [] == VersionsBytes(vs);
  }

  lemma SharesDataRead(data: bytes, key: Option<bytes>) returns (p: Part)
    requires ReadKeyShare(data, key).Ok?
    ensures p.Shares? && ShortShares(p.shares) && Covers(p.declared, p.shares) && data == DataOf(p)
    ensures ReadKeyShare(data, key).value == Picked(key, p.shares)
  {
    hide CutU16, ReadShares, SharesBytes, PutU16, ShortShares, Covers, Picked;
    var (sharesLen, r1) := CutU16(data).value;
    CutU16Is(data);
    var xs := SharesRead(r1, sharesLen, key);
    assert SharesBytes(xs) + [] == SharesBytes(xs);
    p := Shares(sharesLen, xs);
  }

  lemma PartRead(e: Ext, s: Seen) returns (p: Part)
    requires Interpret(e, s).Ok? && |e.data| < 0x1_0000
    ensures LegalPart(p) && e == Ext(KindOf(p), DataOf(p)) && Interpret(e, s).value == Told(p, s)
  {
    hide ReadServerName, ReadVersions, ReadKeyShare, Utf8, ShortShares, Covers, FirstX25519, DataOf;
    if e.kind == EXT_SERVER_NAME {
      NameRead(e.data);
      p := Name(ReadServerName(e.data).value);
    } else if e.kind == EXT_KEY_SHARE {
      p := SharesDataRead(e.data, s.key);
    } else if e.kind == EXT_SUPPORTED_VERSIONS {
      var vs := VersionsDataRead(e.data, s.tls13);
      p := Versions(vs);
    } else {
      p := Other(e.kind, e.data);
      assert DataOf(p) == e.data by { OtherIsItsData(p); }
    }
  }

  lemma OtherIsItsData(p: Part)
    requires p.Other?
    ensures DataOf(p) == p.data
  {
  }

  lemma VersionsDataOf(vs: seq<u16>, seen: bool)
    requires |vs| < 128
    ensures ReadVersions(DataOf(Versions(vs)), seen) == Ok(seen || 0x0304 in vs)
  {
    hide CutU8, VersionsBytes, ReadVersionList;
    CutHeadU8(2 * |vs|, VersionsBytes(vs));
    VersionsOf(vs, seen, []);
    assert VersionsBytes(vs) + [] == VersionsBytes(vs);
  }

  lemma SharesDataOf(declared: u16, xs: seq<Share>, key: Option<bytes>)
    requires ShortShares(xs) && Covers(declared, xs)
    ensures ReadKeyShare(DataOf(Shares(declared, xs)), key) == Ok(Picked(key, xs))
  {
    hide CutU16, SharesBytes, ReadShares, PutU16, ShortShares, Covers, Picked;
    CutHeadU16(declared, SharesBytes(xs));
    SharesOf(xs, declared, key, []);
    assert SharesBytes(xs) + [] == SharesBytes(xs);
  }

  lemma PartOf(p: Part, s: Seen)
    requires LegalPart(p)
    ensures Interpret(Ext(KindOf(p), DataOf(p)), s) == Ok(Told(p, s))
  {
    match p
    case Name(host) =>
      hide ReadServerName, Utf8, PutU16;
      ReadServerNameOf(PutU16(3 + |host|), PutU16(|host|), host);
    case Versions(list) =>
      hide ReadVersions, DataOf;
      VersionsDataOf(list, s.tls13);
    case Shares(declared, shares) =>
      hide ReadKeyShare, DataOf, FirstX25519, ShortShares, Covers;
      SharesDataOf(declared, shares, s.key);
    case Other(_, _) =>
  }

  // ---- the extension list ----

  lemma {:induction false} PartsRead(w: bytes, left: nat, s: Seen) returns (ps: seq<Part>)
    requires ReadExts(w, left, s).Ok?
    ensures LegalParts(ps) && |PartsBytes(ps)| == left && w == PartsBytes(ps) + ReadExts(w, left, s).value.1
    ensures ReadExts(w, left, s).value.0 == ToldAll(ps, s)
    decreases |w|
  {
    hide CutU16, Cut, PutU16, LegalPart, DataOf, KindOf, Interpret, Told;
    if left == 0 { return []; }
    var (kind, r1) := CutU16(w).value;
    var (len, r2) := CutU16(r1).value;
    var (data, r3) := Cut(r2, len).value;
    CutU16Is(w);
    CutU16Is(r1);
    CutIs(r2, len);
    var p := PartRead(Ext(kind, data), s);
    var rest := PartsRead(r3, left - 4 - len, Told(p, s));
    ps := [p] + rest;
    assert ps[1..] == rest;
    ShareJoins(PutU16(kind), PutU16(len), data, PartsBytes(rest), ReadExts(r3, left - 4 - len, Told(p, s)).value.1);
  }

  lemma {:induction false} PartsOf(ps: seq<Part>, s: Seen, rest: bytes)
    requires LegalParts(ps)
    ensures ReadExts(PartsBytes(ps) + rest, |PartsBytes(ps)|, s) == Ok((ToldAll(ps, s), rest))
    decreases |ps|
  {
    hide CutU16, Cut, PutU16, DataOf, KindOf, Interpret, Told, U16;
    if ps == [] {
      assert [] + rest == rest;
    } else {
      var p, tail := ps[0], PartsBytes(ps[1..]);
      var k2, l2, data := PutU16(KindOf(p)), PutU16(|DataOf(p)|), DataOf(p);
      ShareJoins(k2, l2, data, tail, rest);
      ReadExtsStep(k2, l2, data, tail + rest, |PartsBytes(ps)|, s);
      PartOf(p, s);
      PartsOf(ps[1..], Told(p, s), rest);
    }
  }

  // ---- the hello ----

  lemma TailRead(w: bytes) returns (suites: bytes, compression: bytes)
    requires ExtensionBlock(w).Ok?
    ensures |suites| < 0x1_0000 && |suites| % 2 == 0 && |compression| < 256
    ensures var (total, exts) := ExtensionBlock(w).value;
            w == PutU16(|suites|) + (suites + ([|compression| % 256] + (compression + (PutU16(total) + exts))))
  {
    hide CutU8, CutU16, Cut, PutU16;
    var (cipherLen, r1) := CutU16(w).value;
    var (s, r2) := Cut(r1, cipherLen).value;
    var (compLen, r3) := CutU8(r2).value;
    var (k, r4) := Cut(r3, compLen).value;
    CutU16Is(w);
    CutIs(r1, cipherLen);
    CutU8Is(r2);
    CutIs(r3, compLen);
    CutU16Is(r4);
    return s, k;
  }

  lemma FrontRead(w: bytes) returns (version: bytes)
    requires BodyFront(w).Ok?
    ensures var (random, sid, tail) := BodyFront(w).value;
            && |version| == 2 && |random| == 32 && |sid| <= 32
            && w == version + (random + ([|sid| % 256] + (sid + tail)))
  {
    hide CutU8, Cut;
    var (v, r1) := Cut(w, 2).value;
    var (random, r2) := Cut(r1, 32).value;
    var (sidLen, r3) := CutU8(r2).value;
    CutIs(w, 2);
    CutIs(r1, 32);
    CutU8Is(r2);
    CutIs(r3, sidLen);
    return v;
  }

  lemma RecordRead(wire: bytes) returns (v: byte)
    requires RecordBody(wire).Ok?
    ensures var body := RecordBody(wire).value;
            && v <= 0x03 && 4 + |body| < 0x1_0000
            && wire == [0x16] + ([0x03, v] + (PutU16(4 + |body|) + ([0x01] + (PutU24(|body|) + body))))
  {
    hide CutU8, CutU16, CutU24, Cut, PutU16, PutU24;
    var (content, r1) := CutU8(wire).value;
    var (version, r2) := Cut(r1, 2).value;
    var (recordLen, r3) := CutU16(r2).value;
    var (message, r4) := CutU8(r3).value;
    var (bodyLen, r5) := CutU24(r4).value;
    CutU8Is(wire);
    CutIs(r1, 2);
    CutU16Is(r2);
    CutU8Is(r3);
    CutU24Is(r4);
    assert version == [0x03, version[1]];
    return version[1];
  }

  lemma HelloRead(wire: bytes) returns (g: Hello)
    requires ReadHello(wire).Ok?
    ensures LegalHello(g) && HelloOf(g) == wire && ReadHello(wire) == Ok(ReadAs(g))
  {
    hide RecordBody, BodyFront, ExtensionBlock, ReadExts, PutU16, PutU24, LegalParts, PartsBytes, ToldAll;
    var body := RecordBody(wire).value;
    var (random, sid, tail) := BodyFront(body).value;
    var (total, exts) := ExtensionBlock(tail).value;
    var v := RecordRead(wire);
    var version := FrontRead(body);
    var suites, compression := TailRead(tail);
    var parts := PartsRead(exts, total, Seen(None, None, false));
    assert PartsBytes(parts) + [] == PartsBytes(parts);
    g := Hello(v, version, random, sid, suites, compression, parts);
    assert TailOf(g) == tail;
    assert BodyOf(g) == body;
  }

  lemma TailReads(g: Hello)
    requires |g.suites| < 0x1_0000 && |g.suites| % 2 == 0 && |g.compression| < 256 && |PartsBytes(g.parts)| < 0x1_0000
    ensures ExtensionBlock(TailOf(g)) == Ok((|PartsBytes(g.parts)|, PartsBytes(g.parts)))
  {
    hide CutU8, CutU16, Cut, PutU16, PartsBytes;
    var exts := PartsBytes(g.parts);
    var r4 := PutU16(|exts|) + exts;
    var r3 := g.compression + r4;
    CutHeadU16(|g.suites|, g.suites + ([|g.compression|] + r3));
    CutHead(g.suites, [|g.compression|] + r3);
    CutHeadU8(|g.compression|, r3);
    CutHead(g.compression, r4);
    CutHeadU16(|exts|, exts);
  }

  lemma FrontReads(g: Hello)
    requires |g.version| == 2 && |g.random| == 32 && |g.sessionId| <= 32
    ensures BodyFront(BodyOf(g)) == Ok((g.random, g.sessionId, TailOf(g)))
  {
    hide CutU8, Cut, TailOf;
    var r3 := g.sessionId + TailOf(g);
    CutHead(g.version, g.random + ([|g.sessionId|] + r3));
    CutHead(g.random, [|g.sessionId|] + r3);
    CutHeadU8(|g.sessionId|, r3);
    CutHead(g.sessionId, TailOf(g));
  }

  lemma RecordReads(g: Hello)
    requires g.recordVersion <= 0x03 && 4 + |BodyOf(g)| < 0x1_0000
    ensures RecordBody(HelloOf(g)) == Ok(BodyOf(g))
  {
    hide CutU8, CutU16, CutU24, Cut, PutU16, PutU24, BodyOf, U24;
    var body := BodyOf(g);
    var r5 := PutU24(|body|) + body;
    var r3 := PutU16(4 + |body|) + ([0x01] + r5);
    CutHeadU8(0x16, [0x03, g.recordVersion] + r3);
    CutHead([0x03, g.recordVersion], r3);
    CutHeadU16(4 + |body|, [0x01] + r5);
    CutHeadU8(0x01, r5);
    CutHeadU24(|body|, body);
  }

  lemma CutHeadU24(n: nat, rest: bytes)
    requires n < 0x100_0000
    ensures CutU24(PutU24(n) + rest) == Ok((n, rest))
  {
    CutHead(PutU24(n), rest);
    hide PutU24, U24;
  }

  lemma HelloReads(g: Hello)
    requires LegalHello(g)
    ensures ReadHello(HelloOf(g)) == Ok(ReadAs(g))
  {
    hide RecordBody, BodyFront, ExtensionBlock, ReadExts, PutU16, PutU24, HelloOf, LegalParts, PartsBytes, ToldAll;
    RecordReads(g);
    FrontReads(g);
    TailReads(g);
    var exts := PartsBytes(g.parts);
    PartsOf(g.parts, Seen(None, None, false), []);
    assert exts + [] == exts;
    var seen := ToldAll(g.parts, Seen(None, None, false));
    ReadHelloFrom(HelloOf(g), BodyOf(g), g.random, g.sessionId, TailOf(g), exts, seen);
  }

  /** The parser accepts a wire as this hello if and only if the grammar writes it so. */
  lemma AcceptedExactlyIfWritten(wire: bytes, p: ParsedClientHello)
    ensures ReadHello(wire) == Ok(p) <==> exists g: Hello :: LegalHello(g) && HelloOf(g) == wire && ReadAs(g) == p
  {
    hide ReadHello, LegalHello, HelloOf, ReadAs;
    if ReadHello(wire) == Ok(p) {
      var g := HelloRead(wire);
      assert LegalHello(g) && HelloOf(g) == wire && ReadAs(g) == p;
    }
    forall g: Hello | LegalHello(g) && HelloOf(g) == wire && ReadAs(g) == p
      ensures ReadHello(wire) == Ok(p)
    {
      HelloReads(g);
    }
  }
}
