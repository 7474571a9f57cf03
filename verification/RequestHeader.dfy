/** The self-delimiting VLESS request header: builder, parser and length calculator. */
module RequestHeader {
  import opened Bytes
  import opened Varint

  const VERSION: byte := 0
  const CMD_MUX: byte := 0x0f
  const ATYP_IPV4: byte := 1
  const ATYP_DOMAIN: byte := 2
  const ATYP_IPV6: byte := 3
  const MUX_HOST: bytes := [0x76, 0x31, 0x2e, 0x6d, 0x75, 0x78, 0x2e, 0x63, 0x6f, 0x6f, 0x6c]

  datatype VlessError = Layout | BadResponse | UuidMismatch | BadFrame

  datatype Address = Ipv4(octets: bytes) | Ipv6(octets: bytes) | Domain(name: bytes)

  datatype ParsedRequest = ParsedRequest(uuid: bytes, flow: Option<bytes>, command: byte, address: Address, port: u16)

  /** What the Rust types guarantee of an address: array sizes, and a string is UTF-8. */
  predicate TypedAddress(a: Address) {
    match a
    case Ipv4(octets) => |octets| == 4
    case Ipv6(octets) => |octets| == 16
    case Domain(name) => Utf8(name)
  }

  /** What the Rust types guarantee of a flow: UTF-8, and no allocation exceeds half the address space. */
  predicate TypedFlow(flow: Option<bytes>) {
    flow.Some? ==> Utf8(flow.value) && |flow.value| + 2 < TWO_TO_THE_64
  }

  function AddressBytes(a: Address): bytes {
    match a
    case Ipv4(octets) => [ATYP_IPV4] + octets
    case Ipv6(octets) => [ATYP_IPV6] + octets
    case Domain(name) => [ATYP_DOMAIN, |name| % 256] + name
  }

  function FlowSubfield(name: bytes): bytes { [0x01, |name| % 256] + name }

  /** The length-delimited addons body: its varint length prefix, then the body. */
  function AddonsBody(flow: Option<bytes>): bytes {
    if flow.None? || flow.value == [] then [0x00] else FlowSubfield(flow.value)
  }

  function Destination(command: byte, address: Address, port: u16): bytes {
    [command] + if command == CMD_MUX then [] else PutU16(port) + AddressBytes(address)
  }

  function Addons(flow: Option<bytes>): bytes {
    [0x0a] + Encoded(|AddonsBody(flow)|) + AddonsBody(flow)
  }

  function HeaderBytes(uuid: bytes, flow: Option<bytes>, command: byte, address: Address, port: u16): bytes {
    [VERSION] + uuid + Addons(flow) + Destination(command, address, port)
  }

  method BuildAddons(flow: Option<bytes>) returns (addons: bytes)
    ensures addons == Addons(flow)
  {
    if flow.None? || flow.value == [] { return [0x0a, 0x01, 0x00]; }
    var sub := [0x01];
    sub := sub + [|flow.value| % 256];
    sub := sub + flow.value;
    addons := EncodeVarint(|sub|, [0x0a]);
    addons := addons + sub;
  }

  method BuildRequestHeader(uuid: bytes, flow: Option<bytes>, command: byte, address: Address, port: u16)
    returns (out: bytes)
    ensures out == HeaderBytes(uuid, flow, command, address, port)
  {
    hide PutU16, Addons, AddressBytes;
    var addons := BuildAddons(flow);
    out := [VERSION];
    out := out + uuid;
    out := out + addons;
    out := out + [command];
    if command != CMD_MUX {
      ghost var before := out;
      out := out + PutU16(port);
      out := out + AddressBytes(address);
      assert out == before + (PutU16(port) + AddressBytes(address));
    }
  }

  function ParseAddress(wire: bytes): (r: Result<Address, VlessError>)
    ensures r.Ok? ==> TypedAddress(r.value)
  {
    if wire == [] then Err(Layout)
    else if wire[0] == ATYP_IPV4 then
      if |wire| < 5 then Err(Layout) else Ok(Ipv4(wire[1..5]))
    else if wire[0] == ATYP_IPV6 then
      if |wire| < 17 then Err(Layout) else Ok(Ipv6(wire[1..17]))
    else if wire[0] == ATYP_DOMAIN then
      if |wire| < 2 || |wire| - 2 < wire[1] then Err(Layout)
      else if Utf8(wire[2..2 + wire[1]]) then Ok(Domain(wire[2..2 + wire[1]])) else Err(Layout)
    else Err(Layout)
  }

  function ParseFlow(addons: bytes): Result<Option<bytes>, VlessError> {
    if addons == [] || addons[0] != 0x01 then Ok(None)
    else if |addons| < 2 || 2 + addons[1] > |addons| then Err(Layout)
    else if Utf8(addons[2..2 + addons[1]]) then Ok(Some(addons[2..2 + addons[1]])) else Err(Layout)
  }

  function ParseDestination(rest: bytes): Result<(byte, Address, u16), VlessError> {
    if rest == [] then Err(Layout)
    else if rest[0] == CMD_MUX then Ok((CMD_MUX, Domain(MUX_HOST), 0))
    else if |rest| < 3 then Err(Layout)
    else
      var address :- ParseAddress(rest[3..]);
      Ok((rest[0], address, U16(rest[1], rest[2])))
  }

  /** The grammar of the request header, read front to back. */
  function Parsed(wire: bytes): Result<ParsedRequest, VlessError> {
    if |wire| < 21 then Err(Layout)
    else if wire[0] != VERSION then Err(BadResponse)
    else if wire[17] != 0x0a then Err(Layout)
    else
      match Decoded(wire[18..])
      case None => Err(Layout)
      case Some((len, used)) =>
        if 18 + used + len > |wire| then Err(Layout)
        else
          var flow :- ParseFlow(wire[18 + used..18 + used + len]);
          var destination :- ParseDestination(wire[18 + used + len..]);
          Ok(ParsedRequest(wire[1..17], flow, destination.0, destination.1, destination.2))
  }

  /** The second half of the grammar, once the addons are behind. */
  function ParsedAfterAddons(uuid: bytes, flow: Option<bytes>, rest: bytes): Result<ParsedRequest, VlessError> {
    match ParseDestination(rest)
    case Err(e) => Err(e)
    case Ok(d) => Ok(ParsedRequest(uuid, flow, d.0, d.1, d.2))
  }

  method ParseDestinationAt(wire: bytes, at: nat, uuid: bytes, flow: Option<bytes>)
    returns (r: Result<ParsedRequest, VlessError>)
    requires at <= |wire|
    ensures r == ParsedAfterAddons(uuid, flow, wire[at..])
  {
    hide Utf8, U16;
    var pos := at;
    if pos >= |wire| { return Err(Layout); }
    var command := wire[pos];
    pos := pos + 1;
    if command == CMD_MUX { return Ok(ParsedRequest(uuid, flow, command, Domain(MUX_HOST), 0)); }
    if pos + 2 > |wire| { return Err(Layout); }
    var port := U16(wire[pos], wire[pos + 1]);
    pos := pos + 2;
    assert wire[pos..] == wire[at..][3..];
    var address :- ParseAddress(wire[pos..]);
    return Ok(ParsedRequest(uuid, flow, command, address, port));
  }

  method ParseRequestHeader(wire: bytes) returns (r: Result<ParsedRequest, VlessError>)
    ensures r == Parsed(wire)
  {
    hide Utf8, U16, Decoded, ParseDestination;
    if |wire| < 1 + 16 + 3 + 1 { return Err(Layout); }
    var pos := 0;
    if wire[pos] != VERSION { return Err(BadResponse); }
    pos := pos + 1;
    var uuid := wire[pos..pos + 16];
    pos := pos + 16;
    if wire[pos] != 0x0a { return Err(Layout); }
    pos := pos + 1;
    var varint := DecodeVarint(wire[pos..]);
    if varint.None? { return Err(Layout); }
    var (len, used) := varint.value;
    pos := pos + used;
    if pos + len > |wire| { return Err(Layout); }
    var addons := wire[pos..pos + len];
    pos := pos + len;
    var flow: Option<bytes> := None;
    var apos := 0;
    if apos < |addons| && addons[apos] == 0x01 {
      apos := apos + 1;
      if apos >= |addons| { return Err(Layout); }
      var n := addons[apos];
      apos := apos + 1;
      if apos + n > |addons| || !Utf8(addons[apos..apos + n]) { return Err(Layout); }
      flow := Some(addons[apos..apos + n]);
    }
    r := ParseDestinationAt(wire, pos, uuid, flow);
  }

  /** Bytes the typed address claims, from its own first bytes; nothing checks that they are present. */
  function AddressExtent(rest: bytes): Option<nat> {
    if rest == [] then None
    else if rest[0] == ATYP_IPV4 then Some(5)
    else if rest[0] == ATYP_IPV6 then Some(17)
    else if rest[0] == ATYP_DOMAIN && |rest| >= 2 then Some(2 + rest[1] as int)
    else None
  }

  function DestinationExtent(rest: bytes): Option<nat> {
    if rest == [] then None
    else if rest[0] == CMD_MUX then Some(1)
    else if |rest| < 3 then None
    else
      match AddressExtent(rest[3..])
      case None => None
      case Some(n) => Some(3 + n)
  }

  /** What `request_header_len` computes; the addons offset wraps at the 64-bit word. */
  function HeaderExtent(wire: bytes): Result<nat, VlessError> {
    if |wire| < 18 || wire[17] != 0x0a then Err(Layout)
    else
      match Decoded(wire[18..])
      case None => Err(Layout)
      case Some((len, used)) =>
        var pos := (18 + used + len) % TWO_TO_THE_64;
        if pos >= |wire| then Err(Layout)
        else
          match DestinationExtent(wire[pos..])
          case None => Err(Layout)
          case Some(n) => Ok(pos + n)
  }

  method RequestHeaderLen(wire: bytes) returns (r: Result<nat, VlessError>)
    ensures r == HeaderExtent(wire)
  {
    if |wire| < 1 + 16 + 1 { return Err(Layout); }
    var pos := 1 + 16;
    if wire[pos] != 0x0a { return Err(Layout); }
    pos := pos + 1;
    var varint := DecodeVarint(wire[pos..]);
    if varint.None? { return Err(Layout); }
    pos := (pos + varint.value.1 + varint.value.0) % TWO_TO_THE_64;
    if pos >= |wire| { return Err(Layout); }
    var command := wire[pos];
    pos := pos + 1;
    if command != CMD_MUX {
      if pos + 2 > |wire| { return Err(Layout); }
      pos := pos + 2;
      if pos >= |wire| { return Err(Layout); }
      var atyp := wire[pos];
      if atyp == ATYP_IPV4 {
        pos := pos + 5;
      } else if atyp == ATYP_IPV6 {
        pos := pos + 17;
      } else if atyp == ATYP_DOMAIN {
        if pos + 1 >= |wire| { return Err(Layout); }
        pos := pos + 2 + wire[pos + 1];
      } else {
        return Err(Layout);
      }
    }
    return Ok(pos);
  }

  // ---- properties ----

  /** The destination a header can carry: MUX stands for a fixed host and port. */
  function CarriedDestination(command: byte, address: Address, port: u16): (byte, Address, u16) {
    if command == CMD_MUX then (CMD_MUX, Domain(MUX_HOST), 0) else (command, address, port)
  }

  function CarriedFlow(flow: Option<bytes>): Option<bytes> {
    if flow == Some([]) then None else flow
  }

  predicate FlowFits(flow: Option<bytes>) { flow.Some? ==> |flow.value| < 256 }

  predicate DestinationFits(command: byte, address: Address) {
    command != CMD_MUX && address.Domain? ==> |address.name| < 256
  }

  lemma ParseAddressInverts(a: Address, suffix: bytes)
    requires TypedAddress(a)
    ensures (a.Domain? ==> |a.name| < 256) ==> ParseAddress(AddressBytes(a) + suffix) == Ok(a)
    ensures a.Domain? && |a.name| >= 256 ==> ParseAddress(AddressBytes(a) + suffix) != Ok(a)
  {
    var wire := AddressBytes(a) + suffix;
    match a
    case Ipv4(octets) => assert wire[1..5] == octets;
    case Ipv6(octets) => assert wire[1..17] == octets;
    case Domain(name) =>
      if |name| < 256 { assert wire[2..2 + |name|] == name; }
  }

  lemma ParseDestinationInverts(command: byte, address: Address, port: u16, suffix: bytes)
    requires TypedAddress(address)
    ensures DestinationFits(command, address) <==>
            ParseDestination(Destination(command, address, port) + suffix)
                == Ok(CarriedDestination(command, address, port))
  {
    var rest := Destination(command, address, port) + suffix;
    if command != CMD_MUX {
      assert rest[3..] == AddressBytes(address) + suffix;
      assert rest[1] == PutU16(port)[0] && rest[2] == PutU16(port)[1];
      ParseAddressInverts(address, suffix);
    }
  }

  lemma ParseFlowInverts(flow: Option<bytes>)
    requires TypedFlow(flow)
    ensures FlowFits(flow) <==> ParseFlow(AddonsBody(flow)) == Ok(CarriedFlow(flow))
  {
    if flow.Some? && flow.value != [] {
      var addons := AddonsBody(flow);
      if |flow.value| < 256 {
        assert addons[2..2 + |flow.value|] == flow.value;
      }
    }
  }

  /** The layout every lemma below cuts along. */
  lemma HeaderLayout(uuid: bytes, flow: Option<bytes>, command: byte, address: Address, port: u16, suffix: bytes)
    requires |uuid| == 16 && TypedFlow(flow)
    ensures var wire := HeaderBytes(uuid, flow, command, address, port) + suffix;
            var body := AddonsBody(flow);
            var used := |Encoded(|body|)|;
            && |wire| >= 21
            && wire[0] == VERSION && wire[1..17] == uuid && wire[17] == 0x0a
            && Decoded(wire[18..]) == Some((|body|, used))
            && 18 + used + |body| + |Destination(command, address, port)| + |suffix| == |wire|
            && wire[18 + used..18 + used + |body|] == body
            && wire[18 + used + |body|..] == Destination(command, address, port) + suffix
  {
    hide PutU16, Encoded, AddressBytes;
    var body := AddonsBody(flow);
    LayoutOf(uuid, Encoded(|body|), body, Destination(command, address, port), suffix);
    DecodeInvertsEncode(|body|, body + Destination(command, address, port) + suffix);
  }

  lemma LayoutOf(uuid: bytes, prefix: bytes, body: bytes, destination: bytes, suffix: bytes)
    requires |uuid| == 16
    ensures var wire := [VERSION] + uuid + ([0x0a] + prefix + body) + destination + suffix;
            var at := 18 + |prefix|;
            && |wire| == at + |body| + |destination| + |suffix|
            && wire[0] == VERSION && wire[1..17] == uuid && wire[17] == 0x0a
            && wire[18..] == prefix + (body + destination + suffix)
            && wire[at..at + |body|] == body
            && wire[at + |body|..] == destination + suffix
  {
  }

  lemma ParsedFromLayout(wire: bytes, body: bytes, used: nat)
    requires |wire| >= 21 && wire[0] == VERSION && wire[17] == 0x0a
    requires Decoded(wire[18..]) == Some((|body|, used)) && 18 + used + |body| <= |wire|
    requires wire[18 + used..18 + used + |body|] == body
    ensures Parsed(wire) ==
            var flow :- ParseFlow(body);
            var destination :- ParseDestination(wire[18 + used + |body|..]);
            Ok(ParsedRequest(wire[1..17], flow, destination.0, destination.1, destination.2))
  {
  }

  /**
    * Parsing a built header gives back the fields it was built from, whatever payload follows,
    * exactly when the flow and the domain fit their one-byte length fields.
    */
  lemma ParseInvertsBuild(uuid: bytes, flow: Option<bytes>, command: byte, address: Address, port: u16, suffix: bytes)
    requires |uuid| == 16 && TypedFlow(flow) && TypedAddress(address)
    ensures var carried := CarriedDestination(command, address, port);
            FlowFits(flow) && DestinationFits(command, address) <==>
            Parsed(HeaderBytes(uuid, flow, command, address, port) + suffix)
            == Ok(ParsedRequest(uuid, CarriedFlow(flow), carried.0, carried.1, carried.2))
  {
    hide PutU16, Encoded, AddressBytes, HeaderBytes, AddonsBody, Parsed, ParseFlow, ParseDestination, Destination;
    HeaderLayout(uuid, flow, command, address, port, suffix);
    var wire := HeaderBytes(uuid, flow, command, address, port) + suffix;
    var body := AddonsBody(flow);
    ParsedFromLayout(wire, body, |Encoded(|body|)|);
    ParseFlowInverts(flow);
    ParseDestinationInverts(command, address, port, suffix);
  }

  lemma FlowIsTyped(addons: bytes)
    requires ParseFlow(addons).Ok?
    ensures var flow := ParseFlow(addons).value; TypedFlow(flow) && FlowFits(flow)
  {
  }

  lemma DestinationIsTyped(rest: bytes)
    requires ParseDestination(rest).Ok?
    ensures var d := ParseDestination(rest).value;
            && TypedAddress(d.1) && DestinationFits(d.0, d.1)
            && CarriedDestination(d.0, d.1, d.2) == d
  {
    hide Utf8;
    if rest[0] == CMD_MUX { MuxHostIsText(); }
  }

  lemma MuxHostIsText()
    ensures Utf8(MUX_HOST)
  {
    hide Utf8;
    AsciiIsText(MUX_HOST);
  }

  lemma {:induction false} AsciiIsText(s: bytes)
    requires forall k | 0 <= k < |s| :: s[k] < 0x80
    ensures Utf8(s)
  {
    if s != [] { AsciiIsText(s[1..]); }
  }

  /**
    * Every request the parser accepts is one the builder can make: sixteen bytes of identity, text in its flow and its
    * domain, lengths that fit; and building it again and parsing that gives it back, but for a flow named by no bytes,
    * which is built as none.
    */
  lemma AcceptedRequestsRebuild(wire: bytes, suffix: bytes)
    requires Parsed(wire).Ok?
    ensures var r := Parsed(wire).value;
            && |r.uuid| == 16 && TypedFlow(r.flow) && TypedAddress(r.address)
            && Parsed(HeaderBytes(r.uuid, r.flow, r.command, r.address, r.port) + suffix)
               == Ok(if r.flow == Some([]) then r.(flow := None) else r)
  {
    hide HeaderBytes, ParseFlow, ParseDestination, TypedFlow, TypedAddress, FlowFits, DestinationFits, Decoded;
    var (len, used) := Decoded(wire[18..]).value;
    FlowIsTyped(wire[18 + used..18 + used + len]);
    DestinationIsTyped(wire[18 + used + len..]);
    var r := Parsed(wire).value;
    ParseInvertsBuild(r.uuid, r.flow, r.command, r.address, r.port, suffix);
  }

  lemma ExtentOfDestination(command: byte, address: Address, port: u16, suffix: bytes)
    requires TypedAddress(address)
    ensures DestinationFits(command, address) <==>
            DestinationExtent(Destination(command, address, port) + suffix)
                == Some(|Destination(command, address, port)|)
  {
    hide PutU16, Utf8;
    var rest := Destination(command, address, port) + suffix;
    if command != CMD_MUX {
      assert rest[3..] == AddressBytes(address) + suffix;
    }
  }

  lemma ExtentFromLayout(wire: bytes, len: u64, used: nat)
    requires |wire| >= 18 && wire[17] == 0x0a
    requires Decoded(wire[18..]) == Some((len, used)) && 18 + used + len < |wire| && 18 + used + len < TWO_TO_THE_64
    ensures var n := DestinationExtent(wire[18 + used + len..]);
            HeaderExtent(wire) == if n.None? then Err(Layout) else Ok(18 + used + len + n.value)
  {
  }

  /** The length calculator finds the end of a built header exactly when its domain fits; the flow never matters. */
  lemma ExtentInvertsBuild(uuid: bytes, flow: Option<bytes>, command: byte, address: Address, port: u16, suffix: bytes)
    requires |uuid| == 16 && TypedFlow(flow) && TypedAddress(address)
    requires |HeaderBytes(uuid, flow, command, address, port)| < TWO_TO_THE_64
    ensures var header := HeaderBytes(uuid, flow, command, address, port);
            DestinationFits(command, address) <==> HeaderExtent(header + suffix) == Ok(|header|)
  {
    hide PutU16, Encoded, AddressBytes, HeaderBytes, AddonsBody, HeaderExtent, DestinationExtent;
    HeaderLayout(uuid, flow, command, address, port, suffix);
    var wire := HeaderBytes(uuid, flow, command, address, port) + suffix;
    var body := AddonsBody(flow);
    ExtentFromLayout(wire, |body|, |Encoded(|body|)|);
    ExtentOfDestination(command, address, port, suffix);
  }

  lemma DestinationExtentBounds(rest: bytes)
    requires ParseDestination(rest).Ok?
    ensures DestinationExtent(rest).Some? && 0 < DestinationExtent(rest).value <= |rest|
  {
  }

  lemma AddressPrefix(a: bytes, b: bytes)
    requires ParseAddress(a).Ok?
    requires var n := AddressExtent(a).value; n <= |b| && n <= |a| && forall j | 0 <= j < n :: a[j] == b[j]
    ensures ParseAddress(b) == ParseAddress(a)
  {
    hide Utf8;
    if a[0] == ATYP_IPV4 {
      assert a[1..5] == b[1..5];
    } else if a[0] == ATYP_IPV6 {
      assert a[1..17] == b[1..17];
    } else {
      assert a[2..2 + a[1]] == b[2..2 + a[1]];
    }
  }

  lemma DestinationPrefix(rest: bytes, other: bytes)
    requires ParseDestination(rest).Ok?
    requires var n := DestinationExtent(rest).value; n <= |other| && n <= |rest| && other[..n] == rest[..n]
    ensures ParseDestination(other) == ParseDestination(rest)
  {
    hide ParseAddress, U16;
    DestinationExtentBounds(rest);
    var n := DestinationExtent(rest).value;
    forall j | 0 <= j < n
      ensures rest[j] == other[j]
    {
      assert rest[..n][j] == other[..n][j];
    }
    if rest[0] != CMD_MUX { AddressPrefix(rest[3..], other[3..]); }
  }

  lemma AcceptedLayout(wire: bytes) returns (used: nat, len: u64)
    requires Parsed(wire).Ok?
    ensures |wire| >= 21 && wire[0] == VERSION && wire[17] == 0x0a
    ensures Decoded(wire[18..]) == Some((len, used)) && 18 + used + len <= |wire|
    ensures ParseDestination(wire[18 + used + len..]).Ok?
  {
    len, used := Decoded(wire[18..]).value.0, Decoded(wire[18..]).value.1;
  }

  /** Whenever the parser accepts, the length calculator accepts with a length inside the wire. */
  lemma ExtentBoundedByAcceptance(wire: bytes)
    requires Parsed(wire).Ok? && |wire| < TWO_TO_THE_64
    ensures HeaderExtent(wire).Ok? && 18 < HeaderExtent(wire).value <= |wire|
  {
    var used, len := AcceptedLayout(wire);
    DestinationExtentBounds(wire[18 + used + len..]);
    ExtentFromLayout(wire, len, used);
  }

  /** No byte past the calculated length has any influence on an accepted parse. */
  lemma ParseReadsOnlyTheExtent(wire: bytes, other: bytes)
    requires Parsed(wire).Ok? && |wire| < TWO_TO_THE_64
    requires |other| >= 21 && HeaderExtent(wire).Ok? && HeaderExtent(wire).value <= |wire|
    requires HeaderExtent(wire).value <= |other|
             && other[..HeaderExtent(wire).value] == wire[..HeaderExtent(wire).value]
    ensures Parsed(other) == Parsed(wire)
  {
    hide Parsed, ParseDestination, Decoded;
    var used, len := AcceptedLayout(wire);
    var body := 18 + used + len;
    DestinationExtentBounds(wire[body..]);
    ExtentFromLayout(wire, len, used);
    var n := HeaderExtent(wire).value;
    SameLayout(wire, other, n, used, len);
    assert ParseDestination(other[body..]) == ParseDestination(wire[body..]) by {
      DestinationPrefix(wire[body..], other[body..]);
    }
    SameParse(wire, other, used, len);
  }

  lemma SameParse(wire: bytes, other: bytes, used: nat, len: u64)
    requires |wire| >= 21 && |other| >= 21 && 18 + used + len <= |wire| && 18 + used + len <= |other|
    requires Decoded(wire[18..]) == Decoded(other[18..]) == Some((len, used))
    requires wire[0] == other[0] == VERSION && wire[1..17] == other[1..17] && wire[17] == other[17] == 0x0a
    requires wire[18 + used..18 + used + len] == other[18 + used..18 + used + len]
    requires ParseDestination(other[18 + used + len..]) == ParseDestination(wire[18 + used + len..])
    ensures Parsed(other) == Parsed(wire)
  {
    hide Parsed, ParseDestination, ParseFlow, Decoded;
    var body := wire[18 + used..18 + used + len];
    ParsedFromLayout(wire, body, used);
    ParsedFromLayout(other, body, used);
  }

  lemma SameLayout(wire: bytes, other: bytes, n: nat, used: nat, len: u64)
    requires 18 + used + len <= n <= |wire| && n <= |other| && other[..n] == wire[..n]
    requires Decoded(wire[18..]) == Some((len, used))
    ensures Decoded(other[18..]) == Some((len, used))
    ensures wire[0] == other[0] && wire[1..17] == other[1..17] && wire[17] == other[17]
    ensures wire[18 + used..18 + used + len] == other[18 + used..18 + used + len]
    ensures wire[18 + used + len..][..n - (18 + used + len)] == other[18 + used + len..][..n - (18 + used + len)]
  {
    forall j | 0 <= j < n
      ensures wire[j] == other[j]
    {
      assert wire[..n][j] == other[..n][j];
    }
    assert wire[18..][..used] == other[18..][..used];
    DecodedPrefix(wire[18..], other[18..]);
  }

  /** Without an accepting parser the bound fails: the address bytes are never checked to be there. */
  lemma ExtentCanExceedTheWire(uuid: bytes)
    requires |uuid| == 16
    ensures var wire := [VERSION] + uuid + [0x0a, 0x01, 0x00, 0x01, 0x00, 0x50, ATYP_IPV4];
            HeaderExtent(wire) == Ok(|wire| + 4) && Parsed(wire).Err?
  {
    hide Decoded, HeaderExtent, Parsed;
    var wire := [VERSION] + uuid + [0x0a, 0x01, 0x00, 0x01, 0x00, 0x50, ATYP_IPV4];
    assert wire[18..] == Encoded(1) + [0x00, 0x01, 0x00, 0x50, ATYP_IPV4];
    DecodeInvertsEncode(1, [0x00, 0x01, 0x00, 0x50, ATYP_IPV4]);
    var rest: bytes := [0x01, 0x00, 0x50, ATYP_IPV4];
    assert wire[20..] == rest && rest[3..] == [ATYP_IPV4] && wire[19..20] == [0x00];
    ExtentFromLayout(wire, 1, 1);
    ParsedFromLayout(wire, [0x00], 1);
  }

  function ResponseHeader(): bytes { [VERSION, 0x0a, 0x01, 0x00] }

  /** Only the length and the version byte of a response header are checked. */
  function ParseResponseHeader(wire: bytes, version: byte): Result<(), VlessError> {
    if |wire| < 4 || wire[0] != version then Err(BadResponse) else Ok(())
  }
}
