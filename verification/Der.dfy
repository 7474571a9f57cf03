/** The minimal DER walker: tag-length-value reading, and finding the public key inside a certificate. */
module Der {
  import opened Bytes

  function BigEndian(s: bytes): (n: nat) {
    if s == [] then 0 else BigEndian(s[..|s| - 1]) * 256 + s[|s| - 1]
  }

  /** A value at the front of a byte string: tag, content, and what follows. */
  datatype Tlv = Tlv(tag: byte, content: bytes, rest: bytes)

  /** The walker's rule; a length byte of exactly 0x80 reads as a short length of 128. */
  function CutTlv(w: bytes): (r: Option<Tlv>)
    ensures r.Some? ==> |r.value.rest| < |w|
  {
    if |w| < 2 then None
    else if w[1] > 0x80 then
      var n := w[1] - 0x80;
      if n > 4 || 2 + n > |w| then None
      else
        var l := BigEndian(w[2..2 + n]);
        if 2 + n + l > |w| then None else Some(Tlv(w[0], w[2 + n..2 + n + l], w[2 + n + l..]))
    else if |w| - 2 < w[1] then None
    else Some(Tlv(w[0], w[2..][..w[1]], w[2..][w[1]..]))
  }

  class Walker {
    const buf: bytes
    var pos: nat

    ghost predicate Valid()
      reads this
    {
      pos <= |buf|
    }

    ghost function Rest(): bytes
      requires Valid()
      reads this
    {
      buf[pos..]
    }

    constructor (b: bytes)
      ensures Valid() && buf == b && pos == 0 && Rest() == b
    {
      buf, pos := b, 0;
    }

    method ReadTlv() returns (r: Option<(byte, bytes)>)
      requires Valid()
      modifies this
      ensures Valid()
      ensures match CutTlv(old(Rest()))
              case None => r == None
              case Some(t) => r == Some((t.tag, t.content)) && Rest() == t.rest
    {
      hide BigEndian;
      ghost var w := Rest();
      if pos + 2 > |buf| { return None; }
      var tag := buf[pos];
      var p := pos + 1;
      var len := buf[p];
      p := p + 1;
      if len > 0x80 {
        var n := len % 0x80;
        if n == 0 || n > 4 || p + n > |buf| { return None; }
        assert n == w[1] - 0x80 && buf[p..p + n] == w[2..2 + n];
        var l := Accumulate(buf[p..p + n]);
        p := p + n;
        if p + l > |buf| { return None; }
        var content := buf[p..p + l];
        assert content == w[2 + n..2 + n + l] && buf[p + l..] == w[2 + n + l..];
        pos := p + l;
        return Some((tag, content));
      }
      if p + len as int > |buf| { return None; }
      var content := buf[p..p + len as int];
      assert content == w[2..][..len] && buf[p + len as int..] == w[2..][len..];
      pos := p + len as int;
      return Some((tag, content));
    }

    method ReadTlvFull() returns (r: Option<(byte, bytes)>)
      requires Valid()
      modifies this
      ensures Valid()
      ensures match CutTlv(old(Rest()))
              case None => r == None
              case Some(t) => r == Some((t.tag, old(Rest())[..|old(Rest())| - |t.rest|])) && Rest() == t.rest
    {
      hide CutTlv;
      ghost var w := Rest();
      var start := pos;
      var v := ReadTlv();
      if v.None? { return None; }
      assert |w| - |Rest()| == pos - start && buf[start..pos] == w[..pos - start];
      return Some((v.value.0, buf[start..pos]));
    }
  }

  /** The shift-and-or loop over the length bytes. */
  method Accumulate(s: bytes) returns (l: nat)
    ensures l == BigEndian(s)
  {
    l := 0;
    for i := 0 to |s|
      invariant l == BigEndian(s[..i])
    {
      assert s[..i + 1][..i] == s[..i];
      l := l * 256 + s[i];
    }
    assert s[..|s|] == s;
  }

  // ---- definite-length encoding ----

  function LengthBytes(n: nat): bytes
    requires n < 0x1_0000_0000
  {
    if n < 0x80 then [n]
    else if n < 0x100 then [0x81, n]
    else if n < 0x1_0000 then [0x82] + PutU16(n)
    else if n < 0x100_0000 then [0x83] + PutU24(n)
    else [0x84] + PutU32(n)
  }

  function Encode(tag: byte, content: bytes): bytes
    requires |content| < 0x1_0000_0000
  {
    [tag] + LengthBytes(|content|) + content
  }

  lemma BigEndianOf(a: byte, b: byte, c: byte, d: byte)
    ensures BigEndian([a]) == a && BigEndian([a, b]) == U16(a, b)
    ensures BigEndian([a, b, c]) == U24(a, b, c) && BigEndian([a, b, c, d]) == U32(a, b, c, d)
  {
    U16Value(a, b);
    assert [a, b][..1] == [a] && [a, b, c][..2] == [a, b] && [a, b, c, d][..3] == [a, b, c];
    assert [a][..0] == [];
  }

  lemma LengthValue(n: nat)
    requires 0x80 <= n < 0x1_0000_0000
    ensures var l := LengthBytes(n); 2 <= |l| <= 5 && l[0] == 0x80 + |l| - 1 && BigEndian(l[1..]) == n
  {
    hide BigEndian, PutU16, PutU24, PutU32;
    var l := LengthBytes(n);
    if n < 0x100 {
      assert l[1..] == [n];
      BigEndianOf(n, 0, 0, 0);
    } else if n < 0x1_0000 {
      var p := PutU16(n);
      assert l[1..] == p == [p[0], p[1]];
      BigEndianOf(p[0], p[1], 0, 0);
    } else if n < 0x100_0000 {
      var p := PutU24(n);
      assert l[1..] == p == [p[0], p[1], p[2]];
      BigEndianOf(p[0], p[1], p[2], 0);
    } else {
      var p := PutU32(n);
      assert l[1..] == p == [p[0], p[1], p[2], p[3]];
      BigEndianOf(p[0], p[1], p[2], p[3]);
    }
  }

  lemma CutShort(tag: byte, len: byte, content: bytes, suffix: bytes)
    requires len == |content| < 0x80
    ensures CutTlv([tag] + [len] + content + suffix) == Some(Tlv(tag, content, suffix))
  {
    var w := [tag] + [len] + content + suffix;
    assert w[2..] == content + suffix;
    assert w[2..][..len] == content && w[2..][len..] == suffix;
  }

  lemma CutLong(tag: byte, l: bytes, content: bytes, suffix: bytes)
    requires 2 <= |l| <= 5 && l[0] == 0x80 + |l| - 1 && BigEndian(l[1..]) == |content|
    ensures CutTlv([tag] + l + content + suffix) == Some(Tlv(tag, content, suffix))
  {
    hide BigEndian;
    var w := [tag] + l + content + suffix;
    var n := |l| - 1;
    assert w[1] == l[0] && w[2..2 + n] == l[1..];
    assert w[2 + n..2 + n + |content|] == content && w[2 + n + |content|..] == suffix;
  }

  /** Reading inverts definite-length encoding, for every tag, every content below 2^32 bytes and whatever follows. */
  lemma CutInvertsEncode(tag: byte, content: bytes, suffix: bytes)
    requires |content| < 0x1_0000_0000
    ensures CutTlv(Encode(tag, content) + suffix) == Some(Tlv(tag, content, suffix))
  {
    hide CutTlv, BigEndian;
    if |content| < 0x80 {
      CutShort(tag, |content|, content, suffix);
    } else {
      LengthValue(|content|);
      hide LengthBytes;
      CutLong(tag, LengthBytes(|content|), content, suffix);
    }
  }

  // ---- the public key of a certificate ----

  /** A value of the given tag at the front. */
  function Expect(w: bytes, tag: byte): Option<Tlv> {
    match CutTlv(w)
    case Some(t) => if t.tag == tag then Some(t) else None
    case None => None
  }

  /** Past `n` consecutive SEQUENCE values. */
  function SkipSequences(w: bytes, n: nat): Option<bytes> {
    if n == 0 then Some(w)
    else
      match Expect(w, 0x30)
      case None => None
      case Some(t) => SkipSequences(t.rest, n - 1)
  }

  /** Past the optional explicit version and the serial number. */
  function SkipVersionAndSerial(tbs: bytes): Option<bytes> {
    match CutTlv(tbs)
    case None => None
    case Some(first) =>
      match Expect(if first.tag == 0xa0 then first.rest else tbs, 0x02)
      case None => None
      case Some(serial) => Some(serial.rest)
  }

  function SpkiIn(tbs: bytes): Option<bytes> {
    match SkipVersionAndSerial(tbs)
    case None => None
    case Some(w) =>
      match SkipSequences(w, 4)
      case None => None
      case Some(rest) =>
        match Expect(rest, 0x30)
        case None => None
        case Some(t) => Some(rest[..|rest| - |t.rest|])
  }

  /** The full SubjectPublicKeyInfo value of a certificate. */
  function CertSpki(der: bytes): Option<bytes> {
    match Expect(der, 0x30)
    case None => None
    case Some(cert) =>
      match Expect(cert.content, 0x30)
      case None => None
      case Some(tbs) => SpkiIn(tbs.content)
  }

  method ParseCertSpki(der: bytes) returns (r: Option<bytes>)
    ensures r == CertSpki(der)
  {
    hide CutTlv, SpkiIn;
    var d := new Walker(der);
    var cert := d.ReadTlv();
    if cert.None? || cert.value.0 != 0x30 { return None; }
    var c := new Walker(cert.value.1);
    var tbs := c.ReadTlv();
    if tbs.None? || tbs.value.0 != 0x30 { return None; }
    r := FindSpki(tbs.value.1);
  }

  /**
    * The walk through tbsCertificate: rewind if the first value was not a version, skip four sequences, take the fifth
    * whole.
    */
  method FindSpki(tbs: bytes) returns (r: Option<bytes>)
    ensures r == SpkiIn(tbs)
  {
    hide CutTlv, SkipSequences;
    var t := new Walker(tbs);
    var first := t.ReadTlv();
    if first.None? { return None; }
    if first.value.0 != 0xa0 { t.pos := 0; }
    var serial := t.ReadTlv();
    if serial.None? || serial.value.0 != 0x02 { return None; }
    var past := PassSequences(t, 4);
    if !past { return None; }
    var spki := t.ReadTlvFull();
    if spki.None? || spki.value.0 != 0x30 { return None; }
    return Some(spki.value.1);
  }

  method PassSequences(t: Walker, n: nat) returns (ok: bool)
    requires t.Valid()
    modifies t
    ensures t.Valid()
    ensures match SkipSequences(old(t.Rest()), n)
            case None => !ok
            case Some(rest) => ok && t.Rest() == rest
  {
    hide CutTlv;
    var i := 0;
    while i < n
      invariant 0 <= i <= n && t.Valid()
      invariant SkipSequences(old(t.Rest()), n) == SkipSequences(t.Rest(), n - i)
    {
      var field := t.ReadTlv();
      if field.None? || field.value.0 != 0x30 { return false; }
      i := i + 1;
    }
    return true;
  }

  /** Anything short enough to be encoded with room to spare. */
  predicate Fits(b: bytes) { |b| < 0x800_0000 }

  /** The certificate fields before and after the key, as content bytes; `version` is absent in version 1. */
  datatype Certificate = Certificate(version: Option<bytes>, serial: bytes, algorithm: bytes, issuer: bytes,
                                     validity: bytes,
                                     subject: bytes, spki: bytes, tbsRest: bytes, certRest: bytes)

  predicate WellFormed(x: Certificate) {
    && (x.version.Some? ==> Fits(x.version.value)) && Fits(x.serial) && Fits(x.algorithm) && Fits(x.issuer)
    && Fits(x.validity) && Fits(x.subject) && Fits(x.spki) && Fits(x.tbsRest) && Fits(x.certRest)
  }

  function Names(x: Certificate): bytes
    requires WellFormed(x)
  {
    Encode(0x30, x.algorithm) + (Encode(0x30, x.issuer)
                                 + (Encode(0x30, x.validity) + (Encode(0x30, x.subject) + Key(x))))
  }

  function Key(x: Certificate): bytes
    requires WellFormed(x)
  {
    Encode(0x30, x.spki) + x.tbsRest
  }

  function TbsBytes(x: Certificate): bytes
    requires WellFormed(x)
  {
    var tail := Encode(0x02, x.serial) + Names(x);
    if x.version.Some? then Encode(0xa0, x.version.value) + tail else tail
  }

  function CertBytes(x: Certificate): bytes
    requires WellFormed(x) && |TbsBytes(x)| < 0x8000_0000
  {
    hide TbsBytes;
    EncodedLen(0x30, TbsBytes(x));
    Encode(0x30, Encode(0x30, TbsBytes(x)) + x.certRest)
  }

  lemma EncodedLen(tag: byte, content: bytes)
    requires |content| < 0x1_0000_0000
    ensures |content| + 2 <= |Encode(tag, content)| <= |content| + 6
  {
  }

  lemma SkipNames(x: Certificate)
    requires WellFormed(x)
    ensures SkipSequences(Names(x), 4) == Some(Key(x))
  {
    hide Encode, CutTlv, Key;
    var w3 := Encode(0x30, x.subject) + Key(x);
    var w2 := Encode(0x30, x.validity) + w3;
    var w1 := Encode(0x30, x.issuer) + w2;
    CutInvertsEncode(0x30, x.algorithm, w1);
    CutInvertsEncode(0x30, x.issuer, w2);
    CutInvertsEncode(0x30, x.validity, w3);
    CutInvertsEncode(0x30, x.subject, Key(x));
    assert SkipSequences(w3, 1) == Some(Key(x));
    assert SkipSequences(w2, 2) == SkipSequences(w3, 1);
    assert SkipSequences(w1, 3) == SkipSequences(w2, 2);
  }

  lemma SkipFront(x: Certificate)
    requires WellFormed(x)
    ensures SkipVersionAndSerial(TbsBytes(x)) == Some(Names(x))
  {
    hide Encode, CutTlv, Names;
    CutInvertsEncode(0x02, x.serial, Names(x));
    if x.version.Some? { CutInvertsEncode(0xa0, x.version.value, Encode(0x02, x.serial) + Names(x)); }
  }

  lemma KeyAtFront(x: Certificate)
    requires WellFormed(x)
    ensures SpkiIn(TbsBytes(x)) == Some(Encode(0x30, x.spki))
  {
    hide Encode, CutTlv, Names, TbsBytes;
    SkipFront(x);
    SkipNames(x);
    CutInvertsEncode(0x30, x.spki, x.tbsRest);
    var rest := Key(x);
    assert rest[..|rest| - |x.tbsRest|] == Encode(0x30, x.spki);
  }

  /**
    * The key found in a well-formed certificate is exactly its SubjectPublicKeyInfo value, with or without a version
    * field.
    */
  lemma CertSpkiIsExact(x: Certificate, trailing: bytes)
    requires WellFormed(x) && |TbsBytes(x)| < 0x8000_0000
    ensures CertSpki(CertBytes(x) + trailing) == Some(Encode(0x30, x.spki))
  {
    hide Encode, CutTlv, SpkiIn, TbsBytes;
    EncodedLen(0x30, TbsBytes(x));
    var cert := Encode(0x30, TbsBytes(x)) + x.certRest;
    CutInvertsEncode(0x30, cert, trailing);
    CutInvertsEncode(0x30, TbsBytes(x), x.certRest);
    KeyAtFront(x);
  }

  // ---- the RSA key inside a SubjectPublicKeyInfo ----

  const RSA_OID: bytes := [0x2a, 0x86, 0x48, 0x86, 0xf7, 0x0d, 0x01, 0x01, 0x01]

  datatype RsaParts = RsaParts(n: bytes, e: bytes)

  function StripSign(n: bytes): bytes { if n != [] && n[0] == 0 then n[1..] else n }

  function RsaIntegers(w: bytes): Option<RsaParts> {
    match Expect(w, 0x02)
    case None => None
    case Some(n) =>
      match Expect(n.rest, 0x02)
      case None => None
      case Some(e) => Some(RsaParts(StripSign(n.content), StripSign(e.content)))
  }

  predicate IsRsaAlgorithm(alg: bytes) {
    match CutTlv(alg)
    case None => false
    case Some(oid) => oid.tag == 0x06 && oid.content == RSA_OID
  }

  /** Modulus and exponent of an RSA SubjectPublicKeyInfo, sign bytes removed. */
  function RsaSpki(der: bytes): Option<RsaParts> {
    match Expect(der, 0x30)
    case None => None
    case Some(spki) =>
      match Expect(spki.content, 0x30)
      case None => None
      case Some(alg) =>
        match Expect(alg.rest, 0x03)
        case None => None
        case Some(bits) =>
          if bits.content == [] || bits.content[0] != 0 || !IsRsaAlgorithm(alg.content) then None
          else
            match Expect(bits.content[1..], 0x30)
            case None => None
            case Some(key) => RsaIntegers(key.content)
  }

  /**
    * The content of a SubjectPublicKeyInfo of this algorithm, its bit string with so many unused bits, around the given
    * integer contents; `params`, `extra` and `more` are whatever else the values hold.
    */
  function SpkiContent(oid: bytes, unused: byte, n: bytes, e: bytes, params: bytes, extra: bytes, more: bytes)
    : (r: bytes)
    requires Fits(oid) && Fits(n) && Fits(e) && Fits(params) && Fits(extra) && Fits(more)
    ensures |r| < 0x1_0000_0000
  {
    hide Encode;
    EncodedLen(0x02, n); EncodedLen(0x02, e); EncodedLen(0x06, oid);
    var integers := Encode(0x02, n) + (Encode(0x02, e) + extra);
    EncodedLen(0x30, integers);
    var bits := [unused] + (Encode(0x30, integers) + []);
    var algorithm := Encode(0x06, oid) + params;
    EncodedLen(0x03, bits); EncodedLen(0x30, algorithm);
    Encode(0x30, algorithm) + (Encode(0x03, bits) + more)
  }

  /** rsaEncryption, 1.2.840.113549.1.1.1. */
  function RsaSpkiContent(n: bytes, e: bytes, params: bytes, extra: bytes, more: bytes): (r: bytes)
    requires Fits(n) && Fits(e) && Fits(params) && Fits(extra) && Fits(more)
    ensures |r| < 0x1_0000_0000
  {
    SpkiContent([0x2a, 0x86, 0x48, 0x86, 0xf7, 0x0d, 0x01, 0x01, 0x01], 0, n, e, params, extra, more)
  }

  function RsaSpkiBytes(n: bytes, e: bytes, params: bytes, extra: bytes, more: bytes): bytes
    requires Fits(n) && Fits(e) && Fits(params) && Fits(extra) && Fits(more)
  {
    Encode(0x30, RsaSpkiContent(n, e, params, extra, more))
  }

  /** A key is read from such a value exactly if it is rsaEncryption with no unused bits: its modulus and exponent. */
  lemma SpkiIsRead(oid: bytes, unused: byte, n: bytes, e: bytes, params: bytes, extra: bytes, more: bytes,
                   trailing: bytes)
    requires Fits(oid) && Fits(n) && Fits(e) && Fits(params) && Fits(extra) && Fits(more)
    ensures RsaSpki(Encode(0x30, SpkiContent(oid, unused, n, e, params, extra, more)) + trailing)
         == if unused == 0 && oid == [0x2a, 0x86, 0x48, 0x86, 0xf7, 0x0d, 0x01, 0x01, 0x01]
            then Some(RsaParts(StripSign(n), StripSign(e))) else None
  {
    hide Encode, CutTlv, StripSign;
    EncodedLen(0x02, n); EncodedLen(0x02, e); EncodedLen(0x06, oid);
    var tail := Encode(0x02, e) + extra;
    var integers := Encode(0x02, n) + tail;
    EncodedLen(0x30, integers);
    var bits := [unused] + (Encode(0x30, integers) + []);
    var algorithm := Encode(0x06, oid) + params;
    EncodedLen(0x03, bits); EncodedLen(0x30, algorithm);
    var spki := Encode(0x30, algorithm) + (Encode(0x03, bits) + more);
    CutInvertsEncode(0x30, spki, trailing);
    CutInvertsEncode(0x30, algorithm, Encode(0x03, bits) + more);
    CutInvertsEncode(0x03, bits, more);
    CutInvertsEncode(0x06, oid, params);
    assert bits[1..] == Encode(0x30, integers) + [];
    CutInvertsEncode(0x30, integers, []);
    CutInvertsEncode(0x02, n, tail);
    CutInvertsEncode(0x02, e, extra);
  }

  /** The key read from an RSA value is its modulus and exponent, each without a leading sign byte. */
  lemma RsaSpkiIsExact(n: bytes, e: bytes, params: bytes, extra: bytes, more: bytes, trailing: bytes)
    requires Fits(n) && Fits(e) && Fits(params) && Fits(extra) && Fits(more)
    ensures RsaSpki(RsaSpkiBytes(n, e, params, extra, more) + trailing) == Some(RsaParts(StripSign(n), StripSign(e)))
    ensures n != [] && e != [] ==>
              RsaSpki(RsaSpkiBytes(n, e, params, extra, more) + trailing)
              == Some(RsaParts(if n[0] == 0 then n[1..] else n, if e[0] == 0 then e[1..] else e))
  {
    hide SpkiContent, RsaSpki;
    SpkiIsRead([0x2a, 0x86, 0x48, 0x86, 0xf7, 0x0d, 0x01, 0x01, 0x01], 0, n, e, params, extra, more, trailing);
  }

  /** A length byte of exactly 0x80 is no indefinite length to this walker but 128 bytes of content. */
  lemma IndefiniteReadsAs128(tag: byte, content: bytes, rest: bytes)
    requires |content| == 128
    ensures CutTlv([tag, 0x80] + content + rest) == Some(Tlv(tag, content, rest))
  {
    var w := [tag, 0x80] + content + rest;
    assert w[2..] == content + rest;
  }
}
