/** The ClientHello parser: a bounds-checked cursor advanced through nested loops, proved against the layout reader. */
module HelloReader {
  import opened Bytes
  import opened ClientHello

  class Reader {
    const buf: bytes
    var pos: nat

    ghost predicate Valid()
      reads this
    {
      pos <= |buf|
    }

    ghost function Rest(): bytes
      requires Valid()
      reads this
    {
      buf[pos..]
    }

    constructor (b: bytes)
      ensures Valid() && Rest() == b
    {
      buf, pos := b, 0;
    }

    method Take(n: nat) returns (r: Result<bytes, TlsError>)
      requires Valid()
      modifies this
      ensures Valid()
      ensures match Cut(old(Rest()), n)
              case Ok((head, rest)) => r == Ok(head) && Rest() == rest
              case Err(e) => r == Err(e)
    {
      if |buf| - pos < n { return Err(Truncated); }
      var out := buf[pos..pos + n];
      assert out == Rest()[..n] && buf[pos + n..] == Rest()[n..];
      pos := pos + n;
      return Ok(out);
    }

    method U8() returns (r: Result<byte, TlsError>)
      requires Valid()
      modifies this
      ensures Valid()
      ensures match CutU8(old(Rest()))
              case Ok((v, rest)) => r == Ok(v) && Rest() == rest
              case Err(e) => r == Err(e)
    {
      var b :- Take(1);
      return Ok(b[0]);
    }

    method U16() returns (r: Result<u16, TlsError>)
      requires Valid()
      modifies this
      ensures Valid()
      ensures match CutU16(old(Rest()))
              case Ok((v, rest)) => r == Ok(v) && Rest() == rest
              case Err(e) => r == Err(e)
    {
      var b :- Take(2);
      return Ok(Bytes.U16(b[0], b[1]));
    }

    method U24() returns (r: Result<nat, TlsError>)
      requires Valid()
      modifies this
      ensures Valid()
      ensures match CutU24(old(Rest()))
              case Ok((v, rest)) => r == Ok(v) && Rest() == rest
              case Err(e) => r == Err(e)
    {
      var b :- Take(3);
      return Ok(Bytes.U24(b[0], b[1], b[2]));
    }

    method Exhausted() returns (done: bool)
      requires Valid()
      ensures done <==> Rest() == []
    {
      done := pos == |buf|;
    }
  }

  method ParseServerName(data: bytes) returns (r: Result<bytes, TlsError>)
    ensures r == ReadServerName(data)
  {
    var er := new Reader(data);
    var listLen :- er.U16();
    var nameType :- er.U8();
    var nameLen :- er.U16();
    if nameType != 0 || listLen != 1 + 2 + nameLen as int { return Err(BadServerName); }
    var name :- er.Take(nameLen);
    var done := er.Exhausted();
    if !done || !Utf8(name) { return Err(BadServerName); }
    return Ok(name);
  }

  method ParseKeyShare(data: bytes, found: Option<bytes>) returns (r: Result<Option<bytes>, TlsError>)
    ensures r == ReadKeyShare(data, found)
  {
    hide CutU16, Cut;
    var er := new Reader(data);
    var sharesLen :- er.U16();
    var key, shareRead: int := found, 0;
    ghost var start := er.Rest();
    while shareRead < sharesLen
      invariant er.Valid()
      invariant ReadShares(start, sharesLen, found) == ReadShares(er.Rest(), sharesLen as int - shareRead, key)
      decreases |er.Rest()|
    {
      var group :- er.U16();
      var klen :- er.U16();
      var share :- er.Take(klen);
      shareRead := shareRead + 4 + klen;
      if group == GROUP_X25519 && klen == 32 && key.None? { key := Some(share); }
    }
    var done := er.Exhausted();
    if !done { return Err(LengthMismatch); }
    return Ok(key);
  }

  method ParseVersions(data: bytes, seen: bool) returns (r: Result<bool, TlsError>)
    ensures r == ReadVersions(data, seen)
  {
    hide CutU16, CutU8, Cut;
    var er := new Reader(data);
    var listBytes :- er.U8();
    if listBytes % 2 != 0 { return Err(LengthMismatch); }
    var tls13, i := seen, 0;
    ghost var start := er.Rest();
    while i < listBytes / 2
      invariant er.Valid() && 0 <= i <= listBytes / 2
      invariant ReadVersionList(start, listBytes / 2, seen) == ReadVersionList(er.Rest(), listBytes / 2 - i, tls13)
    {
      var v :- er.U16();
      if v == 0x0304 { tls13 := true; }
      i := i + 1;
    }
    var done := er.Exhausted();
    if !done { return Err(LengthMismatch); }
    return Ok(tls13);
  }

  method ParseExtension(kind: u16, data: bytes, seen: Seen) returns (r: Result<Seen, TlsError>)
    ensures r == Interpret(Ext(kind, data), seen)
  {
    if kind == EXT_SERVER_NAME {
      var name :- ParseServerName(data);
      return Ok(seen.(sni := Some(name)));
    } else if kind == EXT_KEY_SHARE {
      var key :- ParseKeyShare(data, seen.key);
      return Ok(seen.(key := key));
    } else if kind == EXT_SUPPORTED_VERSIONS {
      var tls13 :- ParseVersions(data, seen.tls13);
      return Ok(seen.(tls13 := tls13));
    }
    return Ok(seen);
  }

  method ParseExtensions(r: Reader, extTotal: u16) returns (res: Result<Seen, TlsError>)
    requires r.Valid()
    modifies r
    ensures r.Valid()
    ensures match ReadExts(old(r.Rest()), extTotal, Seen(None, None, false))
            case Ok((seen, rest)) => res == Ok(seen) && r.Rest() == rest
            case Err(e) => res == Err(e)
  {
    hide Interpret, CutU16, Cut;
    var seen, extRead: int := Seen(None, None, false), 0;
    while extRead < extTotal
      invariant r.Valid() && 0 <= extRead <= extTotal
      invariant ReadExts(old(r.Rest()), extTotal, Seen(None, None, false))
                == ReadExts(r.Rest(), extTotal - extRead, seen)
    {
      var kind :- r.U16();
      var len :- r.U16();
      if extRead + 4 + len > extTotal { return Err(LengthMismatch); }
      var data :- r.Take(len);
      seen :- ParseExtension(kind, data, seen);
      extRead := extRead + 4 + len;
    }
    return Ok(seen);
  }

  method ParseRecordHeader(r: Reader) returns (res: Result<(), TlsError>)
    requires r.Valid()
    modifies r
    ensures r.Valid()
    ensures match RecordBody(old(r.Rest()))
            case Ok(body) => res == Ok(()) && r.Rest() == body
            case Err(e) => res == Err(e)
  {
    hide CutU8, CutU16, CutU24, Cut;
    var content :- r.U8();
    if content != 0x16 { return Err(BadRecordType); }
    var version :- r.Take(2);
    if version[0] != 0x03 || version[1] > 0x03 { return Err(BadRecordVersion); }
    var recordLen :- r.U16();
    if |r.buf| - r.pos != recordLen { return Err(LengthMismatch); }
    var message :- r.U8();
    if message != 0x01 { return Err(BadRecordType); }
    var bodyLen :- r.U24();
    if |r.buf| - r.pos != bodyLen { return Err(LengthMismatch); }
    return Ok(());
  }

  method ParseFixedFields(r: Reader) returns (res: Result<(bytes, bytes, u16), TlsError>)
    requires r.Valid()
    modifies r
    ensures r.Valid()
    ensures match BodyFront(old(r.Rest()))
            case Err(e) => res == Err(e)
            case Ok((random, sessionId, tail)) =>
              match ExtensionBlock(tail)
              case Err(e) => res == Err(e)
              case Ok((extTotal, exts)) => res == Ok((random, sessionId, extTotal)) && r.Rest() == exts
  {
    hide CutU8, CutU16, Cut;
    var legacyVersion :- r.Take(2);
    var random :- r.Take(32);
    var sidLen :- r.U8();
    if sidLen > 32 { return Err(ShortIdTooLong); }
    var sessionId :- r.Take(sidLen);
    var cipherLen :- r.U16();
    if cipherLen % 2 != 0 { return Err(LengthMismatch); }
    var suites :- r.Take(cipherLen);
    var compLen :- r.U8();
    var methods :- r.Take(compLen);
    var extTotal :- r.U16();
    return Ok((random, sessionId, extTotal));
  }

  method ParseClientHello(wire: bytes) returns (res: Result<ParsedClientHello, TlsError>)
    ensures res == ReadHello(wire)
  {
    hide RecordBody, BodyFront, ExtensionBlock, ReadExts;
    var r := new Reader(wire);
    var _ :- ParseRecordHeader(r);
    var fields :- ParseFixedFields(r);
    var seen :- ParseExtensions(r, fields.2);
    var done := r.Exhausted();
    if !done { return Err(TrailingBytes); }
    if seen.key.None? { return Err(NoX25519KeyShare); }
    return Ok(ParsedClientHello(seen.sni, fields.0, fields.1, seen.key.value, seen.tls13));
  }
}
