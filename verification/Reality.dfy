/** REALITY session material: the sealed session id and the temporary trusted certificate. */
module Reality {
  import opened Bytes
  import opened ClientHello
  import opened Primitives

  datatype RealityError = ShortIdTooLong | SessionIdRejected | CertRejected | Layout

  datatype SessionIdPlain = SessionIdPlain(clientVersion: bytes, unixTime: u32, shortId: bytes)

  function AuthKey(c: Primitives, shared: bytes, random: bytes): bytes
    requires |random| == 32
  {
    c.hkdf(random[..20], shared, Ascii("REALITY"), 32)
  }

  /** The short id in its eight-byte slot. */
  function ShortIdSlot(shortId: bytes): (slot: bytes)
    requires |shortId| <= 8
    ensures |slot| == 8
  {
    shortId + Zeros(8 - |shortId|)
  }

  function SidPlain(version: bytes, time: u32, slot: bytes): bytes { version + [0] + PutU32(time) + slot }

  function SealSessionId(c: Primitives, key: bytes, random: bytes, zeroed: bytes, version: bytes, time: u32,
                         shortId: bytes)
    : (r: Result<bytes, RealityError>)
    requires |random| == 32
  {
    if |shortId| > 8 then Err(RealityError.ShortIdTooLong)
    else if |zeroed| < SESSION_ID_OFFSET + 32 then Err(Layout)
    else Ok(c.seal(key, random[20..32], zeroed, SidPlain(version, time, ShortIdSlot(shortId))))
  }

  function UnsealSessionId(c: Primitives, key: bytes, random: bytes, zeroed: bytes, sessionId: bytes)
    : (r: Result<SessionIdPlain, RealityError>)
    requires |random| == 32
  {
    if |zeroed| < SESSION_ID_OFFSET + 32 then Err(Layout)
    else
      match c.unseal(key, random[20..32], zeroed, sessionId)
      case None => Err(SessionIdRejected)
      case Some(plain) =>
        if |plain| != 16 then Err(Layout)
        else Ok(SessionIdPlain(plain[..3], U32(plain[4], plain[5], plain[6], plain[7]), plain[8..]))
  }

  /**
    * Unsealing what was sealed under the same key, random and zeroed hello gives the version, the time and the padded
    * short id.
    */
  lemma UnsealInvertsSeal(c: Primitives, key: bytes, random: bytes, zeroed: bytes, version: bytes, time: u32,
                          shortId: bytes)
    requires Lawful(c) && |random| == 32 && |version| == 3 && |shortId| <= 8 && |zeroed| >= SESSION_ID_OFFSET + 32
    ensures var sealed := SealSessionId(c, key, random, zeroed, version, time, shortId);
            && sealed.Ok? && |sealed.value| == 32
            && UnsealSessionId(c, key, random, zeroed, sealed.value)
               == Ok(SessionIdPlain(version, time, ShortIdSlot(shortId)))
  {
    hide PutU32, U32, ShortIdSlot;
    SidPlainParts(version, PutU32(time), ShortIdSlot(shortId));
  }

  lemma SidPlainParts(version: bytes, time: bytes, slot: bytes)
    requires |version| == 3 && |time| == 4 && |slot| == 8
    ensures var plain := version + [0] + time + slot;
            plain[..3] == version && plain[8..] == slot && forall i | 0 <= i < 4 :: plain[4 + i] == time[i]
    ensures var plain := version + [0] + time + slot;
            plain[4] == time[0] && plain[5] == time[1] && plain[6] == time[2] && plain[7] == time[3]
  {
  }

  function TemporaryCertificate(c: Primitives, authKey: bytes, verifying: bytes): bytes {
    verifying + c.hmac512(authKey, verifying)
  }

  predicate CertificateOk(c: Primitives, authKey: bytes, certificate: bytes) {
    |certificate| == 96 && certificate[32..] == c.hmac512(authKey, certificate[..32])
  }

  /** The folded comparison accepts exactly the certificates whose tag is the MAC of their key. */
  method VerifyTemporaryCertificate(c: Primitives, authKey: bytes, certificate: bytes)
    returns (r: Result<(), RealityError>)
    requires forall k, x :: |c.hmac512(k, x)| == 64
    ensures r == if CertificateOk(c, authKey, certificate) then Ok(()) else Err(CertRejected)
  {
    if |certificate| != 96 { return Err(CertRejected); }
    var pub, sig := certificate[..32], certificate[32..];
    var mac := c.hmac512(authKey, pub);
    var ok, i := true, 0;
    while i < |mac| && i < |sig|
      invariant 0 <= i <= 64
      invariant ok <==> mac[..i] == sig[..i]
    {
      assert mac[..i + 1] == mac[..i] + [mac[i]] && sig[..i + 1] == sig[..i] + [sig[i]];
      ok := ok && mac[i] == sig[i];
      i := i + 1;
    }
    assert mac[..i] == mac && sig[..i] == sig;
    if ok { return Ok(()); } else { return Err(CertRejected); }
  }

  lemma IssuedCertificateVerifies(c: Primitives, authKey: bytes, verifying: bytes)
    requires Lawful(c) && |verifying| == 32
    ensures CertificateOk(c, authKey, TemporaryCertificate(c, authKey, verifying))
  {
    var cert := TemporaryCertificate(c, authKey, verifying);
    assert cert[..32] == verifying && cert[32..] == c.hmac512(authKey, verifying);
  }

  function SessionIdentity(c: Primitives, sessionId: bytes, shared: bytes): bytes { c.sha256(sessionId + shared) }
}
