/** The client handshake: the sealed hello, single-use completion, and per-record sealing. */
module Handshake {
  import opened Bytes
  import opened ClientHello
  import opened Primitives
  import opened Reality

  datatype HandshakeError =
    | BadServerKey | BadShortId | SessionAuthRejected | SealFailed | EphemeralKeyFailed | BuildAborted

  datatype Params = Params(sni: bytes, serverPublic: bytes, shortId: bytes)

  datatype RecordKeys = RecordKeys(send: bytes, recv: bytes)

  datatype Direction = Client | Server

  datatype Purpose = Response | Data

  const CLIENT_VERSION: bytes := [0x53, 0x56, 0x01]
  const CERT_LEN := 96
  const SHARE_LEN := 32
  const SERVER_RESPONSE_MIN := 144

  function HkdfSalt(): bytes { Ascii("shadevpn-reality-hkdf-salt-v1") }
  function KeyInfo(): bytes { Ascii("shadevpn-record-keys-v1") }
  function RandomInfo(): bytes { Ascii("shadevpn-hello-random-v1") }

  function Domain(d: Direction): bytes {
    match d
    case Client => Ascii("shadevpn-nonce-client-v1")
    case Server => Ascii("shadevpn-nonce-server-v1")
  }

  function PurposeLabel(p: Purpose): bytes {
    match p
    case Response => Ascii("shadevpn-purpose-response-v1")
    case Data => Ascii("shadevpn-purpose-data-v1")
  }

  // ---- nonces ----

  function NoncePreimage(sessionId: bytes, seqno: u64, d: Direction, p: Purpose): bytes {
    Domain(d) + PurposeLabel(p) + sessionId + PutU64(seqno)
  }

  function DeriveNonce(c: Primitives, sessionId: bytes, seqno: u64, d: Direction, p: Purpose): bytes
    requires Lawful(c)
  {
    c.sha256(NoncePreimage(sessionId, seqno, d, p))[..12]
  }

  lemma Labels()
    ensures |Domain(Client)| == |Domain(Server)| == 24
    ensures Domain(Client)[15] != Domain(Server)[15]
    ensures |PurposeLabel(Response)| == 28 && |PurposeLabel(Data)| == 24
  {
    assert "shadevpn-nonce-client-v1"[15] == 'c' && "shadevpn-nonce-server-v1"[15] == 's';
  }

  lemma PartsDetermined(a: bytes, b: bytes, s: bytes, q: bytes, a': bytes, b': bytes, s': bytes, q': bytes)
    requires |a| == |a'| && |b| == |b'| && |s| == |s'| && |q| == |q'|
    requires a + b + s + q == a' + b' + s' + q'
    ensures a == a' && b == b' && s == s' && q == q'
  {
    var x, y := a + b + s + q, a' + b' + s' + q';
    assert x[..|a|] == a && y[..|a|] == a';
    assert x[|a|..|a| + |b|] == b && y[|a|..|a| + |b|] == b';
    assert x[|a| + |b|..|a| + |b| + |s|] == s && y[|a| + |b|..|a| + |b| + |s|] == s';
    assert x[|a| + |b| + |s|..] == q && y[|a| + |b| + |s|..] == q';
  }

  /** What is hashed into a nonce determines direction, purpose, session and sequence number. */
  lemma NoncePreimageInjective(s: bytes, m: u64, d: Direction, p: Purpose, s': bytes, m': u64, d': Direction,
                               p': Purpose)
    requires |s| == 32 && |s'| == 32
    requires NoncePreimage(s, m, d, p) == NoncePreimage(s', m', d', p')
    ensures s == s' && m == m' && d == d' && p == p'
  {
    hide Domain, PurposeLabel, PutU64;
    Labels();
    assert |Domain(d)| == |Domain(d')| == 24 by {
      match d { case Client => case Server => }
      match d' { case Client => case Server => }
    }
    assert p == p' by {
      assert |NoncePreimage(s, m, d, p)| == 24 + |PurposeLabel(p)| + 40;
      assert |NoncePreimage(s', m', d', p')| == 24 + |PurposeLabel(p')| + 40;
      match p { case Response => case Data => }
      match p' { case Response => case Data => }
    }
    PartsDetermined(Domain(d), PurposeLabel(p), s, PutU64(m), Domain(d'), PurposeLabel(p'), s', PutU64(m'));
    PutU64Injective(m, m');
  }

  // ---- initiation ----

  /** What `initiate` fixes for the session; the ephemeral secret and the clock are inputs. */
  datatype Started = Started(ephemeral: bytes, authKey: bytes, wireHello: bytes, sealedSessionId: bytes)

  function HelloRandom(c: Primitives, shared: bytes): bytes { c.hkdf(HkdfSalt(), shared, RandomInfo(), 32) }

  /** The hello is built over a zeroed session id, sealed over, and then patched in place. */
  function Initiated(c: Primitives, params: Params, ephemeral: bytes, time: u32): Result<Started, HandshakeError>
    requires Lawful(c)
  {
    if params.shortId == [] || |params.shortId| > 8 then Err(BadShortId)
    else if params.serverPublic == Zeros(32) then Err(BadServerKey)
    else
      var shared := c.dh(ephemeral, params.serverPublic);
      if shared == Zeros(32) then Err(EphemeralKeyFailed)
      else if |params.sni| == 141 then Err(BuildAborted)
      else
        var random := HelloRandom(c, shared);
        var authKey := AuthKey(c, shared, random);
        var zeroed := HelloBytes(Some(params.sni), c.publicKey(ephemeral), random, Zeros(32));
        match SealSessionId(c, authKey, random, zeroed, CLIENT_VERSION, time, params.shortId)
        case Err(_) => Err(SealFailed)
        case Ok(sid) =>
          if |zeroed| < SESSION_ID_OFFSET + |sid| then Err(SealFailed)
          else Ok(Started(ephemeral, authKey, Patched(zeroed, sid), sid))
  }

  // ---- completion ----

  function Ecdhe(c: Primitives, st: Started, response: bytes): bytes
    requires |response| >= SERVER_RESPONSE_MIN
  {
    c.dh(st.ephemeral, response[CERT_LEN..CERT_LEN + SHARE_LEN])
  }

  function KeysFrom(c: Primitives, sessionId: bytes, ecdhe: bytes): (bytes, bytes)
    requires Lawful(c)
  {
    var k := c.hkdf(HkdfSalt(), SessionIdentity(c, sessionId, ecdhe), KeyInfo(), 64);
    (k[..32], k[32..])
  }

  function ResponseKeys(c: Primitives, st: Started, response: bytes): RecordKeys
    requires Lawful(c) && |response| >= SERVER_RESPONSE_MIN
  {
    var (send, recv) := KeysFrom(c, st.sealedSessionId, Ecdhe(c, st, response));
    RecordKeys(send, recv)
  }

  /** Everything checked before the key cell is written. */
  predicate Authentic(c: Primitives, st: Started, response: bytes) {
    && |response| >= SERVER_RESPONSE_MIN
    && CertificateOk(c, st.authKey, response[..CERT_LEN])
    && Ecdhe(c, st, response) != Zeros(32)
  }

  predicate Confirmed(c: Primitives, st: Started, response: bytes)
    requires Lawful(c) && |response| >= SERVER_RESPONSE_MIN
  {
    c.unseal(ResponseKeys(c, st, response).recv, DeriveNonce(c, st.sealedSessionId, 0, Server, Response), [],
             response[CERT_LEN + SHARE_LEN..]).Some?
  }

  /** One uninterrupted `complete` call on the completion flag and the key cell. */
  function Completed(c: Primitives, st: Started, completed: bool, keys: Option<RecordKeys>, response: bytes)
    : (bool, Option<RecordKeys>, bool)
    requires Lawful(c)
  {
    if completed then (true, keys, false)
    else if !Authentic(c, st, response) || keys.Some? then (false, keys, false)
    else (Confirmed(c, st, response), Some(ResponseKeys(c, st, response)), Confirmed(c, st, response))
  }

  class HandshakeState {
    const c: Primitives
    const st: Started
    var recordKeys: Option<RecordKeys>
    var completed: bool

    constructor (prims: Primitives, started: Started)
      ensures c == prims && st == started && recordKeys == None && !completed
    {
      c, st, recordKeys, completed := prims, started, None, false;
    }

    method Complete(response: bytes) returns (r: Result<(), HandshakeError>)
      requires Lawful(c)
      modifies this
      ensures (completed, recordKeys, r.Ok?) == Completed(c, st, old(completed), old(recordKeys), response)
      ensures r.Err? ==> r == Err(SessionAuthRejected)
    {
      if completed { return Err(SessionAuthRejected); }
      completed := true;
      if |response| < SERVER_RESPONSE_MIN { completed := false; return Err(SessionAuthRejected); }
      var verified := VerifyTemporaryCertificate(c, st.authKey, response[..CERT_LEN]);
      if verified.Err? { completed := false; return Err(SessionAuthRejected); }
      var ecdhe := c.dh(st.ephemeral, response[CERT_LEN..CERT_LEN + SHARE_LEN]);
      if ecdhe == Zeros(32) { completed := false; return Err(SessionAuthRejected); }
      var (send, recv) := KeysFrom(c, st.sealedSessionId, ecdhe);
      if recordKeys.Some? { completed := false; return Err(SessionAuthRejected); }
      recordKeys := Some(RecordKeys(send, recv));
      var nonce := DeriveNonce(c, st.sealedSessionId, 0, Server, Response);
      var opening := c.unseal(recv, nonce, [], response[CERT_LEN + SHARE_LEN..]);
      if opening.None? { completed := false; return Err(SessionAuthRejected); }
      return Ok(());
    }
  }

  function SealRecord(c: Primitives, keys: Option<RecordKeys>, sid: bytes, seqno: u64, plaintext: bytes): Option<bytes>
    requires Lawful(c)
  {
    if keys.None? then None
    else Some(c.seal(keys.value.send, DeriveNonce(c, sid, seqno, Client, Data), [], plaintext))
  }

  function OpenRecord(c: Primitives, keys: Option<RecordKeys>, sid: bytes, seqno: u64, ciphertext: bytes): Option<bytes>
    requires Lawful(c)
  {
    if keys.None? then None
    else c.unseal(keys.value.recv, DeriveNonce(c, sid, seqno, Server, Data), [], ciphertext)
  }
}
