/**
  * The session's key material written out with literal bytes, without the client's own functions, as the server of the
  * other end computes it; and that the client's functions compute the same.
  */
module RealityReference {
  import opened Bytes
  import opened Primitives
  import opened Reality
  import opened Handshake
  import ClientHello

  /** "shadevpn-reality-hkdf-salt-v1" */
  const SALT: bytes := [
    0x73, 0x68, 0x61, 0x64, 0x65, 0x76, 0x70, 0x6e, 0x2d, 0x72, 0x65, 0x61, 0x6c, 0x69, 0x74, 0x79, 0x2d, 0x68, 0x6b,
    0x64, 0x66, 0x2d, 0x73, 0x61, 0x6c, 0x74, 0x2d, 0x76, 0x31]

  /** "shadevpn-record-keys-v1" */
  const KEY_INFO: bytes := [
    0x73, 0x68, 0x61, 0x64, 0x65, 0x76, 0x70, 0x6e, 0x2d, 0x72, 0x65, 0x63, 0x6f, 0x72, 0x64, 0x2d, 0x6b, 0x65, 0x79,
    0x73, 0x2d, 0x76, 0x31]

  /** "shadevpn-hello-random-v1" */
  const RANDOM_INFO: bytes := [
    0x73, 0x68, 0x61, 0x64, 0x65, 0x76, 0x70, 0x6e, 0x2d, 0x68, 0x65, 0x6c, 0x6c, 0x6f, 0x2d, 0x72, 0x61, 0x6e, 0x64,
    0x6f, 0x6d, 0x2d, 0x76, 0x31]

  /** "shadevpn-nonce-client-v1" */
  const CLIENT_DOMAIN: bytes := [
    0x73, 0x68, 0x61, 0x64, 0x65, 0x76, 0x70, 0x6e, 0x2d, 0x6e, 0x6f, 0x6e, 0x63, 0x65, 0x2d, 0x63, 0x6c, 0x69, 0x65,
    0x6e, 0x74, 0x2d, 0x76, 0x31]

  /** "shadevpn-nonce-server-v1" */
  const SERVER_DOMAIN: bytes := [
    0x73, 0x68, 0x61, 0x64, 0x65, 0x76, 0x70, 0x6e, 0x2d, 0x6e, 0x6f, 0x6e, 0x63, 0x65, 0x2d, 0x73, 0x65, 0x72, 0x76,
    0x65, 0x72, 0x2d, 0x76, 0x31]

  /** "shadevpn-purpose-response-v1" */
  const RESPONSE_PURPOSE: bytes := [
    0x73, 0x68, 0x61, 0x64, 0x65, 0x76, 0x70, 0x6e, 0x2d, 0x70, 0x75, 0x72, 0x70, 0x6f, 0x73, 0x65, 0x2d, 0x72, 0x65,
    0x73, 0x70, 0x6f, 0x6e, 0x73, 0x65, 0x2d, 0x76, 0x31]

  /** "shadevpn-purpose-data-v1" */
  const DATA_PURPOSE: bytes := [
    0x73, 0x68, 0x61, 0x64, 0x65, 0x76, 0x70, 0x6e, 0x2d, 0x70, 0x75, 0x72, 0x70, 0x6f, 0x73, 0x65, 0x2d, 0x64, 0x61,
    0x74, 0x61, 0x2d, 0x76, 0x31]

  /** "REALITY" */
  const REALITY: bytes := [0x52, 0x45, 0x41, 0x4c, 0x49, 0x54, 0x59]

  // ---- what the server computes ----

  /** The first twelve bytes of the hash of domain, purpose, session id and the number as eight big-endian bytes. */
  function Nonce(c: Primitives, domain: bytes, purpose: bytes, sid: bytes, n: u64): bytes
    requires Lawful(c)
  {
    c.sha256(domain + purpose + sid + Digits(n, 8))[..12]
  }

  /** The key that guards session id and certificate. */
  function GuardKey(c: Primitives, shared: bytes, random: bytes): bytes
    requires |random| == 32
  {
    c.hkdf(random[..20], shared, REALITY, 32)
  }

  /** Sixty-four bytes of key material over session id and fresh agreement: client to server, then server to client. */
  function KeyMaterial(c: Primitives, sid: bytes, agreement: bytes): (k: bytes)
    requires Lawful(c)
    ensures |k| == 64
  {
    c.hkdf(SALT, c.sha256(sid + agreement), KEY_INFO, 64)
  }

  /** What the session id says once opened: "SV" and 1, a zero byte, the time, the short id with its zeros. */
  function Opening(time: u32, shortId: bytes): bytes
    requires |shortId| <= 8
  {
    [0x53, 0x56, 0x01, 0x00] + Digits(time, 4) + shortId + Zeros(8 - |shortId|)
  }

  // ---- the client's functions compute these ----

  lemma SaltAgrees()
    ensures HkdfSalt() == SALT
  {
  }

  lemma KeyInfoAgrees()
    ensures KeyInfo() == KEY_INFO
  {
  }

  lemma RandomInfoAgrees()
    ensures RandomInfo() == RANDOM_INFO
  {
  }

  lemma RealityAgrees()
    ensures Ascii("REALITY") == REALITY
  {
  }

  lemma ClientDomainAgrees()
    ensures Domain(Client) == CLIENT_DOMAIN
  {
  }

  lemma ServerDomainAgrees()
    ensures Domain(Server) == SERVER_DOMAIN
  {
  }

  lemma ResponsePurposeAgrees()
    ensures PurposeLabel(Response) == RESPONSE_PURPOSE
  {
  }

  lemma DataPurposeAgrees()
    ensures PurposeLabel(Data) == DATA_PURPOSE
  {
  }

  function DomainBytes(d: Direction): bytes { if d.Client? then CLIENT_DOMAIN else SERVER_DOMAIN }

  function PurposeBytes(p: Purpose): bytes { if p.Response? then RESPONSE_PURPOSE else DATA_PURPOSE }

  lemma NonceAgrees(c: Primitives, sid: bytes, n: u64, d: Direction, p: Purpose)
    requires Lawful(c)
    ensures DeriveNonce(c, sid, n, d, p) == Nonce(c, DomainBytes(d), PurposeBytes(p), sid, n)
  {
    hide Domain, PurposeLabel, PutU64, Digits;
    PutU64Digits(n);
    match d { case Client => ClientDomainAgrees(); case Server => ServerDomainAgrees(); }
    match p { case Response => ResponsePurposeAgrees(); case Data => DataPurposeAgrees(); }
  }

  lemma GuardKeyAgrees(c: Primitives, shared: bytes, random: bytes)
    requires |random| == 32
    ensures AuthKey(c, shared, random) == GuardKey(c, shared, random)
  {
    hide Ascii;
    RealityAgrees();
  }

  lemma KeyMaterialAgrees(c: Primitives, sid: bytes, agreement: bytes)
    requires Lawful(c)
    ensures var k := KeyMaterial(c, sid, agreement); KeysFrom(c, sid, agreement) == (k[..32], k[32..])
  {
    hide HkdfSalt, KeyInfo;
    SaltAgrees();
    KeyInfoAgrees();
  }

  lemma HelloRandomAgrees(c: Primitives, shared: bytes)
    ensures HelloRandom(c, shared) == c.hkdf(SALT, shared, RANDOM_INFO, 32)
  {
    hide HkdfSalt, RandomInfo;
    SaltAgrees();
    RandomInfoAgrees();
  }

  lemma OpeningAgrees(time: u32, shortId: bytes)
    requires |shortId| <= 8
    ensures SidPlain(CLIENT_VERSION, time, ShortIdSlot(shortId)) == Opening(time, shortId)
  {
    PutU32Digits(time);
    hide PutU32, Digits;
    assert CLIENT_VERSION + [0] == [0x53, 0x56, 0x01, 0x00];
  }

  // ---- when two nonces are the same ----

  /** What is hashed, in literal bytes. */
  function Preimage(sid: bytes, n: u64, d: Direction, p: Purpose): bytes {
    DomainBytes(d) + PurposeBytes(p) + sid + Digits(n, 8)
  }

  /** Two different strings whose hashes agree in their first twelve bytes. */
  predicate Collides(c: Primitives, x: bytes, y: bytes)
    requires Lawful(c)
  {
    x != y && c.sha256(x)[..12] == c.sha256(y)[..12]
  }

  lemma PreimageAgrees(sid: bytes, n: u64, d: Direction, p: Purpose)
    ensures NoncePreimage(sid, n, d, p) == Preimage(sid, n, d, p)
  {
    hide Domain, PurposeLabel, PutU64, Digits;
    PutU64Digits(n);
    match d { case Client => ClientDomainAgrees(); case Server => ServerDomainAgrees(); }
    match p { case Response => ResponsePurposeAgrees(); case Data => DataPurposeAgrees(); }
  }

  /**
    * Two nonces are the same if and only if session id, number, direction and purpose are, or the hash collides on
    * exactly their two preimages.
    */
  lemma NonceRepeatsOnlyByCollision(c: Primitives, s: bytes, m: u64, d: Direction, p: Purpose,
                                    s': bytes, m': u64, d': Direction, p': Purpose)
    requires Lawful(c) && |s| == 32 && |s'| == 32
    ensures DeriveNonce(c, s, m, d, p) == DeriveNonce(c, s', m', d', p') <==>
            (s, m, d, p) == (s', m', d', p') || Collides(c, Preimage(s, m, d, p), Preimage(s', m', d', p'))
  {
    hide DomainBytes, PurposeBytes, Digits, NoncePreimage;
    NonceAgrees(c, s, m, d, p);
    NonceAgrees(c, s', m', d', p');
    PreimageAgrees(s, m, d, p);
    PreimageAgrees(s', m', d', p');
    if Preimage(s, m, d, p) == Preimage(s', m', d', p') { NoncePreimageInjective(s, m, d, p, s', m', d', p'); }
  }

  /** A sealed record, and what opens one: key, nonce and plaintext, with nothing else authenticated. */
  lemma RecordsAreSealedUnder(c: Primitives, keys: RecordKeys, sid: bytes, n: u64, text: bytes)
    requires Lawful(c)
    ensures SealRecord(c, Some(keys), sid, n, text)
            == Some(c.seal(keys.send, Nonce(c, CLIENT_DOMAIN, DATA_PURPOSE, sid, n), [], text))
    ensures OpenRecord(c, Some(keys), sid, n, text)
            == c.unseal(keys.recv, Nonce(c, SERVER_DOMAIN, DATA_PURPOSE, sid, n), [], text)
  {
    hide DeriveNonce, Nonce;
    NonceAgrees(c, sid, n, Client, Data);
    NonceAgrees(c, sid, n, Server, Data);
  }

  /** Records of one session at different numbers, or of different directions, share no nonce short of a collision. */
  lemma RecordNoncesDiffer(c: Primitives, sid: bytes, m: u64, d: Direction, n: u64, e: Direction)
    requires Lawful(c) && |sid| == 32 && (m != n || d != e)
    requires !Collides(c, Preimage(sid, m, d, Data), Preimage(sid, n, e, Data))
    ensures DeriveNonce(c, sid, m, d, Data) != DeriveNonce(c, sid, n, e, Data)
  {
    hide DeriveNonce, Preimage, Collides;
    NonceRepeatsOnlyByCollision(c, sid, m, d, Data, sid, n, e, Data);
  }

  // ---- what the client asks of its parameters and of a response ----

  /**
    * A hello is made exactly for a short id of one to eight bytes, a server key that is not all zeros, an agreement
    * that is not all zeros and a name of any length but 141.
    */
  lemma InitiatesExactlyIf(c: Primitives, params: Params, ephemeral: bytes, time: u32)
    requires Lawful(c)
    ensures Initiated(c, params, ephemeral, time).Ok? <==>
            && 1 <= |params.shortId| <= 8 && params.serverPublic != Zeros(32)
            && c.dh(ephemeral, params.serverPublic) != Zeros(32) && |params.sni| != 141
  {
    hide ClientHello.HelloTail, AuthKey, HelloRandom, SidPlain;
    var shared := c.dh(ephemeral, params.serverPublic);
    var random := HelloRandom(c, shared);
    HelloRandomAgrees(c, shared);
    assert |random| == 32;
    HelloIsLong(Some(params.sni), c.publicKey(ephemeral), random);
    if 1 <= |params.shortId| <= 8 {
      OpeningAgrees(time, params.shortId);
    }
  }

  lemma HelloIsLong(sni: Option<bytes>, key: bytes, random: bytes)
    requires |random| == 32
    ensures |ClientHello.HelloBytes(sni, key, random, Zeros(32))| >= 76
  {
    hide ClientHello.HelloTail;
  }

  /** The checks before the keys are set: at least 144 bytes, the MAC of the first 32 in the next 64, an agreement. */
  predicate Keying(c: Primitives, st: Started, response: bytes) {
    && |response| >= 144 && response[32..96] == c.hmac512(st.authKey, response[..32])
    && c.dh(st.ephemeral, response[96..128]) != Zeros(32)
  }

  /**
    * A first completion sets keys exactly for a response that passes those checks, the two halves of its key material,
    * and succeeds exactly if, besides, what follows the 128 bytes opens as the server's record zero under the second.
    */
  lemma AcceptedExactlyIf(c: Primitives, st: Started, response: bytes)
    requires Lawful(c)
    ensures var (_, keys, ok) := Completed(c, st, false, None, response);
            && (keys.Some? <==> Keying(c, st, response))
            && (Keying(c, st, response) ==>
                  var k := KeyMaterial(c, st.sealedSessionId, c.dh(st.ephemeral, response[96..128]));
                  keys.value == RecordKeys(k[..32], k[32..]))
            && (ok <==>
                  && Keying(c, st, response)
                  && var k := KeyMaterial(c, st.sealedSessionId, c.dh(st.ephemeral, response[96..128]));
                     c.unseal(k[32..], Nonce(c, SERVER_DOMAIN, RESPONSE_PURPOSE, st.sealedSessionId, 0), [],
                              response[128..]).Some?)
  {
    hide DeriveNonce, Nonce, KeysFrom, KeyMaterial;
    if |response| >= 144 {
      NonceAgrees(c, st.sealedSessionId, 0, Server, Response);
      KeyMaterialAgrees(c, st.sealedSessionId, c.dh(st.ephemeral, response[96..128]));
      assert response[..96][32..] == response[32..96] && response[..96][..32] == response[..32];
    }
  }
}
