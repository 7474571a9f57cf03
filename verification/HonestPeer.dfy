/** The two-party protocol: the client of `Handshake` against the honest server, records included. */
module HonestPeer {
  import opened Bytes
  import opened ClientHello
  import opened Primitives
  import opened Reality
  import opened Handshake
  import opened VlessStream
  import RequestHeader
  import VisionIo
  import Vision
  import RealityReference

  datatype ServerError =
    | BadHello(e: TlsError) | NoSni | ShortFrame | BadSessionIdLength | SessionIdFailed | VersionMismatch
    | ShortIdNotAllowed

  /** What the server knows after accepting a hello. */
  datatype Accepted = Accepted(sni: bytes, sid: bytes, time: u32, authKey: bytes, clientPublic: bytes)

  /**
    * The server's side of the hello: parse, agree on the key, zero the 32 bytes at offset 44 again, open the session id
    * over the result, check "SV" 1 and the short id, read the time. Nothing here goes through the client's own
    * functions.
    */
  function ServerAccepts(c: Primitives, serverSecret: bytes, allowed: bytes, frame: bytes)
    : Result<Accepted, ServerError>
    requires Lawful(c)
  {
    match ReadHello(frame)
    case Err(e) => Err(BadHello(e))
    case Ok(hello) =>
      if hello.sni.None? then Err(NoSni)
      else if |frame| < 76 then Err(ShortFrame)
      else if |hello.sessionId| != 32 then Err(BadSessionIdLength)
      else
        var shared := c.dh(serverSecret, hello.ephemeralPublic);
        var authKey := RealityReference.GuardKey(c, shared, hello.random);
        match c.unseal(authKey, hello.random[20..32], frame[..44] + Zeros(32) + frame[76..], hello.sessionId)
        case None => Err(SessionIdFailed)
        case Some(plain) =>
          if |plain| != 16 then Err(SessionIdFailed)
          else if plain[..3] != [0x53, 0x56, 0x01] then Err(VersionMismatch)
          else if plain[8..] != allowed then Err(ShortIdNotAllowed)
          else Ok(Accepted(hello.sni.value, hello.sessionId, U32(plain[4], plain[5], plain[6], plain[7]), authKey,
                           hello.ephemeralPublic))
  }

  /** Server-side keys: what the client sends with, the server receives with. */
  function ServerKeys(c: Primitives, a: Accepted, serverEphemeral: bytes): RecordKeys
    requires Lawful(c)
  {
    var k := RealityReference.KeyMaterial(c, a.sid, c.dh(serverEphemeral, a.clientPublic));
    RecordKeys(k[32..], k[..32])
  }

  /** "shadevpn-server-ok" */
  const SERVER_OK: bytes := [
    0x73, 0x68, 0x61, 0x64, 0x65, 0x76, 0x70, 0x6e, 0x2d, 0x73, 0x65, 0x72, 0x76, 0x65, 0x72, 0x2d, 0x6f, 0x6b]

  /**
    * A certificate tagged with its MAC under the guard key, the server's share, and a confirmation under the fresh key.
    */
  function ServerResponse(c: Primitives, a: Accepted, serverEphemeral: bytes, certKey: bytes): bytes
    requires Lawful(c)
  {
    var cert := c.publicKey(certKey);
    cert + c.hmac512(a.authKey, cert) + c.publicKey(serverEphemeral)
    + c.seal(ServerKeys(c, a, serverEphemeral).send,
             RealityReference.Nonce(c, RealityReference.SERVER_DOMAIN, RealityReference.RESPONSE_PURPOSE, a.sid, 0), [],
             SERVER_OK)
  }

  /** A profile the honest server can serve: its own public key, and a name the hello can carry. */
  predicate Servable(c: Primitives, params: Params, serverSecret: bytes)
    requires Lawful(c)
  {
    && params.serverPublic == c.publicKey(serverSecret)
    && Utf8(params.sni) && HandshakeLen(Some(params.sni), Zeros(32)) < 0x1_0000
  }

  /**
    * The hello the client puts on the wire is the hello built with the sealed session id, and zeroing it gives back
    * what was sealed over.
    */
  lemma WireHello(c: Primitives, params: Params, ephemeral: bytes, time: u32)
    requires Lawful(c) && Initiated(c, params, ephemeral, time).Ok?
    ensures var st := Initiated(c, params, ephemeral, time).value;
            var random := HelloRandom(c, c.dh(ephemeral, params.serverPublic));
            var zeroed := HelloBytes(Some(params.sni), c.publicKey(ephemeral), random, Zeros(32));
            && |st.sealedSessionId| == 32 && |zeroed| >= SESSION_ID_OFFSET + 32
            && |st.wireHello| >= SESSION_ID_OFFSET + 32
            && st.wireHello == HelloBytes(Some(params.sni), c.publicKey(ephemeral), random, st.sealedSessionId)
            && Patched(st.wireHello, Zeros(32)) == zeroed
            && UnsealSessionId(c, st.authKey, random, zeroed, st.sealedSessionId)
               == Ok(SessionIdPlain(CLIENT_VERSION, time, ShortIdSlot(params.shortId)))
            && |params.shortId| <= 8
            && c.unseal(st.authKey, random[20..32], zeroed, st.sealedSessionId)
               == Some(RealityReference.Opening(time, params.shortId))
            && st.authKey == RealityReference.GuardKey(c, c.dh(ephemeral, params.serverPublic), random)
  {
    hide HelloBytes, Patched, SealSessionId, UnsealSessionId, RealityReference.Opening, AuthKey,
         RealityReference.GuardKey;
    RealityReference.GuardKeyAgrees(c, c.dh(ephemeral, params.serverPublic),
                                    HelloRandom(c, c.dh(ephemeral, params.serverPublic)));
    SealedOpens(c, params, ephemeral, time);
    var random := HelloRandom(c, c.dh(ephemeral, params.serverPublic));
    var sni, key := Some(params.sni), c.publicKey(ephemeral);
    var st := Initiated(c, params, ephemeral, time).value;
    var zeroed := HelloBytes(sni, key, random, Zeros(32));
    PatchEqualsRebuild(sni, key, random, Zeros(32), Zeros(32));
    UnsealInvertsSeal(c, st.authKey, random, zeroed, CLIENT_VERSION, time, params.shortId);
    PatchEqualsRebuild(sni, key, random, Zeros(32), st.sealedSessionId);
    PatchEqualsRebuild(sni, key, random, st.sealedSessionId, Zeros(32));
  }

  lemma SealedOpens(c: Primitives, params: Params, ephemeral: bytes, time: u32)
    requires Lawful(c) && Initiated(c, params, ephemeral, time).Ok?
    ensures var st := Initiated(c, params, ephemeral, time).value;
            var random := HelloRandom(c, c.dh(ephemeral, params.serverPublic));
            var zeroed := HelloBytes(Some(params.sni), c.publicKey(ephemeral), random, Zeros(32));
            && |params.shortId| <= 8
            && c.unseal(st.authKey, random[20..32], zeroed, st.sealedSessionId)
               == Some(RealityReference.Opening(time, params.shortId))
  {
    hide HelloBytes, Patched, AuthKey, SidPlain, RealityReference.Opening, ShortIdSlot;
    RealityReference.OpeningAgrees(time, params.shortId);
  }

  /** Reading the opened session id. */
  lemma OpeningRead(time: u32, shortId: bytes)
    requires |shortId| <= 8
    ensures var plain := RealityReference.Opening(time, shortId);
            && |plain| == 16 && plain[..3] == [0x53, 0x56, 0x01] && plain[8..] == ShortIdSlot(shortId)
            && U32(plain[4], plain[5], plain[6], plain[7]) == time
  {
    PutU32Digits(time);
    hide U32, PutU32, Digits;
    var t, slot := Digits(time, 4), shortId + Zeros(8 - |shortId|);
    var plain := RealityReference.Opening(time, shortId);
    assert plain == [0x53, 0x56, 0x01] + [0x00] + t + slot;
    SidPlainParts([0x53, 0x56, 0x01], t, slot);
  }

  /**
    * The honest server accepts every such hello when the short id is the allowed one, and learns exactly the client's
    * values.
    */
  lemma HonestServerAccepts(c: Primitives, params: Params, serverSecret: bytes, ephemeral: bytes, time: u32,
                            allowed: bytes)
    requires Lawful(c) && Servable(c, params, serverSecret) && Initiated(c, params, ephemeral, time).Ok?
    ensures var st := Initiated(c, params, ephemeral, time).value;
            ServerAccepts(c, serverSecret, allowed, st.wireHello) ==
            if allowed == ShortIdSlot(params.shortId)
            then Ok(Accepted(params.sni, st.sealedSessionId, time, st.authKey, c.publicKey(ephemeral)))
            else Err(ShortIdNotAllowed)
  {
    hide HelloBytes, UnsealSessionId, ReadHello, SealSessionId, RealityReference.Opening, RealityReference.GuardKey,
         U32;
    WireHello(c, params, ephemeral, time);
    OpeningRead(time, params.shortId);
    var st := Initiated(c, params, ephemeral, time).value;
    var random := HelloRandom(c, c.dh(ephemeral, params.serverPublic));
    assert HandshakeLen(Some(params.sni), st.sealedSessionId) < 0x1_0000;
    ParseInvertsBuildHello(Some(params.sni), c.publicKey(ephemeral), random, st.sealedSessionId);
    assert c.dh(serverSecret, c.publicKey(ephemeral)) == c.dh(ephemeral, params.serverPublic);
  }

  lemma ResponseParts(cert: bytes, share: bytes, confirm: bytes)
    requires |cert| == 96 && |share| == 32
    ensures var r := cert + share + confirm;
            r[..CERT_LEN] == cert && r[CERT_LEN..CERT_LEN + SHARE_LEN] == share && r[CERT_LEN + SHARE_LEN..] == confirm
  {
  }

  /**
    * Completing against the honest server's response succeeds on a fresh handshake, unless the fresh
    * key agreement is all zero, and leaves the two sides with mirrored keys.
    */
  lemma HonestCompletion(c: Primitives, st: Started, a: Accepted, serverEphemeral: bytes, certKey: bytes)
    requires Lawful(c)
    requires a.sid == st.sealedSessionId && a.authKey == st.authKey && a.clientPublic == c.publicKey(st.ephemeral)
    ensures var response := ServerResponse(c, a, serverEphemeral, certKey);
            var theirs := ServerKeys(c, a, serverEphemeral);
            && |response| >= SERVER_RESPONSE_MIN
            && ResponseKeys(c, st, response) == RecordKeys(theirs.recv, theirs.send)
            && Completed(c, st, false, None, response) ==
               if c.dh(serverEphemeral, a.clientPublic) == Zeros(32) then (false, None, false)
               else (true, Some(RecordKeys(theirs.recv, theirs.send)), true)
  {
    hide TemporaryCertificate, CertificateOk, DeriveNonce, KeysFrom, RealityReference.Nonce,
         RealityReference.KeyMaterial;
    var pub := c.publicKey(certKey);
    var cert := TemporaryCertificate(c, a.authKey, pub);
    CertificateLen(c, a.authKey, pub);
    var share := c.publicKey(serverEphemeral);
    var theirs := ServerKeys(c, a, serverEphemeral);
    RealityReference.KeyMaterialAgrees(c, a.sid, c.dh(serverEphemeral, a.clientPublic));
    RealityReference.NonceAgrees(c, a.sid, 0, Server, Response);
    var confirm := c.seal(theirs.send, DeriveNonce(c, a.sid, 0, Server, Response), [], SERVER_OK);
    ResponseParts(cert, share, confirm);
    IssuedCertificateVerifies(c, a.authKey, pub);
    assert c.dh(st.ephemeral, share) == c.dh(serverEphemeral, a.clientPublic);
  }

  lemma CertificateLen(c: Primitives, authKey: bytes, verifying: bytes)
    requires Lawful(c)
    ensures TemporaryCertificate(c, authKey, verifying) == verifying + c.hmac512(authKey, verifying)
    ensures |TemporaryCertificate(c, authKey, verifying)| == |verifying| + 64
  {
  }

  /**
    * The laws admit a handshake: in the toy instance a servable profile initiates, and the fresh agreement is not all
    * zero.
    */
  lemma HandshakesExist(serverSecret: bytes, ephemeral: bytes, time: u32, serverEphemeral: bytes)
    ensures var c := Toy();
            var params := Params([], Ones(), [1]);
            && Lawful(c) && Servable(c, params, serverSecret) && Initiated(c, params, ephemeral, time).Ok?
            && c.dh(serverEphemeral, c.publicKey(ephemeral)) != Zeros(32)
  {
    hide HelloBytes, Patched, Ones, HandshakeLen;
    LawsAreConsistent();
    NamelessHelloFits();
    var c := Toy();
    PatchEqualsRebuild(Some([]), c.publicKey(ephemeral), HelloRandom(c, c.dh(ephemeral, Ones())), Zeros(32), Zeros(32));
  }

  lemma NamelessHelloFits()
    ensures HandshakeLen(Some([]), Zeros(32)) < 0x1_0000
  {
  }

  // ---- records ----

  predicate Mirrored(client: RecordKeys, server: RecordKeys) {
    client.send == server.recv && client.recv == server.send
  }

  function ServerOpen(c: Primitives, keys: RecordKeys, sid: bytes, seqno: u64, frame: bytes): Option<bytes>
    requires Lawful(c)
  {
    c.unseal(keys.recv,
             RealityReference.Nonce(c, RealityReference.CLIENT_DOMAIN, RealityReference.DATA_PURPOSE, sid, seqno), [],
             frame)
  }

  function ServerSeal(c: Primitives, keys: RecordKeys, sid: bytes, seqno: u64, plaintext: bytes): bytes
    requires Lawful(c)
  {
    c.seal(keys.send,
           RealityReference.Nonce(c, RealityReference.SERVER_DOMAIN, RealityReference.DATA_PURPOSE, sid, seqno), [],
           plaintext)
  }

  /** A record sealed by either side at a sequence number opens at the other side at that number. */
  lemma RecordsCross(c: Primitives, client: RecordKeys, server: RecordKeys, sid: bytes, seqno: u64, plaintext: bytes)
    requires Lawful(c) && Mirrored(client, server)
    ensures ServerOpen(c, server, sid, seqno, SealRecord(c, Some(client), sid, seqno, plaintext).value)
            == Some(plaintext)
    ensures OpenRecord(c, Some(client), sid, seqno, ServerSeal(c, server, sid, seqno, plaintext)) == Some(plaintext)
  {
    hide DeriveNonce, RealityReference.Nonce;
    RealityReference.NonceAgrees(c, sid, seqno, Client, Data);
    RealityReference.NonceAgrees(c, sid, seqno, Server, Data);
  }

  datatype LoopError = RecordFailed | InnerFailed(p: PeerError)

  /** The server's record loop state; `vless` is absent in raw mode. */
  datatype ServerLoop = ServerLoop(seqIn: nat, seqOut: nat, vless: Option<Peer>)

  /** The reply plaintext of one opened record. */
  function Reply(s: ServerLoop, uuid: bytes, plaintext: bytes, draw: nat -> u64)
    : (r: Result<(Option<Peer>, bytes), LoopError>)
    requires s.vless.Some? ==> Vision.Sound(s.vless.value.reader)
    ensures r.Ok? && r.value.0.Some? ==> Vision.Sound(r.value.0.value.reader)
  {
    match s.vless
    case None => Ok((None, plaintext))
    case Some(p) =>
      match Answered(p, uuid, plaintext, draw)
      case Err(e) => Err(InnerFailed(e))
      case Ok((q, reply)) => Ok((Some(q), reply))
  }

  predicate Bounded(n: nat) { n < TWO_TO_THE_64 }

  /** One frame of the loop: empty frames are skipped, anything that fails to open ends the session. */
  function Served(c: Primitives, keys: RecordKeys, sid: bytes, uuid: bytes, s: ServerLoop, frame: bytes,
                  draw: nat -> u64)
    : (r: Result<(ServerLoop, seq<bytes>), LoopError>)
    requires Lawful(c) && Bounded(s.seqIn) && Bounded(s.seqOut)
    requires s.vless.Some? ==> Vision.Sound(s.vless.value.reader)
    ensures r.Ok? && r.value.0.vless.Some? ==> Vision.Sound(r.value.0.vless.value.reader)
    ensures r.Ok? ==> r.value.0.seqIn <= s.seqIn + 1 && r.value.0.seqOut <= s.seqOut + 1
  {
    if frame == [] then Ok((s, []))
    else
      match ServerOpen(c, keys, sid, s.seqIn, frame)
      case None => Err(RecordFailed)
      case Some(plaintext) =>
        match Reply(s, uuid, plaintext, draw)
        case Err(e) => Err(e)
        case Ok((vless, reply)) =>
          Ok((ServerLoop(s.seqIn + 1, s.seqOut + 1, vless), [ServerSeal(c, keys, sid, s.seqOut, reply)]))
  }

  /** The whole loop over the frames read; `draw(k, i)` is the i-th draw for the k-th frame. */
  function ServedAll(c: Primitives, keys: RecordKeys, sid: bytes, uuid: bytes, s: ServerLoop, frames: seq<bytes>,
                     draw: (nat, nat) -> u64, k: nat): Result<(ServerLoop, seq<bytes>), LoopError>
    requires Lawful(c) && Bounded(s.seqIn + |frames|) && Bounded(s.seqOut + |frames|)
    requires s.vless.Some? ==> Vision.Sound(s.vless.value.reader)
    decreases |frames|
  {
    if frames == [] then Ok((s, []))
    else
      match Served(c, keys, sid, uuid, s, frames[0], i => draw(k, i))
      case Err(e) => Err(e)
      case Ok((s1, out)) =>
        match ServedAll(c, keys, sid, uuid, s1, frames[1..], draw, k + 1)
        case Err(e) => Err(e)
        case Ok((s2, rest)) => Ok((s2, out + rest))
  }

  function Prepend(out: seq<bytes>, r: Result<(ServerLoop, seq<bytes>), LoopError>)
    : Result<(ServerLoop, seq<bytes>), LoopError>
  {
    if r.Err? then r else Ok((r.value.0, out + r.value.1))
  }

  /** `run_server`'s record loop. */
  method RunRecordLoop(c: Primitives, keys: RecordKeys, sid: bytes, uuid: bytes, start: ServerLoop, frames: seq<bytes>,
                       draw: (nat, nat) -> u64) returns (r: Result<(ServerLoop, seq<bytes>), LoopError>)
    requires Lawful(c) && Bounded(start.seqIn + |frames|) && Bounded(start.seqOut + |frames|)
    requires start.vless.Some? ==> Vision.Sound(start.vless.value.reader)
    ensures r == ServedAll(c, keys, sid, uuid, start, frames, draw, 0)
  {
    hide Served;
    var s, sent, k := start, [], 0;
    ghost var whole := ServedAll(c, keys, sid, uuid, start, frames, draw, 0);
    assert frames[0..] == frames;
    if whole.Ok? { assert [] + whole.value.1 == whole.value.1; }
    while k < |frames|
      invariant 0 <= k <= |frames|
      invariant s.vless.Some? ==> Vision.Sound(s.vless.value.reader)
      invariant s.seqIn <= start.seqIn + k && s.seqOut <= start.seqOut + k
      invariant whole == Prepend(sent, ServedAll(c, keys, sid, uuid, s, frames[k..], draw, k))
    {
      var step := Served(c, keys, sid, uuid, s, frames[k], i => draw(k, i));
      assert frames[k..][0] == frames[k] && frames[k..][1..] == frames[k + 1..];
      if step.Err? { return Err(step.error); }
      ghost var rest := ServedAll(c, keys, sid, uuid, step.value.0, frames[k + 1..], draw, k + 1);
      if rest.Ok? { assert sent + (step.value.1 + rest.value.1) == sent + step.value.1 + rest.value.1; }
      s, sent := step.value.0, sent + step.value.1;
      k := k + 1;
    }
    assert frames[k..] == [] && sent + [] == sent;
    return Ok((s, sent));
  }

  /** Records the client seals for a list of plaintexts, from a sequence number on. */
  function ClientRecords(c: Primitives, keys: RecordKeys, sid: bytes, first: nat, plaintexts: seq<bytes>)
    : (r: seq<bytes>)
    requires Lawful(c) && Bounded(first + |plaintexts|)
    ensures |r| == |plaintexts|
    decreases |plaintexts|
  {
    if plaintexts == [] then []
    else
      [SealRecord(c, Some(keys), sid, first, plaintexts[0]).value]
      + ClientRecords(c, keys, sid, first + 1, plaintexts[1..])
  }

  /** What the client opens from a list of records, in order; `None` if any fails. */
  function ClientOpens(c: Primitives, keys: RecordKeys, sid: bytes, first: nat, records: seq<bytes>): Option<seq<bytes>>
    requires Lawful(c) && Bounded(first + |records|)
    decreases |records|
  {
    if records == [] then Some([])
    else
      match OpenRecord(c, Some(keys), sid, first, records[0])
      case None => None
      case Some(p) =>
        match ClientOpens(c, keys, sid, first + 1, records[1..])
        case None => None
        case Some(rest) => Some([p] + rest)
  }

  /** What the loop does with a record the client sealed at the number the loop expects. */
  lemma ServedSealed(c: Primitives, client: RecordKeys, server: RecordKeys, sid: bytes, uuid: bytes, s: ServerLoop,
                     plaintext: bytes,
                     draw: nat -> u64)
    requires Lawful(c) && Mirrored(client, server) && Bounded(s.seqIn) && Bounded(s.seqOut)
    requires s.vless.Some? ==> Vision.Sound(s.vless.value.reader)
    ensures var frame := SealRecord(c, Some(client), sid, s.seqIn, plaintext).value;
            Served(c, server, sid, uuid, s, frame, draw) ==
            match Reply(s, uuid, plaintext, draw)
            case Err(e) => Err(e)
            case Ok((vless, reply)) =>
              Ok((ServerLoop(s.seqIn + 1, s.seqOut + 1, vless), [ServerSeal(c, server, sid, s.seqOut, reply)]))
  {
    hide DeriveNonce, RealityReference.Nonce, Reply, ServerSeal, ServerOpen;
    RecordsCross(c, client, server, sid, s.seqIn, plaintext);
    assert SealRecord(c, Some(client), sid, s.seqIn, plaintext).value != [];
  }

  /** Records the server seals for a list of replies, from a sequence number on. */
  function ServerRecords(c: Primitives, keys: RecordKeys, sid: bytes, first: nat, replies: seq<bytes>): (r: seq<bytes>)
    requires Lawful(c) && Bounded(first + |replies|)
    ensures |r| == |replies|
    decreases |replies|
  {
    if replies == [] then []
    else [ServerSeal(c, keys, sid, first, replies[0])] + ServerRecords(c, keys, sid, first + 1, replies[1..])
  }

  /** The client opens the server's records, in order, to what was sealed. */
  lemma {:induction false} ServerRecordsOpen(c: Primitives, client: RecordKeys, server: RecordKeys, sid: bytes,
                                             first: nat, replies: seq<bytes>)
    requires Lawful(c) && Mirrored(client, server) && Bounded(first + |replies|)
    ensures ClientOpens(c, client, sid, first, ServerRecords(c, server, sid, first, replies)) == Some(replies)
    decreases |replies|
  {
    hide ServerSeal, OpenRecord, Lawful, Mirrored;
    if replies != [] {
      RecordsCross(c, client, server, sid, first, replies[0]);
      ServerRecordsOpen(c, client, server, sid, first + 1, replies[1..]);
      var all := ServerRecords(c, server, sid, first, replies);
      assert all[1..] == ServerRecords(c, server, sid, first + 1, replies[1..]);
      assert [replies[0]] + replies[1..] == replies;
    }
  }

  /** The record loop over what the client sealed is the VLESS leg over what the client meant, sealed again. */
  lemma {:induction false} LoopAnswers(c: Primitives, client: RecordKeys, server: RecordKeys, sid: bytes, uuid: bytes,
                                       s: ServerLoop,
                                       plaintexts: seq<bytes>, draw: (nat, nat) -> u64, k: nat)
    requires Lawful(c) && Mirrored(client, server) && Bounded(s.seqIn + |plaintexts|)
             && Bounded(s.seqOut + |plaintexts|)
    requires s.vless.Some? && Vision.Sound(s.vless.value.reader)
    ensures var r := AnsweredAll(s.vless.value, uuid, plaintexts, draw, k);
            (r.Ok? ==> |r.value.1| == |plaintexts|) &&
            ServedAll(c, server, sid, uuid, s, ClientRecords(c, client, sid, s.seqIn, plaintexts), draw, k) ==
            match r
            case Err(e) => Err(InnerFailed(e))
            case Ok((p, replies)) =>
              Ok((ServerLoop(s.seqIn + |plaintexts|, s.seqOut + |plaintexts|, Some(p)),
                  ServerRecords(c, server, sid, s.seqOut, replies)))
    decreases |plaintexts|
  {
    hide Served, Answered, ServerSeal, SealRecord;
    if plaintexts != [] {
      ServedSealed(c, client, server, sid, uuid, s, plaintexts[0], i => draw(k, i));
      var frames := ClientRecords(c, client, sid, s.seqIn, plaintexts);
      assert frames[1..] == ClientRecords(c, client, sid, s.seqIn + 1, plaintexts[1..]);
      match Answered(s.vless.value, uuid, plaintexts[0], i => draw(k, i))
      case Err(_) =>
      case Ok((q, reply)) =>
        LoopAnswers(c, client, server, sid, uuid, ServerLoop(s.seqIn + 1, s.seqOut + 1, Some(q)), plaintexts[1..], draw,
                    k + 1);
        var rest := AnsweredAll(q, uuid, plaintexts[1..], draw, k + 1);
        if rest.Ok? { assert ([reply] + rest.value.1)[1..] == rest.value.1; }
    }
  }

  /** In raw mode the loop seals again exactly what the client sealed. */
  lemma {:induction false} RawMirror(c: Primitives, client: RecordKeys, server: RecordKeys, sid: bytes, uuid: bytes,
                                     plaintexts: seq<bytes>, seqIn: nat, seqOut: nat, draw: (nat, nat) -> u64, k: nat)
    requires Lawful(c) && Mirrored(client, server) && Bounded(seqIn + |plaintexts|) && Bounded(seqOut + |plaintexts|)
    ensures ServedAll(c, server, sid, uuid, ServerLoop(seqIn, seqOut, None),
                      ClientRecords(c, client, sid, seqIn, plaintexts), draw, k)
         == Ok((ServerLoop(seqIn + |plaintexts|, seqOut + |plaintexts|, None),
                ServerRecords(c, server, sid, seqOut, plaintexts)))
    ensures ClientOpens(c, client, sid, seqOut, ServerRecords(c, server, sid, seqOut, plaintexts)) == Some(plaintexts)
    decreases |plaintexts|
  {
    hide Served, ServerSeal, SealRecord, ClientOpens;
    ServerRecordsOpen(c, client, server, sid, seqOut, plaintexts);
    if plaintexts != [] {
      ServedSealed(c, client, server, sid, uuid, ServerLoop(seqIn, seqOut, None), plaintexts[0], i => draw(k, i));
      var frames := ClientRecords(c, client, sid, seqIn, plaintexts);
      assert frames[1..] == ClientRecords(c, client, sid, seqIn + 1, plaintexts[1..]);
      RawMirror(c, client, server, sid, uuid, plaintexts[1..], seqIn + 1, seqOut + 1, draw, k + 1);
    }
  }

  /** One VLESS payload with the record layer in between, in both directions. */
  function SealedRoundTrip(c: Primitives, client: RecordKeys, server: RecordKeys, sid: bytes, uuid: bytes, seqno: u64,
                           s: Session, payload: bytes, there: nat -> u64, back: nat -> u64)
    : (r: Result<(Session, bytes), Failure>)
    requires Lawful(c) && SoundSession(s)
    ensures r.Ok? ==> SoundSession(r.value.0)
  {
    var (out, wire) := Wrapped(s.out, payload, there);
    var frame := SealRecord(c, Some(client), sid, seqno, wire).value;
    match Served(c, server, sid, uuid, ServerLoop(seqno, seqno, Some(s.peer)), frame, back)
    case Err(RecordFailed) => Err(ClientFailed(RequestHeader.Layout))
    case Err(InnerFailed(e)) => Err(PeerFailed(e))
    case Ok((loop, replies)) =>
      if |replies| != 1 || loop.vless.None? then Err(ClientFailed(RequestHeader.Layout))
      else
        match OpenRecord(c, Some(client), sid, seqno, replies[0])
        case None => Err(ClientFailed(RequestHeader.Layout))
        case Some(reply) =>
          var (inn, got) := Unwrapped(s.inn, reply);
          if got.Err? then Err(ClientFailed(got.error)) else Ok((Session(out, loop.vless.value, inn), got.value))
  }

  /** The record layer is transparent: with mirrored keys the sealed round trip is the plain one. */
  lemma SealingIsTransparent(c: Primitives, client: RecordKeys, server: RecordKeys, sid: bytes, uuid: bytes, seqno: u64,
                             s: Session, payload: bytes, there: nat -> u64, back: nat -> u64)
    requires Lawful(c) && SoundSession(s) && Mirrored(client, server)
    ensures SealedRoundTrip(c, client, server, sid, uuid, seqno, s, payload, there, back)
         == RoundTrip(s, uuid, payload, there, back)
  {
    hide DeriveNonce, RealityReference.Nonce, Wrapped, Answered, Unwrapped;
    var (out, wire) := Wrapped(s.out, payload, there);
    RecordsCross(c, client, server, sid, seqno, wire);
    assert SealRecord(c, Some(client), sid, seqno, wire).value != [];
    match Answered(s.peer, uuid, wire, back)
    case Err(_) =>
    case Ok((peer, reply)) => RecordsCross(c, client, server, sid, seqno, reply);
  }

  function SealedExchange(c: Primitives, client: RecordKeys, server: RecordKeys, sid: bytes, uuid: bytes,
                          s: Session, payloads: seq<bytes>, draw: (nat, nat) -> u64, k: nat)
    : Result<(Session, seq<bytes>), Failure>
    requires Lawful(c) && SoundSession(s) && Bounded(k + |payloads|)
    decreases |payloads|
  {
    if payloads == [] then Ok((s, []))
    else
      match SealedRoundTrip(c, client, server, sid, uuid, k, s, payloads[0], i => draw(2 * k, i),
                            i => draw(2 * k + 1, i))
      case Err(e) => Err(e)
      case Ok((s1, got)) =>
        match SealedExchange(c, client, server, sid, uuid, s1, payloads[1..], draw, k + 1)
        case Err(e) => Err(e)
        case Ok((s2, rest)) => Ok((s2, [got] + rest))
  }

  lemma {:induction false} SealedExchangeIsExchange(c: Primitives, client: RecordKeys, server: RecordKeys, sid: bytes,
                                                    uuid: bytes,
                                                    s: Session, payloads: seq<bytes>, draw: (nat, nat) -> u64, k: nat)
    requires Lawful(c) && SoundSession(s) && Bounded(k + |payloads|) && Mirrored(client, server)
    ensures SealedExchange(c, client, server, sid, uuid, s, payloads, draw, k) == Exchange(s, uuid, payloads, draw, k)
    decreases |payloads|
  {
    hide SealedRoundTrip, RoundTrip;
    if payloads != [] {
      SealingIsTransparent(c, client, server, sid, uuid, k, s, payloads[0], i => draw(2 * k, i),
                           i => draw(2 * k + 1, i));
      var r := RoundTrip(s, uuid, payloads[0], i => draw(2 * k, i), i => draw(2 * k + 1, i));
      if r.Ok? { SealedExchangeIsExchange(c, client, server, sid, uuid, r.value.0, payloads[1..], draw, k + 1); }
    }
  }

  /** The session a handshake against the honest server establishes. */
  datatype Established = Established(st: Started, accepted: Accepted, client: RecordKeys, server: RecordKeys)

  /** Both flights of the handshake, with the server allowing exactly the client's short id. */
  function Handshaken(c: Primitives, params: Params, serverSecret: bytes, ephemeral: bytes, time: u32,
                      serverEphemeral: bytes, certKey: bytes): Option<Established>
    requires Lawful(c)
  {
    match Initiated(c, params, ephemeral, time)
    case Err(_) => None
    case Ok(st) =>
      if |params.shortId| > 8 then None
      else
        match ServerAccepts(c, serverSecret, ShortIdSlot(params.shortId), st.wireHello)
        case Err(_) => None
        case Ok(a) =>
          match Completed(c, st, false, None, ServerResponse(c, a, serverEphemeral, certKey))
          case (true, Some(keys), true) => Some(Established(st, a, keys, ServerKeys(c, a, serverEphemeral)))
          case _ => None
  }

  lemma InitiatedFacts(c: Primitives, params: Params, ephemeral: bytes, time: u32)
    requires Lawful(c) && Initiated(c, params, ephemeral, time).Ok?
    ensures Initiated(c, params, ephemeral, time).value.ephemeral == ephemeral && |params.shortId| <= 8
  {
    hide HelloBytes, AuthKey, SealSessionId;
  }

  /**
    * The handshake succeeds exactly when the fresh key agreement is not all zero, and then the keys mirror each other.
    */
  lemma HandshakeEstablishes(c: Primitives, params: Params, serverSecret: bytes, ephemeral: bytes, time: u32,
                             serverEphemeral: bytes, certKey: bytes)
    requires Lawful(c) && Servable(c, params, serverSecret) && Initiated(c, params, ephemeral, time).Ok?
    ensures var e := Handshaken(c, params, serverSecret, ephemeral, time, serverEphemeral, certKey);
            && (e.Some? <==> c.dh(serverEphemeral, c.publicKey(ephemeral)) != Zeros(32))
            && (e.Some? ==>
                  && Mirrored(e.value.client, e.value.server)
                  && e.value.st == Initiated(c, params, ephemeral, time).value
                  && e.value.accepted == Accepted(params.sni, e.value.st.sealedSessionId, time, e.value.st.authKey,
                                                  c.publicKey(ephemeral)))
  {
    hide ServerAccepts, Completed, ServerResponse, ServerKeys, Initiated, Servable, Zeros;
    InitiatedFacts(c, params, ephemeral, time);
    var st := Initiated(c, params, ephemeral, time).value;
    HonestServerAccepts(c, params, serverSecret, ephemeral, time, ShortIdSlot(params.shortId));
    var a := ServerAccepts(c, serverSecret, ShortIdSlot(params.shortId), st.wireHello).value;
    HonestCompletion(c, st, a, serverEphemeral, certKey);
  }

  /**
    * The tunnel law, handshake and all: for every servable profile, every ephemeral key, clock and random
    * draw, a client that completes against the honest server and exchanges any payloads over sealed VLESS
    * records gets back exactly what it sent, and the server learns exactly the request.
    */
  lemma TunnelEchoesEveryPayload(c: Primitives, params: Params, serverSecret: bytes, ephemeral: bytes, time: u32,
                                 serverEphemeral: bytes, certKey: bytes,
                                 uuid: bytes, flow: Option<bytes>, command: byte, address: RequestHeader.Address,
                                 port: u16,
                                 payloads: seq<bytes>, draw: (nat, nat) -> u64)
    requires Lawful(c) && Servable(c, params, serverSecret) && Initiated(c, params, ephemeral, time).Ok?
    requires c.dh(serverEphemeral, c.publicKey(ephemeral)) != Zeros(32)
    requires LegalRequest(uuid, flow, command, address) && payloads != [] && Bounded(|payloads|)
    ensures SoundSession(Opening(uuid, flow, command, address, port))
    ensures var e := Handshaken(c, params, serverSecret, ephemeral, time, serverEphemeral, certKey);
            && e.Some?
            && var r := SealedExchange(c, e.value.client, e.value.server, e.value.st.sealedSessionId, uuid,
                                       Opening(uuid, flow, command, address, port), payloads, draw, 0);
               && r.Ok? && r.value.1 == payloads
               && r.value.0.peer.request == Some(Request(uuid, flow, command, address, port))
  {
    hide Handshaken, SealedExchange, Exchange, Opening, Request, Initiated, Servable, SoundSession, Zeros;
    assert |uuid| == 16;
    OpeningIsSound(uuid, flow, command, address, port);
    HandshakeEstablishes(c, params, serverSecret, ephemeral, time, serverEphemeral, certKey);
    var e := Handshaken(c, params, serverSecret, ephemeral, time, serverEphemeral, certKey).value;
    SessionEchoesEveryPayload(uuid, flow, command, address, port, payloads, draw);
    SealedExchangeIsExchange(c, e.client, e.server, e.st.sealedSessionId, uuid,
                             Opening(uuid, flow, command, address, port), payloads, draw, 0);
  }

  lemma OpeningIsSound(uuid: bytes, flow: Option<bytes>, command: byte, address: RequestHeader.Address, port: u16)
    requires |uuid| == 16
    ensures SoundSession(Opening(uuid, flow, command, address, port))
  {
    VisionIo.NewInStep(uuid);
  }
}
