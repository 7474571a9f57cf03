/** TLS 1.3 record protection: per-record nonces, inner padding, and sealing and opening in sequence. */
module RecordLayer {
  import opened Bytes

  datatype Suite = Aes128GcmSha256 | Aes256GcmSha384 | ChaCha20Poly1305Sha256

  datatype HashAlg = S256 | S384

  datatype Tls13Error =
    | Truncated | BadRecord | BadHandshake | NoKeyShare | BadCipherSuite | DecryptFailed | FinishedMismatch
    | CertVerifyRejected | BadScheme | UnexpectedRecord | Aborted

  const CONTENT_HANDSHAKE: byte := 0x16
  const CONTENT_APPDATA: byte := 0x17
  const MAX_APP_PAYLOAD := 65518

  function HashLen(h: HashAlg): nat { if h.S256? then 32 else 48 }

  function SuiteHash(s: Suite): HashAlg { if s.Aes256GcmSha384? then S384 else S256 }

  function KeyLen(s: Suite): nat { if s.Aes128GcmSha256? then 16 else 32 }

  /** The primitives of the suite, as function values. */
  datatype Tls = Tls(
    seal: (Suite, bytes, bytes, bytes, bytes) -> bytes,           // suite, key, nonce, additional data, plaintext
    unseal: (Suite, bytes, bytes, bytes, bytes) -> Option<bytes>, // suite, key, nonce, additional data, ciphertext
    hash: (HashAlg, bytes) -> bytes,
    hmac: (HashAlg, bytes, bytes) -> bytes,                       // key, data
    rsaKeyValid: (bytes, bytes) -> bool,                          // modulus, exponent
    rsaVerify: (nat, bytes, bytes, bytes, bytes) -> bool)         // scheme, modulus, exponent, signature, signed bytes

  ghost predicate Lawful(c: Tls) {
    && (forall s, k, n, a, p :: c.unseal(s, k, n, a, c.seal(s, k, n, a, p)) == Some(p))
    && (forall s, k, n, a, p :: |c.seal(s, k, n, a, p)| == |p| + 16)
    && (forall s, k, n, a, x ::
          c.unseal(s, k, n, a, x).Some? ==> x == c.seal(s, k, n, a, c.unseal(s, k, n, a, x).value))
    && (forall h, x :: |c.hash(h, x)| == HashLen(h))
    && (forall h, k, x :: |c.hmac(h, k, x)| == HashLen(h))
  }

  lemma LawsAreConsistent()
    ensures exists c: Tls :: Lawful(c)
  {
    var tag := Zeros(16);
    var c := Tls(
      (s, k, n, a, p) => p + tag,
      (s, k, n, a, x) => if |x| >= 16 && x[|x| - 16..] == tag then Some(x[..|x| - 16]) else None,
      (h, x) => Zeros(HashLen(h)),
      (h, k, x) => Zeros(HashLen(h)),
      (n, e) => true,
      (s, n, e, sig, tbs) => true);
    forall s, k, n, a, p
      ensures c.unseal(s, k, n, a, c.seal(s, k, n, a, p)) == Some(p)
    {
      var x := p + tag;
      assert x[|x| - 16..] == tag && x[..|x| - 16] == p;
    }
    forall s, k, n, a, x | c.unseal(s, k, n, a, x).Some?
      ensures x == c.seal(s, k, n, a, c.unseal(s, k, n, a, x).value)
    {
      assert x == x[..|x| - 16] + x[|x| - 16..];
    }
    assert Lawful(c);
  }

  // ---- nonces ----

  function Pow2(k: nat): (p: nat)
    ensures p >= 1
  {
    if k == 0 then 1 else 2 * Pow2(k - 1)
  }

  /** Exclusive or of the low `k` bits. */
  function XorBits(a: nat, b: nat, k: nat): (r: nat)
    ensures r < Pow2(k)
  {
    if k == 0 then 0 else XorBit(a, b) + 2 * XorBits(a / 2, b / 2, k - 1)
  }

  /** Exclusive or of two bits. */
  function XorBit(a: nat, b: nat): (r: nat)
    ensures r < 2
  {
    (a % 2 + b % 2) % 2
  }

  lemma XorBitCancels(a: nat, b: nat, c: nat)
    requires XorBit(a, b) == XorBit(a, c) && b / 2 == c / 2
    ensures b == c
  {
  }

  lemma {:induction false} XorBitsCancels(a: nat, b: nat, c: nat, k: nat)
    requires b < Pow2(k) && c < Pow2(k) && XorBits(a, b, k) == XorBits(a, c, k)
    ensures b == c
  {
    hide XorBit;
    if k > 0 {
      var p, q, x, y := XorBit(a, b), XorBit(a, c), XorBits(a / 2, b / 2, k - 1), XorBits(a / 2, c / 2, k - 1);
      assert p == q && x == y;
      XorBitsCancels(a / 2, b / 2, c / 2, k - 1);
      XorBitCancels(a, b, c);
    }
  }

  lemma Pow2Eight()
    ensures Pow2(8) == 256
  {
    assert Pow2(4) == 16;
  }

  function Xor(a: byte, b: byte): byte {
    Pow2Eight();
    XorBits(a, b, 8)
  }

  /** The static IV with the sequence number folded into its last eight bytes (section 5.3 of RFC 8446). */
  function RecordNonce(iv: bytes, seqno: u64): (n: bytes)
    requires |iv| >= 8
    ensures |n| == |iv|
  {
    var base := |iv| - 8;
    iv[..base] + seq(8, i requires 0 <= i < 8 => Xor(iv[base + i], PutU64(seqno)[i]))
  }

  method ComputeNonce(iv: bytes, seqno: u64) returns (n: bytes)
    requires |iv| >= 8
    ensures n == RecordNonce(iv, seqno)
  {
    hide Xor, PutU64;
    n := iv;
    var s := PutU64(seqno);
    var base := |n| - 8;
    for i := 0 to 8
      invariant |n| == |iv|
      invariant forall j | 0 <= j < |iv| && (j < base || j >= base + i) :: n[j] == iv[j]
      invariant forall j | 0 <= j < i :: n[base + j] == Xor(iv[base + j], s[j])
    {
      n := n[base + i := Xor(n[base + i], s[i])];
    }
    assert n == RecordNonce(iv, seqno);
  }

  /** Under one key no two sequence numbers share a nonce. */
  lemma NoncesAreDistinct(iv: bytes, m: u64, n: u64)
    requires |iv| >= 8 && m != n
    ensures RecordNonce(iv, m) != RecordNonce(iv, n)
  {
    hide PutU64;
    var base := |iv| - 8;
    if RecordNonce(iv, m) == RecordNonce(iv, n) {
      forall i | 0 <= i < 8
        ensures PutU64(m)[i] == PutU64(n)[i]
      {
        assert RecordNonce(iv, m)[base + i] == RecordNonce(iv, n)[base + i];
        Pow2Eight();
        XorBitsCancels(iv[base + i], PutU64(m)[i], PutU64(n)[i], 8);
      }
      assert PutU64(m) == PutU64(n);
      PutU64Injective(m, n);
    }
  }

  // ---- inner plaintext ----

  /** The last non-zero byte is the content type; what precedes it is the payload. */
  function StripInner(plain: bytes): Result<(byte, bytes), Tls13Error> {
    if plain == [] then Err(BadRecord)
    else if plain[|plain| - 1] == 0 then StripInner(plain[..|plain| - 1])
    else Ok((plain[|plain| - 1], plain[..|plain| - 1]))
  }

  method StripInnerPadding(plain: bytes) returns (r: Result<(byte, bytes), Tls13Error>)
    ensures r == StripInner(plain)
  {
    var end := |plain|;
    assert plain[..end] == plain;
    while end > 0 && plain[end - 1] == 0
      invariant 0 <= end <= |plain|
      invariant StripInner(plain) == StripInner(plain[..end])
    {
      assert plain[..end][..end - 1] == plain[..end - 1];
      end := end - 1;
    }
    if end == 0 { return Err(BadRecord); }
    assert plain[..end][..end - 1] == plain[..end - 1];
    return Ok((plain[end - 1], plain[..end - 1]));
  }

  /** Stripping inverts padding, even for payloads that end in zeros. */
  lemma {:induction false} StripInvertsPadding(payload: bytes, content: byte, k: nat)
    requires content != 0
    ensures StripInner(payload + [content] + Zeros(k)) == Ok((content, payload))
  {
    var plain := payload + [content] + Zeros(k);
    if k == 0 {
      assert plain == payload + [content] && plain[..|plain| - 1] == payload;
    } else {
      assert plain[..|plain| - 1] == payload + [content] + Zeros(k - 1);
      StripInvertsPadding(payload, content, k - 1);
    }
  }

  lemma {:induction false} StripShortens(plain: bytes)
    requires StripInner(plain).Ok?
    ensures |StripInner(plain).value.1| < |plain|
    decreases |plain|
  {
    if plain[|plain| - 1] == 0 { StripShortens(plain[..|plain| - 1]); }
  }

  // ---- one direction of a connection ----

  /** A key in use: suite, key, static IV and the next sequence number, a 64-bit word. */
  datatype Channel = Channel(suite: Suite, key: bytes, iv: bytes, seqno: u64)

  predicate Usable(ch: Channel) { |ch.iv| == 12 }

  function Advanced(ch: Channel): Channel { ch.(seqno := (ch.seqno + 1) % TWO_TO_THE_64) }

  /** The record header is the additional data; its length field truncates to sixteen bits. */
  function RecordHeader(innerLen: nat): (h: bytes)
    ensures |h| == 5 && h[0] == CONTENT_APPDATA && U16(h[3], h[4]) == innerLen % 0x1_0000
    ensures innerLen < 0x1_0000 ==> U16(h[3], h[4]) == innerLen
  {
    [CONTENT_APPDATA, 0x03, 0x03] + PutU16(innerLen)
  }

  /** Seal one plaintext with its content type and `pad` zero bytes. */
  function Sealed(c: Tls, ch: Channel, content: byte, payload: bytes, pad: nat): bytes
    requires Usable(ch)
  {
    var header := RecordHeader(|payload| + 1 + pad + 16);
    header + c.seal(ch.suite, ch.key, RecordNonce(ch.iv, ch.seqno), header, payload + [content] + Zeros(pad))
  }

  /** Open the record at the front of a wire; the sequence number moves on even when opening fails. */
  function Opened(c: Tls, ch: Channel, wire: bytes): (r: Result<(byte, bytes), Tls13Error>)
    requires Usable(ch) && |wire| >= 5 && |wire| >= 5 + U16(wire[3], wire[4]) as int
  {
    match c.unseal(ch.suite, ch.key, RecordNonce(ch.iv, ch.seqno), wire[..5], wire[5..5 + U16(wire[3], wire[4]) as int])
    case None => Err(DecryptFailed)
    case Some(plain) => StripInner(plain)
  }

  lemma SealedLayout(c: Tls, ch: Channel, content: byte, payload: bytes, pad: nat)
    requires Lawful(c) && Usable(ch)
    ensures var wire := Sealed(c, ch, content, payload, pad);
            var header := RecordHeader(|payload| + 1 + pad + 16);
            && |wire| == 5 + |payload| + 1 + pad + 16 && wire[..5] == header && wire[0] == CONTENT_APPDATA
            && U16(wire[3], wire[4]) == U16(header[3], header[4])
            && wire[5..] == c.seal(ch.suite, ch.key, RecordNonce(ch.iv, ch.seqno), header,
                                   payload + [content] + Zeros(pad))
  {
    hide RecordHeader, RecordNonce, U16;
  }

  /** A record that fits its length field opens, at the same key and number, to the content and payload sealed in it. */
  lemma OpenInvertsSeal(c: Tls, ch: Channel, content: byte, payload: bytes, pad: nat)
    requires Lawful(c) && Usable(ch) && content != 0 && |payload| + 1 + pad + 16 < 0x1_0000
    ensures var wire := Sealed(c, ch, content, payload, pad);
            && |wire| == 5 + U16(wire[3], wire[4]) as int && wire[0] == CONTENT_APPDATA
            && Opened(c, ch, wire) == Ok((content, payload))
  {
    hide RecordHeader, RecordNonce, Sealed, U16;
    SealedLayout(c, ch, content, payload, pad);
    var wire := Sealed(c, ch, content, payload, pad);
    assert wire[5..5 + U16(wire[3], wire[4]) as int] == wire[5..];
    StripInvertsPadding(payload, content, pad);
  }

  // ---- application data ----

  function AppSealed(c: Tls, ch: Channel, data: bytes): bytes
    requires Usable(ch)
  {
    Sealed(c, ch, CONTENT_APPDATA, data, 0)
  }

  /** What `open_app_record` makes of a wire on a live channel. */
  function AppOpened(c: Tls, ch: Channel, wire: bytes): Result<bytes, Tls13Error>
    requires Usable(ch)
  {
    if |wire| < 5 || wire[0] != CONTENT_APPDATA then Err(UnexpectedRecord)
    else if |wire| < 5 + U16(wire[3], wire[4]) as int then Err(Truncated)
    else
      var (content, payload) :- Opened(c, ch, wire);
      if content != CONTENT_APPDATA then Err(UnexpectedRecord) else Ok(payload)
  }

  /** A sealed payload opens to itself exactly up to the largest size its length field can carry. */
  lemma AppRoundTrip(c: Tls, ch: Channel, data: bytes)
    requires Lawful(c) && Usable(ch)
    ensures AppOpened(c, ch, AppSealed(c, ch, data)) == Ok(data) <==> |data| <= MAX_APP_PAYLOAD
  {
    hide RecordNonce, StripInner, U16, RecordHeader;
    if |data| <= MAX_APP_PAYLOAD {
      OpenInvertsSeal(c, ch, CONTENT_APPDATA, data, 0);
    } else {
      SealedLayout(c, ch, CONTENT_APPDATA, data, 0);
      var wire := AppSealed(c, ch, data);
      var n := U16(wire[3], wire[4]);
      var plain := c.unseal(ch.suite, ch.key, RecordNonce(ch.iv, ch.seqno), wire[..5], wire[5..5 + n as int]);
      if plain.Some? && StripInner(plain.value).Ok? { StripShortens(plain.value); }
    }
  }

  /** What strips to a payload and its type is that payload, the type and zeros. */
  lemma {:induction false} StrippedIsPadded(plain: bytes) returns (pad: nat)
    requires StripInner(plain).Ok?
    ensures StripInner(plain).value.0 != 0
    ensures plain == StripInner(plain).value.1 + [StripInner(plain).value.0] + Zeros(pad)
    decreases |plain|
  {
    var front := plain[..|plain| - 1];
    if plain[|plain| - 1] == 0 {
      var less := StrippedIsPadded(front);
      pad := less + 1;
      assert plain == front + [0];
    } else {
      pad := 0;
      assert plain == front + [plain[|plain| - 1]];
    }
  }

  /** The record at the front of the wire is these bytes sealed at the channel's key and number under its own header. */
  ghost predicate Seals(c: Tls, ch: Channel, wire: bytes, plain: bytes)
    requires Usable(ch) && |wire| >= 5 && |wire| >= 5 + U16(wire[3], wire[4]) as int
  {
    wire[5..5 + U16(wire[3], wire[4]) as int]
    == c.seal(ch.suite, ch.key, RecordNonce(ch.iv, ch.seqno), wire[..5], plain)
  }

  /**
    * Exactly what a peer with the key sealed is opened: a record opens to some data if and only if it is whole, of
    * type 23, and holds that data, its type 23 and any padding, sealed at this number with the header as it came.
    */
  lemma OpensExactlyIf(c: Tls, ch: Channel, wire: bytes, data: bytes)
    requires Lawful(c) && Usable(ch)
    ensures AppOpened(c, ch, wire) == Ok(data) <==>
            && |wire| >= 5 && wire[0] == 0x17 && |wire| >= 5 + U16(wire[3], wire[4]) as int
            && exists pad: nat :: Seals(c, ch, wire, data + [0x17] + Zeros(pad))
  {
    hide RecordNonce, U16, StripInner;
    if |wire| >= 5 && wire[0] == 0x17 && |wire| >= 5 + U16(wire[3], wire[4]) as int {
      var plain := c.unseal(ch.suite, ch.key, RecordNonce(ch.iv, ch.seqno), wire[..5],
                            wire[5..5 + U16(wire[3], wire[4]) as int]);
      if AppOpened(c, ch, wire) == Ok(data) {
        var pad := StrippedIsPadded(plain.value);
        assert Seals(c, ch, wire, data + [0x17] + Zeros(pad));
      }
      forall pad: nat | Seals(c, ch, wire, data + [0x17] + Zeros(pad))
        ensures AppOpened(c, ch, wire) == Ok(data)
      {
        StripInvertsPadding(data, 0x17, pad);
      }
    }
  }

  function SealAll(c: Tls, ch: Channel, payloads: seq<bytes>): seq<bytes>
    requires Usable(ch)
    decreases |payloads|
  {
    if payloads == [] then [] else [AppSealed(c, ch, payloads[0])] + SealAll(c, Advanced(ch), payloads[1..])
  }

  function OpenAll(c: Tls, ch: Channel, wires: seq<bytes>): Result<seq<bytes>, Tls13Error>
    requires Usable(ch)
    decreases |wires|
  {
    if wires == [] then Ok([])
    else
      var first :- AppOpened(c, ch, wires[0]);
      var rest :- OpenAll(c, Advanced(ch), wires[1..]);
      Ok([first] + rest)
  }

  /** A peer holding the matching key opens any list of sealed payloads, in order, to exactly those payloads. */
  lemma {:induction false} StreamRoundTrip(c: Tls, ch: Channel, payloads: seq<bytes>)
    requires Lawful(c) && Usable(ch)
    requires forall p | p in payloads :: |p| <= MAX_APP_PAYLOAD
    ensures |SealAll(c, ch, payloads)| == |payloads|
    ensures OpenAll(c, ch, SealAll(c, ch, payloads)) == Ok(payloads)
    decreases |payloads|
  {
    hide AppSealed, AppOpened;
    if payloads != [] {
      AppRoundTrip(c, ch, payloads[0]);
      StreamRoundTrip(c, Advanced(ch), payloads[1..]);
      var wires := SealAll(c, ch, payloads);
      assert wires[0] == AppSealed(c, ch, payloads[0]) && wires[1..] == SealAll(c, Advanced(ch), payloads[1..]);
      assert [payloads[0]] + payloads[1..] == payloads;
    }
  }

  /** The channel `k` records later; the number wraps at the 64-bit word. */
  function Later(ch: Channel, k: nat): Channel { ch.(seqno := (ch.seqno + k) % TWO_TO_THE_64) }

  /** The k-th record of a list is sealed `k` numbers on. */
  lemma {:induction false} SealAllAt(c: Tls, ch: Channel, payloads: seq<bytes>, k: nat)
    requires Usable(ch) && k < |payloads|
    ensures |SealAll(c, ch, payloads)| == |payloads|
    ensures Usable(Later(ch, k)) && SealAll(c, ch, payloads)[k] == AppSealed(c, Later(ch, k), payloads[k])
    decreases |payloads|
  {
    hide AppSealed, Later;
    var rest := payloads[1..];
    assert SealAll(c, ch, payloads) == [AppSealed(c, ch, payloads[0])] + SealAll(c, Advanced(ch), rest);
    if k > 0 {
      SealAllAt(c, Advanced(ch), rest, k - 1);
      LaterAgain(ch, k);
    } else {
      LaterAgain(ch, 0);
      if rest != [] { SealAllAt(c, Advanced(ch), rest, 0); }
    }
  }

  lemma LaterAgain(ch: Channel, k: nat)
    ensures Later(ch, 0) == ch && Usable(Later(ch, k)) == Usable(ch)
    ensures k > 0 ==> Later(Advanced(ch), k - 1) == Later(ch, k)
  {
    if k > 0 {
      var a := ch.seqno + 1;
      if a == TWO_TO_THE_64 { assert (0 + (k - 1)) % TWO_TO_THE_64 == (a + (k - 1)) % TWO_TO_THE_64; }
    }
  }

  /**
    * Under one key no two of up to 2^64 records sealed one after the other share a nonce, wherever the numbers start.
    */
  lemma SealedNoncesAreDistinct(c: Tls, ch: Channel, payloads: seq<bytes>, i: nat, j: nat)
    requires Usable(ch) && i < j < |payloads| <= TWO_TO_THE_64
    ensures |SealAll(c, ch, payloads)| == |payloads| && Usable(Later(ch, i)) && Usable(Later(ch, j))
    ensures SealAll(c, ch, payloads)[i] == AppSealed(c, Later(ch, i), payloads[i])
    ensures SealAll(c, ch, payloads)[j] == AppSealed(c, Later(ch, j), payloads[j])
    ensures RecordNonce(ch.iv, Later(ch, i).seqno) != RecordNonce(ch.iv, Later(ch, j).seqno)
  {
    hide AppSealed, SealAll, RecordNonce;
    SealAllAt(c, ch, payloads, i);
    SealAllAt(c, ch, payloads, j);
    assert Later(ch, i).seqno != Later(ch, j).seqno;
    NoncesAreDistinct(ch.iv, Later(ch, i).seqno, Later(ch, j).seqno);
  }
}
