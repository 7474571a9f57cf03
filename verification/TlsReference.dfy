/**
  * The parts of RFC 8446 both ends of a handshake must agree on, written out from the standard with literal bytes and
  * without the client's own functions, and that the client's functions compute them.
  */
module TlsReference {
  import opened Bytes
  import opened RecordLayer
  import KeySchedule
  import Primitives

  // ---- sizes (section B.4) ----

  function HashOf(suite: Suite): HashAlg {
    match suite
    case Aes128GcmSha256 => S256
    case Aes256GcmSha384 => S384
    case ChaCha20Poly1305Sha256 => S256
  }

  function HashSize(h: HashAlg): nat {
    match h
    case S256 => 32
    case S384 => 48
  }

  function KeySize(suite: Suite): nat {
    match suite
    case Aes128GcmSha256 => 16
    case Aes256GcmSha384 => 32
    case ChaCha20Poly1305Sha256 => 32
  }

  // ---- the labels of section 7.1, as bytes ----

  const DERIVED: bytes := [0x64, 0x65, 0x72, 0x69, 0x76, 0x65, 0x64]
  const C_HS_TRAFFIC: bytes := [0x63, 0x20, 0x68, 0x73, 0x20, 0x74, 0x72, 0x61, 0x66, 0x66, 0x69, 0x63]
  const S_HS_TRAFFIC: bytes := [0x73, 0x20, 0x68, 0x73, 0x20, 0x74, 0x72, 0x61, 0x66, 0x66, 0x69, 0x63]
  const C_AP_TRAFFIC: bytes := [0x63, 0x20, 0x61, 0x70, 0x20, 0x74, 0x72, 0x61, 0x66, 0x66, 0x69, 0x63]
  const S_AP_TRAFFIC: bytes := [0x73, 0x20, 0x61, 0x70, 0x20, 0x74, 0x72, 0x61, 0x66, 0x66, 0x69, 0x63]
  const FINISHED: bytes := [0x66, 0x69, 0x6e, 0x69, 0x73, 0x68, 0x65, 0x64]
  const KEY: bytes := [0x6b, 0x65, 0x79]
  const IV: bytes := [0x69, 0x76]

  /** HkdfLabel: a two-byte length, "tls13 " and the label behind a one-byte length, the context behind another. */
  function HkdfLabel(len: byte, tag: bytes, context: bytes): bytes
    requires |tag| < 250 && |context| < 256
  {
    [0, len] + [6 + |tag|] + [0x74, 0x6c, 0x73, 0x31, 0x33, 0x20] + tag + [|context|] + context
  }

  /** HKDF-Expand-Label for an output of at most one hash: the first block of HKDF-Expand, HMAC(secret, info, 1). */
  function ExpandLabel(c: Tls, h: HashAlg, secret: bytes, tag: bytes, context: bytes, len: byte): bytes
    requires Lawful(c) && |tag| < 250 && |context| < 256 && len <= HashSize(h)
  {
    c.hmac(h, secret, HkdfLabel(len, tag, context) + [1])[..len]
  }

  /** Derive-Secret over a transcript. */
  function Derive(c: Tls, h: HashAlg, secret: bytes, tag: bytes, transcript: bytes): bytes
    requires Lawful(c) && |tag| < 250
  {
    ExpandLabel(c, h, secret, tag, c.hash(h, transcript), HashSize(h))
  }

  /** Traffic keys (section 7.3): a channel at number zero. */
  function TrafficChannel(c: Tls, suite: Suite, secret: bytes): (ch: Channel)
    requires Lawful(c)
    ensures Usable(ch)
  {
    var h := HashOf(suite);
    Channel(suite, ExpandLabel(c, h, secret, KEY, [], KeySize(suite)), ExpandLabel(c, h, secret, IV, [], 12), 0)
  }

  /** verify_data of a Finished (section 4.4.4). */
  function VerifyData(c: Tls, h: HashAlg, secret: bytes, transcript: bytes): bytes
    requires Lawful(c)
  {
    c.hmac(h, ExpandLabel(c, h, secret, FINISHED, [], HashSize(h)), c.hash(h, transcript))
  }

  /** "TLS 1.3, server CertificateVerify", 33 bytes. */
  const SERVER_CONTEXT: bytes := [
    0x54, 0x4c, 0x53, 0x20, 0x31, 0x2e, 0x33, 0x2c, 0x20, 0x73, 0x65, 0x72, 0x76, 0x65, 0x72, 0x20, 0x43, 0x65, 0x72,
    0x74, 0x69, 0x66, 0x69, 0x63, 0x61, 0x74, 0x65, 0x56, 0x65, 0x72, 0x69, 0x66, 0x79]

  function Spaces(): (r: bytes)
    ensures |r| == 64 && forall i | 0 <= i < 64 :: r[i] == 0x20
  {
    seq(64, _ => 0x20)
  }

  /**
    * What a server's CertificateVerify signs (section 4.4.3): 64 spaces, the context, a zero byte, the transcript hash.
    */
  function SignedContent(hash: bytes): bytes { Spaces() + SERVER_CONTEXT + [0] + hash }

  /** rsa_pss_rsae_sha256/384/512 and rsa_pkcs1_sha256/384/512 (section 4.2.3). */
  predicate RsaScheme(scheme: u16) {
    || scheme == 0x0804 || scheme == 0x0805 || scheme == 0x0806
    || scheme == 0x0401 || scheme == 0x0501 || scheme == 0x0601
  }

  // ---- the client's functions compute these ----

  lemma SizesAgree(suite: Suite, h: HashAlg)
    ensures SuiteHash(suite) == HashOf(suite) && HashLen(h) == HashSize(h) && KeyLen(suite) == KeySize(suite)
  {
  }

  lemma LabelsAgree()
    ensures Primitives.Ascii("derived") == DERIVED && Primitives.Ascii("finished") == FINISHED
    ensures Primitives.Ascii("key") == KEY && Primitives.Ascii("iv") == IV
  {
  }

  lemma TrafficLabelsAgree()
    ensures Primitives.Ascii("c hs traffic") == C_HS_TRAFFIC && Primitives.Ascii("s hs traffic") == S_HS_TRAFFIC
    ensures Primitives.Ascii("c ap traffic") == C_AP_TRAFFIC && Primitives.Ascii("s ap traffic") == S_AP_TRAFFIC
  {
  }

  /** The info string of a label is HkdfLabel. */
  lemma InfoAgrees(name: string, tag: bytes, context: bytes, len: byte)
    requires Primitives.Ascii(name) == tag && |tag| < 250 && |context| < 256
    ensures KeySchedule.LabelInfo(name, context, len) == HkdfLabel(len, tag, context)
  {
    var full := Primitives.Ascii("tls13 " + name);
    assert full == [0x74, 0x6c, 0x73, 0x31, 0x33, 0x20] + tag by {
      assert |name| == |tag|;
      forall i | 0 <= i < |tag|
        ensures full[6 + i] == tag[i]
      {
        assert ("tls13 " + name)[6 + i] == name[i];
        assert Primitives.Ascii(name)[i] == tag[i];
      }
    }
    assert PutU16(len) == [0, len];
  }

  lemma ExpandLabelAgrees(c: Tls, h: HashAlg, secret: bytes, name: string, tag: bytes, context: bytes, len: byte)
    requires Lawful(c) && Primitives.Ascii(name) == tag && |tag| < 250 && |context| < 256 && 1 <= len <= HashSize(h)
    ensures KeySchedule.ExpandLabel(c, h, secret, name, context, len) == ExpandLabel(c, h, secret, tag, context, len)
  {
    hide KeySchedule.LabelInfo, HkdfLabel, KeySchedule.Expand;
    InfoAgrees(name, tag, context, len);
    KeySchedule.ExpandShort(c, h, secret, KeySchedule.LabelInfo(name, context, len), len);
  }

  lemma DeriveAgrees(c: Tls, h: HashAlg, secret: bytes, name: string, tag: bytes, transcript: bytes)
    requires Lawful(c) && Primitives.Ascii(name) == tag && |tag| < 250
    ensures KeySchedule.DeriveSecret(c, h, secret, name, c.hash(h, transcript)) == Derive(c, h, secret, tag, transcript)
  {
    hide KeySchedule.ExpandLabel, ExpandLabel;
    ExpandLabelAgrees(c, h, secret, name, tag, c.hash(h, transcript), HashSize(h));
  }

  lemma ChannelAgrees(c: Tls, suite: Suite, secret: bytes)
    requires Lawful(c)
    ensures KeySchedule.ChannelFrom(c, suite, secret) == TrafficChannel(c, suite, secret)
  {
    hide KeySchedule.ExpandLabel, ExpandLabel;
    LabelsAgree();
    var h := HashOf(suite);
    ExpandLabelAgrees(c, h, secret, "key", KEY, [], KeySize(suite));
    ExpandLabelAgrees(c, h, secret, "iv", IV, [], 12);
  }

  lemma VerifyDataAgrees(c: Tls, h: HashAlg, secret: bytes, transcript: bytes)
    requires Lawful(c)
    ensures c.hmac(h, KeySchedule.FinishedKey(c, h, secret), c.hash(h, transcript))
            == VerifyData(c, h, secret, transcript)
  {
    hide KeySchedule.ExpandLabel, ExpandLabel;
    LabelsAgree();
    ExpandLabelAgrees(c, h, secret, "finished", FINISHED, [], HashSize(h));
  }
}
