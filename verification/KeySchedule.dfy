/** HKDF and the TLS 1.3 key schedule (section 7.1 of RFC 8446). */
module KeySchedule {
  import opened Bytes
  import opened RecordLayer
  import Primitives

  function Extract(c: Tls, h: HashAlg, salt: bytes, ikm: bytes): bytes { c.hmac(h, salt, ikm) }

  /** The i-th output block, T(i). */
  function Block(c: Tls, h: HashAlg, prk: bytes, info: bytes, i: nat): bytes {
    if i == 0 then [] else c.hmac(h, prk, Block(c, h, prk, info, i - 1) + info + [i % 256])
  }

  function Blocks(c: Tls, h: HashAlg, prk: bytes, info: bytes, n: nat): (r: bytes)
    requires Lawful(c)
    ensures |r| == n * HashLen(h)
  {
    if n == 0 then [] else Blocks(c, h, prk, info, n - 1) + Block(c, h, prk, info, n)
  }

  function BlockCount(h: HashAlg, len: nat): (n: nat)
    ensures len <= n * HashLen(h)
  {
    (len + HashLen(h) - 1) / HashLen(h)
  }

  function Expand(c: Tls, h: HashAlg, prk: bytes, info: bytes, len: nat): (r: bytes)
    requires Lawful(c)
    ensures |r| == len
  {
    Blocks(c, h, prk, info, BlockCount(h, len))[..len]
  }

  /** The expansion loop; its one-byte counter wraps after 255 blocks. */
  method HkdfExpand(c: Tls, h: HashAlg, prk: bytes, info: bytes, len: nat) returns (okm: bytes)
    requires Lawful(c)
    ensures okm == Expand(c, h, prk, info, len)
  {
    okm := [];
    var t: bytes := [];
    var counter := 1;
    while |okm| < len
      invariant 1 <= counter
      invariant okm == Blocks(c, h, prk, info, counter - 1) && t == Block(c, h, prk, info, counter - 1)
      invariant counter == 1 || (counter - 2) * HashLen(h) < len
      decreases len - |okm|
    {
      var input := t;
      input := input + info;
      input := input + [counter % 256];
      t := c.hmac(h, prk, input);
      okm := okm + t;
      counter := counter + 1;
    }
    assert counter - 1 == BlockCount(h, len) by { CountIsExact(h, len, counter - 1); }
    okm := okm[..len];
  }

  lemma CountIsExact(h: HashAlg, len: nat, n: nat)
    requires len <= n * HashLen(h) && (n == 0 || (n - 1) * HashLen(h) < len)
    ensures n == BlockCount(h, len)
  {
    if h.S256? { assert n == (len + 31) / 32; } else { assert n == (len + 47) / 48; }
  }

  lemma {:induction false} BlocksPrefix(c: Tls, h: HashAlg, prk: bytes, info: bytes, m: nat, n: nat)
    requires Lawful(c) && m <= n
    ensures m * HashLen(h) <= n * HashLen(h)
    ensures Blocks(c, h, prk, info, n)[..m * HashLen(h)] == Blocks(c, h, prk, info, m)
    decreases n - m
  {
    if m < n { BlocksPrefix(c, h, prk, info, m, n - 1); }
  }

  /** A shorter expansion is a prefix of a longer one: the loop only ever appends. */
  lemma ExpandPrefix(c: Tls, h: HashAlg, prk: bytes, info: bytes, m: nat, n: nat)
    requires Lawful(c) && m <= n
    ensures Expand(c, h, prk, info, n)[..m] == Expand(c, h, prk, info, m)
  {
    var a, b := BlockCount(h, m), BlockCount(h, n);
    assert a <= b;
    BlocksPrefix(c, h, prk, info, a, b);
    assert Blocks(c, h, prk, info, b)[..n][..m] == Blocks(c, h, prk, info, b)[..a * HashLen(h)][..m];
  }

  /** An output of at most one hash is the first block, HMAC over the info and a one byte. */
  lemma ExpandShort(c: Tls, h: HashAlg, prk: bytes, info: bytes, len: nat)
    requires Lawful(c) && 1 <= len <= HashLen(h)
    ensures Expand(c, h, prk, info, len) == c.hmac(h, prk, info + [1])[..len]
  {
    assert BlockCount(h, len) == 1;
    assert Block(c, h, prk, info, 0) == [] && [] + info == info;
    assert Blocks(c, h, prk, info, 1) == Blocks(c, h, prk, info, 0) + Block(c, h, prk, info, 1);
    assert [] + c.hmac(h, prk, info + [1]) == c.hmac(h, prk, info + [1]);
  }

  /**
    * HKDF-Expand (section 2.3 of RFC 5869), of the output itself: its k-th full block is the HMAC of the block before
    * it, nothing for the first, then the info, then the counter byte k.
    */
  lemma ExpandBlock(c: Tls, h: HashAlg, prk: bytes, info: bytes, len: nat, k: nat)
    requires Lawful(c) && 1 <= k && k * HashLen(h) <= len
    ensures (k - 1) * HashLen(h) <= k * HashLen(h) && (k >= 2 ==> 0 <= (k - 2) * HashLen(h) <= (k - 1) * HashLen(h))
    ensures var out := Expand(c, h, prk, info, len);
            var previous := if k == 1 then [] else out[(k - 2) * HashLen(h)..(k - 1) * HashLen(h)];
            out[(k - 1) * HashLen(h)..k * HashLen(h)] == c.hmac(h, prk, previous + info + [k % 256])
  {
    hide Expand, Blocks;
    BlockOfOutput(c, h, prk, info, len, k);
    if k >= 2 {
      assert (k - 1) * HashLen(h) <= k * HashLen(h);
      BlockOfOutput(c, h, prk, info, len, k - 1);
    }
  }

  lemma BlockOfOutput(c: Tls, h: HashAlg, prk: bytes, info: bytes, len: nat, k: nat)
    requires Lawful(c) && 1 <= k && k * HashLen(h) <= len
    ensures 0 <= (k - 1) * HashLen(h) <= k * HashLen(h)
    ensures Expand(c, h, prk, info, len)[(k - 1) * HashLen(h)..k * HashLen(h)] == Block(c, h, prk, info, k)
  {
    hide Block;
    var n, l := BlockCount(h, len), HashLen(h);
    assert k <= n;
    BlocksPrefix(c, h, prk, info, k, n);
    var whole, upto := Blocks(c, h, prk, info, n), Blocks(c, h, prk, info, k);
    assert upto == Blocks(c, h, prk, info, k - 1) + Block(c, h, prk, info, k);
    assert upto[(k - 1) * l..] == Block(c, h, prk, info, k);
    assert whole[..len][(k - 1) * l..k * l] == whole[..k * l][(k - 1) * l..];
  }

  function LabelInfo(name: string, context: bytes, len: nat): bytes {
    var full := Primitives.Ascii("tls13 " + name);
    PutU16(len) + [|full| % 256] + full + [|context| % 256] + context
  }

  function ExpandLabel(c: Tls, h: HashAlg, secret: bytes, name: string, context: bytes, len: nat): (r: bytes)
    requires Lawful(c)
    ensures |r| == len
  {
    Expand(c, h, secret, LabelInfo(name, context, len), len)
  }

  function DeriveSecret(c: Tls, h: HashAlg, secret: bytes, name: string, transcriptHash: bytes): bytes
    requires Lawful(c)
  {
    ExpandLabel(c, h, secret, name, transcriptHash, HashLen(h))
  }

  function FinishedKey(c: Tls, h: HashAlg, secret: bytes): bytes
    requires Lawful(c)
  {
    ExpandLabel(c, h, secret, "finished", [], HashLen(h))
  }

  /** A fresh channel from a traffic secret: key and IV of the suite's sizes, sequence number zero. */
  function ChannelFrom(c: Tls, suite: Suite, secret: bytes): (ch: Channel)
    requires Lawful(c)
    ensures Usable(ch) && ch.suite == suite && |ch.key| == KeyLen(suite) && ch.seqno == 0
  {
    var h := SuiteHash(suite);
    Channel(suite, ExpandLabel(c, h, secret, "key", [], KeyLen(suite)), ExpandLabel(c, h, secret, "iv", [], 12), 0)
  }
}
