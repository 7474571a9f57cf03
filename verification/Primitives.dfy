/** The cryptographic primitives as function values with the few laws the protocol relies on. */
module Primitives {
  import opened Bytes

  datatype Primitives = Primitives(
    seal: (bytes, bytes, bytes, bytes) -> bytes,           // key, nonce, additional data, plaintext
    unseal: (bytes, bytes, bytes, bytes) -> Option<bytes>, // key, nonce, additional data, ciphertext
    publicKey: bytes -> bytes,
    dh: (bytes, bytes) -> bytes,                           // secret, peer public key
    hkdf: (bytes, bytes, bytes, nat) -> bytes,             // salt, input key, info, length
    sha256: bytes -> bytes,
    hmac512: (bytes, bytes) -> bytes)

  /** Opening inverts sealing and accepts nothing else; key agreement commutes; outputs have their fixed lengths. */
  ghost predicate Lawful(c: Primitives) {
    && (forall k, n, a, p :: c.unseal(k, n, a, c.seal(k, n, a, p)) == Some(p))
    && (forall k, n, a, p :: |c.seal(k, n, a, p)| == |p| + 16)
    && (forall k, n, a, x :: c.unseal(k, n, a, x).Some? ==> x == c.seal(k, n, a, c.unseal(k, n, a, x).value))
    && (forall s, t :: c.dh(s, c.publicKey(t)) == c.dh(t, c.publicKey(s)))
    && (forall s, p :: |c.dh(s, p)| == 32)
    && (forall s :: |c.publicKey(s)| == 32)
    && (forall salt, ikm, info, n :: |c.hkdf(salt, ikm, info, n)| == n)
    && (forall x :: |c.sha256(x)| == 32)
    && (forall k, x :: |c.hmac512(k, x)| == 64)
  }

  function Ascii(s: string): (b: bytes)
    ensures |b| == |s|
  {
    seq(|s|, i requires 0 <= i < |s| => s[i] as int % 256)
  }

  /** A toy instance: sealing appends a fixed tag, and every key agreement gives the same non-zero secret. */
  function Toy(): Primitives {
    Primitives(
      (k: bytes, n: bytes, a: bytes, p: bytes) => p + Zeros(16),
      (k: bytes, n: bytes, a: bytes, x: bytes) =>
        if |x| >= 16 && x[|x| - 16..] == Zeros(16) then Some(x[..|x| - 16]) else None,
      (s: bytes) => Ones(),
      (s: bytes, p: bytes) => Ones(),
      (salt: bytes, ikm: bytes, info: bytes, n: nat) => Zeros(n),
      (x: bytes) => Zeros(32),
      (k: bytes, x: bytes) => Zeros(64))
  }

  function Ones(): (r: bytes)
    ensures |r| == 32 && r != Zeros(32)
  {
    var r := seq(32, _ => 1);
    assert r[0] != Zeros(32)[0];
    r
  }

  /** The laws are consistent: the toy instance satisfies them all. */
  lemma LawsAreConsistent()
    ensures Lawful(Toy())
  {
    hide Ones;
    var c, tag := Toy(), Zeros(16);
    forall k, n, a, p
      ensures c.unseal(k, n, a, c.seal(k, n, a, p)) == Some(p)
    {
      var x := p + tag;
      assert x[|x| - 16..] == tag && x[..|x| - 16] == p;
    }
    forall k, n, a, x | c.unseal(k, n, a, x).Some?
      ensures x == c.seal(k, n, a, c.unseal(k, n, a, x).value)
    {
      assert x == x[..|x| - 16] + x[|x| - 16..];
    }
  }
}
