/** Byte strings, fixed-width big-endian integers and the result types shared by every module. */
module Bytes {
  type byte = b: int | 0 <= b < 256
  type bytes = seq<byte>
  type u16 = n: int | 0 <= n < 0x1_0000
  type u32 = n: int | 0 <= n < 0x1_0000_0000
  type u64 = n: int | 0 <= n < TWO_TO_THE_64

  const TWO_TO_THE_64 := 0x1_0000_0000_0000_0000

  datatype Option<+T> = None | Some(value: T)

  datatype Result<+T, +E> = Ok(value: T) | Err(error: E) {
    predicate IsFailure() { Err? }
    function PropagateFailure<U>(): Result<U, E>
      requires Err?
    {
      Err(error)
    }
    function Extract(): T
      requires Ok?
    {
      value
    }
  }

  function Min(a: int, b: int): int { if a <= b then a else b }

  /**
    * The 16-bit big-endian value of two bytes, counted up in steps of 256: proofs about layouts meet a sum, and
    * `U16Value` gives the product where one is needed.
    */
  function U16(hi: byte, lo: byte): (n: u16)
    decreases hi, 0
  {
    if hi == 0 then lo
    else
      U16Value(hi - 1, lo);
      256 + U16(hi - 1, lo)
  }

  lemma {:induction false} U16Value(hi: byte, lo: byte)
    ensures U16(hi, lo) == hi * 256 + lo
    decreases hi, 1
  {
    if hi > 0 { U16Value(hi - 1, lo); }
  }

  /** `(n as u16).to_be_bytes()`: larger values are truncated, as the cast does. */
  function PutU16(n: nat): (r: bytes)
    ensures |r| == 2
    ensures U16(r[0], r[1]) == n % 0x1_0000
    ensures n < 0x1_0000 ==> U16(r[0], r[1]) == n
  {
    var low := n % 0x1_0000;
    U16Value(low / 256, low % 256);
    [low / 256, low % 256]
  }

  function U24(a: byte, b: byte, c: byte): nat { a * 65536 + b * 256 + c }

  /** The low three bytes of a 32-bit length, big-endian. */
  function PutU24(n: nat): (r: bytes)
    ensures |r| == 3
    ensures n < 0x100_0000 ==> U24(r[0], r[1], r[2]) == n
  {
    var high, low := n / 0x1_0000 % 256, n % 0x1_0000;
    [high, low / 256, low % 256]
  }

  function U32(a: byte, b: byte, c: byte, d: byte): (n: u32) { a * 0x100_0000 + b * 65536 + c * 256 + d }

  function PutU32(n: u32): (r: bytes)
    ensures |r| == 4
    ensures U32(r[0], r[1], r[2], r[3]) == n
  {
    var high, low := n / 0x1_0000, n % 0x1_0000;
    [high / 256, high % 256, low / 256, low % 256]
  }

  function PutU64(n: u64): (r: bytes)
    ensures |r| == 8
  {
    PutU32(n / 0x1_0000_0000) + PutU32(n % 0x1_0000_0000)
  }

  lemma PutU64Injective(m: u64, n: u64)
    requires PutU64(m) == PutU64(n)
    ensures m == n
  {
    assert PutU64(m)[..4] == PutU32(m / 0x1_0000_0000) && PutU64(n)[..4] == PutU32(n / 0x1_0000_0000);
    assert PutU64(m)[4..] == PutU32(m % 0x1_0000_0000) && PutU64(n)[4..] == PutU32(n % 0x1_0000_0000);
  }

  /** The last `k` digits of a number in base 256, most significant first: what big-endian means. */
  function Digits(n: nat, k: nat): (r: bytes)
    ensures |r| == k
  {
    if k == 0 then [] else Digits(n / 256, k - 1) + [n % 256]
  }

  lemma Digits2(n: nat)
    ensures Digits(n, 2) == [n / 256 % 256, n % 256]
  {
    assert Digits(n / 256, 1) == Digits(n / 256 / 256, 0) + [n / 256 % 256];
  }

  lemma DigitsSplit(n: nat, k: nat)
    requires k >= 2
    ensures Digits(n, k) == Digits(n / 65536, k - 2) + Digits(n, 2)
  {
    Digits2(n);
    assert n / 256 / 256 == n / 65536;
    assert Digits(n, k) == Digits(n / 256, k - 1) + [n % 256];
    assert Digits(n / 256, k - 1) == Digits(n / 256 / 256, k - 2) + [n / 256 % 256];
  }

  lemma HighPartIsLost(n: nat, a: nat)
    ensures (n + 65536 * a) / 256 % 256 == n / 256 % 256 && (n + 65536 * a) % 256 == n % 256
  {
    assert (n + 65536 * a) / 256 == n / 256 + 256 * a;
  }

  lemma PutU16Digits(n: nat)
    ensures PutU16(n) == Digits(n, 2)
  {
    Digits2(n);
    hide Digits;
    var low := n % 0x1_0000;
    assert n == low + 65536 * (n / 65536);
    HighPartIsLost(low, n / 65536);
  }

  lemma PutU24Digits(n: nat)
    ensures PutU24(n) == Digits(n, 3)
  {
    DigitsSplit(n, 3);
    PutU16Digits(n);
    assert Digits(n / 65536, 1) == Digits(n / 65536 / 256, 0) + [n / 65536 % 256];
    hide Digits;
    assert PutU24(n) == [n / 65536 % 256] + PutU16(n);
  }

  lemma PutU32Digits(n: u32)
    ensures PutU32(n) == Digits(n, 4)
  {
    DigitsSplit(n, 4);
    PutU16Digits(n);
    PutU16Digits(n / 65536);
    hide Digits;
    assert PutU32(n) == PutU16(n / 65536) + PutU16(n);
  }

  lemma PutU64Digits(n: u64)
    ensures PutU64(n) == Digits(n, 8)
  {
    var hi, lo := n / 0x1_0000_0000, n % 0x1_0000_0000;
    PutU32Digits(hi);
    PutU32Digits(lo);
    hide PutU32;
    DigitsSplit(n, 8);
    DigitsSplit(n / 65536, 6);
    DigitsSplit(lo, 4);
    hide Digits;
    assert n / 65536 / 65536 == hi;
    LowDigits(n);
    assert Digits(n, 8) == Digits(hi, 4) + Digits(n / 65536, 2) + Digits(n, 2);
  }

  lemma LowDigits(n: nat)
    ensures Digits(n % 0x1_0000_0000, 2) == Digits(n, 2)
    ensures Digits(n % 0x1_0000_0000 / 65536, 2) == Digits(n / 65536, 2)
  {
    var lo, q := n % 0x1_0000_0000, n / 0x1_0000_0000;
    Digits2(n);
    Digits2(lo);
    Digits2(lo / 65536);
    Digits2(n / 65536);
    hide Digits;
    assert n == lo + 65536 * (65536 * q);
    HighPartIsLost(lo, 65536 * q);
    assert n / 65536 == lo / 65536 + 65536 * q;
    HighPartIsLost(lo / 65536, q);
  }

  function Zeros(n: nat): (z: bytes)
    ensures |z| == n
    ensures forall i | 0 <= i < n :: z[i] == 0
  {
    seq(n, _ => 0)
  }

  /** Concatenation of a list of byte strings. */
  function Flatten(parts: seq<bytes>): bytes {
    if parts == [] then [] else parts[0] + Flatten(parts[1..])
  }

  lemma FlattenConcat(a: seq<bytes>, b: seq<bytes>)
    ensures Flatten(a + b) == Flatten(a) + Flatten(b)
  {
    if a == [] {
      assert a + b == b;
    } else {
      assert (a + b)[1..] == a[1..] + b;
      FlattenConcat(a[1..], b);
    }
  }

  /** The well-formed UTF-8 byte strings (table 3-7 of the Unicode standard), which is what a Rust `str` holds. */
  predicate Utf8(s: bytes) {
    || s == []
    || (s[0] < 0x80 && Utf8(s[1..]))
    || (|s| >= 2 && 0xC2 <= s[0] <= 0xDF && Continuation(s[1]) && Utf8(s[2..]))
    || (|s| >= 3 && ThreeByteLead(s[0], s[1]) && Continuation(s[2]) && Utf8(s[3..]))
    || (|s| >= 4 && FourByteLead(s[0], s[1]) && Continuation(s[2]) && Continuation(s[3]) && Utf8(s[4..]))
  }

  predicate Continuation(b: byte) { 0x80 <= b <= 0xBF }

  predicate ThreeByteLead(a: byte, b: byte) {
    || (a == 0xE0 && 0xA0 <= b <= 0xBF)
    || (0xE1 <= a <= 0xEF && a != 0xED && Continuation(b))
    || (a == 0xED && 0x80 <= b <= 0x9F)
  }

  predicate FourByteLead(a: byte, b: byte) {
    || (a == 0xF0 && 0x90 <= b <= 0xBF)
    || (0xF1 <= a <= 0xF3 && Continuation(b))
    || (a == 0xF4 && 0x80 <= b <= 0x8F)
  }
}
