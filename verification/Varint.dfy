/** The little-endian base-128 length prefix of the VLESS addons. */
module Varint {
  import opened Bytes

  /** The number a group sequence denotes: seven bits a byte, least significant first. */
  function Horner(s: bytes): (v: nat) {
    if s == [] then 0 else s[0] % 128 + 128 * Horner(s[1..])
  }

  function Pow128(n: nat): (p: nat)
    ensures p >= 1
  {
    if n == 0 then 1 else 128 * Pow128(n - 1)
  }

  /** Index of the first byte without the continuation bit, among the first ten. */
  function Terminator(wire: bytes, i: nat): (k: Option<nat>)
    requires i <= |wire|
    ensures k.Some? ==> i <= k.value < |wire| && k.value < 10 && wire[k.value] < 128
    decreases |wire| - i
  {
    if i == |wire| || i >= 10 then None
    else if wire[i] < 128 then Some(i)
    else Terminator(wire, i + 1)
  }

  /** What `decode_varint` returns: the value modulo the 64-bit word and the number of bytes used. */
  function Decoded(wire: bytes): (r: Option<(u64, nat)>)
    ensures r.Some? ==> 1 <= r.value.1 <= 10 && r.value.1 <= |wire|
  {
    match Terminator(wire, 0)
    case None => None
    case Some(k) => Some((Horner(wire[..k + 1]) % TWO_TO_THE_64, k + 1))
  }

  function Encoded(v: nat): (r: bytes)
    ensures |r| >= 1
  {
    if v < 128 then [v] else [v % 128 + 128] + Encoded(v / 128)
  }

  lemma Small(v: nat)
    requires v < 128
    ensures Encoded(v) == [v]
  {
  }

  method EncodeVarint(value: nat, out: bytes) returns (r: bytes)
    ensures r == out + Encoded(value)
  {
    var v := value;
    r := out;
    while true
      invariant r + Encoded(v) == out + Encoded(value)
      decreases v
    {
      var b := v % 128;
      v := v / 128;
      if v != 0 { b := b + 128; }
      r := r + [b];
      if v == 0 { break; }
    }
  }

  /** A seven-bit group moved up by `i` groups, unbounded. */
  function Placed(b: byte, i: nat): nat {
    if i == 0 then b % 128 else 128 * Placed(b, i - 1)
  }

  /** `(b & 0x7f) << (7 * i)` on a 64-bit word: bits past the word are lost. */
  function Shifted(b: byte, i: nat): (v: u64) {
    if i == 0 then b % 128 else 128 * Shifted(b, i - 1) % TWO_TO_THE_64
  }

  lemma {:induction false} HornerSnoc(s: bytes, b: byte)
    ensures Horner(s + [b]) == Horner(s) + Placed(b, |s|)
  {
    if s != [] {
      assert (s + [b])[1..] == s[1..] + [b];
      HornerSnoc(s[1..], b);
    } else {
      assert (s + [b])[1..] == [];
    }
  }

  lemma {:induction false} HornerBelow(s: bytes)
    ensures Horner(s) < Pow128(|s|)
  {
    if s != [] { HornerBelow(s[1..]); }
  }

  lemma Pow128Nine()
    ensures Pow128(9) == 0x8000_0000_0000_0000
  {
    assert Pow128(3) == 0x20_0000;
    assert Pow128(6) == 0x400_0000_0000;
  }

  lemma {:induction false} Pow128Monotone(i: nat, j: nat)
    requires i <= j
    ensures Pow128(i) <= Pow128(j)
    decreases j - i
  {
    if i < j { Pow128Monotone(i, j - 1); }
  }

  lemma {:induction false} ShiftedIsPlaced(b: byte, i: nat)
    requires i <= 9
    ensures Placed(b, i) < Pow128(i + 1)
    ensures i < 9 ==> Shifted(b, i) == Placed(b, i) < TWO_TO_THE_64
  {
    if i > 0 { ShiftedIsPlaced(b, i - 1); }
    Pow128Nine();
    Pow128Monotone(i, 9);
    if i < 9 { Pow128Monotone(i + 1, 9); }
  }

  /** Of the tenth group only the lowest bit survives the shift. */
  lemma TopGroup(b: byte)
    ensures Shifted(b, 9) == b % 128 % 2 * 0x8000_0000_0000_0000
    ensures Placed(b, 9) == b % 128 * 0x8000_0000_0000_0000
  {
    ShiftedIsPlaced(b, 8);
    assert Placed(b, 1) == b % 128 * 0x80;
    assert Placed(b, 3) == b % 128 * 0x20_0000;
    assert Placed(b, 5) == b % 128 * 0x8_0000_0000;
    assert Placed(b, 7) == b % 128 * 0x2_0000_0000_0000;
    DropHighBits(b % 128, 0);
  }

  lemma DropHighBits(group: nat, low: nat)
    requires low < 0x8000_0000_0000_0000
    ensures (low + group * 0x8000_0000_0000_0000) % TWO_TO_THE_64 == low + group % 2 * 0x8000_0000_0000_0000
  {
    assert low + group * 0x8000_0000_0000_0000 == group / 2 * TWO_TO_THE_64 + (low + group % 2 * 0x8000_0000_0000_0000);
  }

  /** The shifted-or accumulation of the source computes the word-truncated value one group at a time. */
  lemma AccumulateGroup(s: bytes, b: byte)
    requires |s| < 10
    ensures Horner(s) + Shifted(b, |s|) == Horner(s + [b]) % TWO_TO_THE_64
    ensures |s| < 9 ==> Horner(s + [b]) < TWO_TO_THE_64
  {
    hide Horner, Shifted;
    if |s| < 9 { LowGroup(s, b); } else { HighGroup(s, b); }
  }

  lemma LowGroup(s: bytes, b: byte)
    requires |s| < 9
    ensures Horner(s) + Shifted(b, |s|) == Horner(s + [b]) < TWO_TO_THE_64
  {
    HornerSnoc(s, b);
    ShiftedIsPlaced(b, |s|);
    Pow128Nine();
    HornerBelow(s + [b]);
    Pow128Monotone(|s| + 1, 9);
  }

  lemma HighGroup(s: bytes, b: byte)
    requires |s| == 9
    ensures Horner(s) + Shifted(b, 9) == Horner(s + [b]) % TWO_TO_THE_64
  {
    hide Shifted, Placed, Horner, Pow128;
    HornerSnoc(s, b);
    HornerBelow(s);
    Pow128Nine();
    TopGroup(b);
    DropHighBits(b % 128, Horner(s));
  }

  lemma EmptyHorner(wire: bytes)
    ensures Horner(wire[..0]) == 0
  {
  }

  method DecodeVarint(wire: bytes) returns (r: Option<(u64, nat)>)
    ensures r == Decoded(wire)
  {
    hide Shifted, Horner;
    var value, i := 0, 0;
    assert Horner(wire[..0]) == 0 by { EmptyHorner(wire); }
    while i < |wire|
      invariant 0 <= i <= |wire| && i <= 10
      invariant i < 10 ==> value == Horner(wire[..i])
      invariant Terminator(wire, 0) == Terminator(wire, i)
    {
      if i >= 10 { return None; }
      var b := wire[i];
      assert wire[..i] + [b] == wire[..i + 1];
      AccumulateGroup(wire[..i], b);
      value := value + Shifted(b, i);
      if b < 128 { return Some((value, i + 1)); }
      i := i + 1;
    }
    return None;
  }

  lemma {:induction false} EncodedDenotes(v: nat)
    ensures Horner(Encoded(v)) == v
  {
    if v < 128 {
      assert Encoded(v)[1..] == [];
    } else {
      assert Encoded(v)[1..] == Encoded(v / 128);
      EncodedDenotes(v / 128);
    }
  }

  /** Only the last byte of an encoding lacks the continuation bit. */
  lemma {:induction false} EncodedShape(v: nat, i: nat)
    requires i < |Encoded(v)|
    ensures Encoded(v)[i] < 128 <==> i == |Encoded(v)| - 1
  {
    if v >= 128 && i > 0 { EncodedShape(v / 128, i - 1); }
  }

  lemma {:induction false} EncodedLength(v: nat, n: nat)
    requires n > 0 && v < Pow128(n)
    ensures |Encoded(v)| <= n
  {
    if v >= 128 {
      assert Pow128(1) == 128 * Pow128(0);
      EncodedLength(v / 128, n - 1);
    }
  }

  lemma {:induction false} TerminatorOfEncoded(v: nat, suffix: bytes, i: nat)
    requires |Encoded(v)| <= 10 && i < |Encoded(v)|
    ensures Terminator(Encoded(v) + suffix, i) == Some(|Encoded(v)| - 1)
    decreases |Encoded(v)| - i
  {
    EncodedShape(v, i);
    if i < |Encoded(v)| - 1 { TerminatorOfEncoded(v, suffix, i + 1); }
  }

  /** Decoding inverts encoding for every 64-bit value, whatever follows it. */
  lemma DecodeInvertsEncode(v: u64, suffix: bytes)
    ensures Decoded(Encoded(v) + suffix) == Some((v, |Encoded(v)|))
  {
    assert Pow128(10) == 128 * Pow128(9);
    Pow128Nine();
    EncodedLength(v, 10);
    TerminatorOfEncoded(v, suffix, 0);
    var n := |Encoded(v)|;
    assert (Encoded(v) + suffix)[..n] == Encoded(v);
    EncodedDenotes(v);
  }

  /** The result depends on the bytes used and nothing after them. */
  lemma DecodedPrefix(wire: bytes, other: bytes)
    requires Decoded(wire).Some?
    requires Decoded(wire).value.1 <= |other| && other[..Decoded(wire).value.1] == wire[..Decoded(wire).value.1]
    ensures Decoded(other) == Decoded(wire)
  {
    var n := Decoded(wire).value.1;
    forall j | 0 <= j < n
      ensures wire[j] == other[j]
    {
      assert wire[..n][j] == other[..n][j];
    }
    SameTerminator(wire, other, n, 0);
  }

  lemma {:induction false} SameTerminator(wire: bytes, other: bytes, n: nat, i: nat)
    requires n <= |wire| && n <= |other| && forall j | 0 <= j < n :: wire[j] == other[j]
    requires i < n && Terminator(wire, i) == Some(n - 1)
    ensures Terminator(other, i) == Some(n - 1)
    decreases n - i
  {
    if wire[i] >= 128 { SameTerminator(wire, other, n, i + 1); }
  }
}
