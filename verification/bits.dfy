/** Fixed-width unsigned integers and their big-endian bit encodings, as cells store them. */
module Bits {

  type byte = x: int | 0 <= x < 0x100
  type u32 = x: int | 0 <= x < 0x1_0000_0000
  type u64 = x: int | 0 <= x < 0x1_0000_0000_0000_0000

  function Pow2(n: nat): (r: nat)
    ensures r >= 1
  {
    if n == 0 then 1 else 2 * Pow2(n - 1)
  }

  lemma Pow2Values()
    ensures Pow2(8) == 0x100 && Pow2(32) == 0x1_0000_0000
  {
    assert Pow2(8) == 0x100;
    assert Pow2(16) == 0x1_0000;
    assert Pow2(24) == 0x100_0000;
  }

  lemma {:induction false} Pow2Add(a: nat, b: nat)
    ensures Pow2(a + b) == Pow2(a) * Pow2(b)
  {
    if b > 0 {
      Pow2Add(a, b - 1);
    }
  }

  /** The low `width` bits of `v`, most significant bit first. */
  function BitsOfUint(v: nat, width: nat): (r: seq<bool>)
    ensures |r| == width
  {
    if width == 0 then [] else BitsOfUint(v / 2, width - 1) + [v % 2 == 1]
  }

  /** The number a bit string denotes when read most significant bit first. */
  function UintOfBits(bits: seq<bool>): (r: nat)
    ensures r < Pow2(|bits|)
  {
    if bits == [] then 0
    else 2 * UintOfBits(bits[..|bits| - 1]) + (if bits[|bits| - 1] then 1 else 0)
  }

  /** Reading back a `width`-bit encoding gives the value, when it fits. */
  lemma {:induction false} UintOfBitsOfUint(v: nat, width: nat)
    requires v < Pow2(width)
    ensures UintOfBits(BitsOfUint(v, width)) == v
  {
    if width > 0 {
      var s := BitsOfUint(v, width);
      assert s[..width - 1] == BitsOfUint(v / 2, width - 1);
      UintOfBitsOfUint(v / 2, width - 1);
    }
  }

  /** Encoding the value of a bit string at its own width gives the string back. */
  lemma {:induction false} BitsOfUintOfBits(bits: seq<bool>)
    ensures BitsOfUint(UintOfBits(bits), |bits|) == bits
  {
    if bits != [] {
      var n := |bits|;
      var init := bits[..n - 1];
      var b := if bits[n - 1] then 1 else 0;
      assert (2 * UintOfBits(init) + b) / 2 == UintOfBits(init);
      BitsOfUintOfBits(init);
      assert bits == init + [bits[n - 1]];
    }
  }

  /** Big-endian concatenation: the left part holds the more significant bits. */
  lemma {:induction false} UintOfBitsAppend(a: seq<bool>, b: seq<bool>)
    ensures UintOfBits(a + b) == UintOfBits(a) * Pow2(|b|) + UintOfBits(b)
  {
    if b != [] {
      var n := |b|;
      var last := if b[n - 1] then 1 else 0;
      assert (a + b)[..|a + b| - 1] == a + b[..n - 1];
      assert (a + b)[|a + b| - 1] == b[n - 1];
      UintOfBitsAppend(a, b[..n - 1]);
      var x, y, p := UintOfBits(a), UintOfBits(b[..n - 1]), Pow2(n - 1);
      assert UintOfBits(a + b) == 2 * UintOfBits(a + b[..n - 1]) + last;
      assert UintOfBits(b) == 2 * y + last;
      assert Pow2(n) == 2 * p;
      ShiftDistributes(x, p, y, last);
    } else {
      assert a + b == a;
    }
  }

  /** Three fields side by side, the first one most significant. */
  lemma UintOfBitsAppend3(a: seq<bool>, b: seq<bool>, c: seq<bool>)
    ensures UintOfBits(a + b + c) ==
            UintOfBits(a) * Pow2(|b| + |c|) + UintOfBits(b) * Pow2(|c|) + UintOfBits(c)
  {
    UintOfBitsAppend(a + b, c);
    UintOfBitsAppend(a, b);
    Pow2Add(|b|, |c|);
    Regroup(UintOfBits(a), Pow2(|b|), UintOfBits(b), Pow2(|c|), Pow2(|b| + |c|),
            UintOfBits(c), UintOfBits(a + b), UintOfBits(a + b + c));
  }

  lemma Regroup(x: int, p: int, y: int, q: int, pq: int, z: int, xy: int, xyz: int)
    requires pq == p * q && xy == x * p + y && xyz == xy * q + z
    ensures xyz == x * pq + y * q + z
  {
  }

  lemma ShiftDistributes(x: int, p: int, y: int, last: int)
    ensures 2 * (x * p + y) + last == x * (2 * p) + (2 * y + last)
  {
  }

  /** A 32-bit field read back as an unsigned integer. */
  function U32OfBits(bits: seq<bool>): (r: u32)
    requires |bits| == 32
    ensures BitsOfUint(r, 32) == bits
  {
    Pow2Values();
    BitsOfUintOfBits(bits);
    UintOfBits(bits)
  }

  /** A 32-bit field reads back as the value it was written from. */
  lemma U32RoundTrip(v: u32)
    ensures U32OfBits(BitsOfUint(v, 32)) == v
  {
    Pow2Values();
    UintOfBitsOfUint(v, 32);
  }

  /** Bytes laid out in order, each most significant bit first. */
  function BitsOfBytes(bs: seq<byte>): (r: seq<bool>)
    ensures |r| == 8 * |bs|
  {
    if bs == [] then [] else BitsOfUint(bs[0], 8) + BitsOfBytes(bs[1..])
  }

  /** Groups a whole number of octets back into bytes. */
  function BytesOfBits(bits: seq<bool>): (r: seq<byte>)
    requires |bits| % 8 == 0
    ensures |r| == |bits| / 8
  {
    if bits == [] then []
    else
      Pow2Values();
      [UintOfBits(bits[..8])] + BytesOfBits(bits[8..])
  }

  lemma {:induction false} BytesRoundTrip(bs: seq<byte>)
    ensures BytesOfBits(BitsOfBytes(bs)) == bs
  {
    if bs != [] {
      var s := BitsOfBytes(bs);
      assert s[..8] == BitsOfUint(bs[0], 8);
      assert s[8..] == BitsOfBytes(bs[1..]);
      Pow2Values();
      UintOfBitsOfUint(bs[0], 8);
      BytesRoundTrip(bs[1..]);
    }
  }

  lemma {:induction false} BitsRoundTrip(bits: seq<bool>)
    requires |bits| % 8 == 0
    ensures BitsOfBytes(BytesOfBits(bits)) == bits
  {
    if bits != [] {
      BitsOfUintOfBits(bits[..8]);
      BitsRoundTrip(bits[8..]);
      assert bits == bits[..8] + bits[8..];
    }
  }
}
