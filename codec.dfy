/**
 * The fixed-width big-endian encoding the indexer uses for every `u128`
 * it stores (coin values, fees, the fee pool, the fee multiplier, the DOSC
 * speed, staked amounts): `to_be_bytes` on insert, `from_be_bytes` on
 * read. SQLite orders BLOB values by `memcmp` and then by length, which is
 * the lexicographic order `LexCompare` below; the encoding preserves the
 * numeric order under it, which is what makes a range filter on an
 * encoded column select by numeric value.
 */
module Codec {

  type Byte = b: int | 0 <= b < 256

  /** 256^n */
  function Pow256(n: nat): (r: nat)
    ensures r >= 1
  {
    if n == 0 then 1 else 256 * Pow256(n - 1)
  }

  /** 2^128: one more than the largest `u128`. */
  const U128_BOUND: nat := 0x1_0000_0000_0000_0000_0000_0000_0000_0000

  type U128 = v: int | 0 <= v < U128_BOUND

  lemma Pow256Of16()
    ensures Pow256(16) == U128_BOUND
  {
    assert Pow256(1) == 0x100;
    assert Pow256(2) == 0x1_0000;
    assert Pow256(3) == 0x100_0000;
    assert Pow256(4) == 0x1_0000_0000;
    assert Pow256(5) == 0x100_0000_0000;
    assert Pow256(6) == 0x1_0000_0000_0000;
    assert Pow256(7) == 0x100_0000_0000_0000;
    assert Pow256(8) == 0x1_0000_0000_0000_0000;
    assert Pow256(9) == 0x100_0000_0000_0000_0000;
    assert Pow256(10) == 0x1_0000_0000_0000_0000_0000;
    assert Pow256(11) == 0x100_0000_0000_0000_0000_0000;
    assert Pow256(12) == 0x1_0000_0000_0000_0000_0000_0000;
    assert Pow256(13) == 0x100_0000_0000_0000_0000_0000_0000;
    assert Pow256(14) == 0x1_0000_0000_0000_0000_0000_0000_0000;
    assert Pow256(15) == 0x100_0000_0000_0000_0000_0000_0000_0000;
  }

  /** Three-way comparison of integers: -1, 0 or 1. */
  function Compare(a: int, b: int): (r: int)
    ensures r == -1 || r == 0 || r == 1
    ensures r < 0 <==> a < b
    ensures r == 0 <==> a == b
  {
    if a < b then -1 else if a == b then 0 else 1
  }

  /** The `n`-byte big-endian encoding of `v`: the least significant byte last. */
  function ToBE(v: nat, n: nat): (r: seq<Byte>)
    requires v < Pow256(n)
    ensures |r| == n
  {
    if n == 0 then [] else ToBE(v / 256, n - 1) + [v % 256]
  }

  /** The number a big-endian byte string denotes. */
  function FromBE(s: seq<Byte>): (r: nat)
    ensures r < Pow256(|s|)
  {
    if s == [] then 0 else FromBE(s[..|s| - 1]) * 256 + s[|s| - 1]
  }

  /** `u128::to_be_bytes`. */
  function ToBeBytes(v: U128): (r: seq<Byte>)
    ensures |r| == 16
  {
    Pow256Of16();
    ToBE(v, 16)
  }

  /** `u128::from_be_bytes` on a 16-byte array. */
  function FromBeBytes(b: seq<Byte>): (v: U128)
    requires |b| == 16
  {
    Pow256Of16();
    FromBE(b)
  }

  /** Decoding an encoding gives the number back. */
  lemma {:induction false} DecodeEncode(v: nat, n: nat)
    requires v < Pow256(n)
    ensures FromBE(ToBE(v, n)) == v
  {
    if n > 0 {
      var s := ToBE(v, n);
      DecodeEncode(v / 256, n - 1);
      assert s[..n - 1] == ToBE(v / 256, n - 1);
    }
  }

  /** Encoding a decoded byte string gives the bytes back. */
  lemma {:induction false} EncodeDecode(s: seq<Byte>)
    ensures ToBE(FromBE(s), |s|) == s
  {
    if s != [] {
      var init := s[..|s| - 1];
      EncodeDecode(init);
      var v := FromBE(s);
      assert v / 256 == FromBE(init) && v % 256 == s[|s| - 1];
      assert s == init + [s[|s| - 1]];
    }
  }

  /** Decoding the 16-byte big-endian form of a `u128` gives the value back. */
  lemma RoundTripU128(v: U128)
    ensures FromBeBytes(ToBeBytes(v)) == v
  {
    Pow256Of16();
    DecodeEncode(v, 16);
  }

  /** The encoding is injective on `u128`. */
  lemma ToBeBytesInjective(a: U128, b: U128)
    ensures ToBeBytes(a) == ToBeBytes(b) <==> a == b
  {
    RoundTripU128(a);
    RoundTripU128(b);
  }

  /**
   * SQLite's order on BLOB values: bytes compared left to right as unsigned
   * numbers, and a proper prefix before the longer string.
   */
  function LexCompare(a: seq<Byte>, b: seq<Byte>): (r: int)
    ensures r == -1 || r == 0 || r == 1
    ensures r == 0 <==> a == b
  {
    if a == [] && b == [] then 0
    else if a == [] then -1
    else if b == [] then 1
    else if a[0] < b[0] then -1
    else if a[0] > b[0] then 1
    else
      var r := LexCompare(a[1..], b[1..]);
      assert r == 0 ==> a == [a[0]] + a[1..] == [b[0]] + b[1..] == b;
      r
  }

  /** Appending one byte to each of two equal-length strings refines their order. */
  lemma {:induction false} LexCompareSnoc(s: seq<Byte>, t: seq<Byte>, x: Byte, y: Byte)
    requires |s| == |t|
    ensures LexCompare(s + [x], t + [y]) ==
            if LexCompare(s, t) != 0 then LexCompare(s, t) else Compare(x, y)
  {
    if s != [] {
      assert (s + [x])[1..] == s[1..] + [x];
      assert (t + [y])[1..] == t[1..] + [y];
      LexCompareSnoc(s[1..], t[1..], x, y);
    }
  }

  /** Lexicographic order of equal-length big-endian strings is numeric order. */
  lemma {:induction false} LexOrderIsNumericOrder(s: seq<Byte>, t: seq<Byte>)
    requires |s| == |t|
    ensures LexCompare(s, t) == Compare(FromBE(s), FromBE(t))
  {
    if s != [] {
      var n := |s| - 1;
      LexOrderIsNumericOrder(s[..n], t[..n]);
      assert s == s[..n] + [s[n]];
      assert t == t[..n] + [t[n]];
      LexCompareSnoc(s[..n], t[..n], s[n], t[n]);
    }
  }

  /** The 16-byte encoding is order-preserving: `value_range` bounds select by value. */
  lemma EncodingPreservesOrder(a: U128, b: U128)
    ensures LexCompare(ToBeBytes(a), ToBeBytes(b)) == Compare(a, b)
  {
    LexOrderIsNumericOrder(ToBeBytes(a), ToBeBytes(b));
    RoundTripU128(a);
    RoundTripU128(b);
  }
}
