/** QUIC variable-length integers, section 16 of RFC 9000. */
module Varint {
  import opened Common

  const TWO_62: nat := 0x4000_0000_0000_0000

  type u64 = x: int | 0 <= x < 0x1_0000_0000_0000_0000

  /** Vectors of appendix A.1 of RFC 9000, and a buffer shorter than its prefix announces. */
  lemma KnownVectors()
    ensures Decoded([0x25]) == Some((37, 1)) && Decoded([0x7b, 0xbd]) == Some((15293, 2))
    ensures Decoded([0x80, 0x00]) == None && Decoded([]) == None
  {
    var s: bytes := [0x3b, 0xbd];
    assert s[..1] == [0x3b] && [0x3b][..0] == [];
    assert [0x25][..0] == [];
    assert [0x3b] + [0x7b, 0xbd][1..2] == s && [0x25] + [0x25][1..1] == [0x25];
  }

  /** The length selected by the two high bits of the first byte. */
  function PrefixLength(first: byte): (n: nat)
    ensures n in {1, 2, 4, 8}
  {
    match first / 64 case 0 => 1 case 1 => 2 case 2 => 4 case _ => 8
  }

  /** What a decoder must return: the big-endian value without its two prefix bits, and its length. */
  function Decoded(buf: bytes): Option<(nat, nat)> {
    if buf == [] then None
    else
      var n := PrefixLength(buf[0]);
      if |buf| < n then None else Some((BigEndian([buf[0] % 64] + buf[1..n]), n))
  }

  method Decode(buf: bytes) returns (r: Option<(nat, nat)>)
    ensures r == Decoded(buf)
  {
    if buf == [] {
      return None;
    }
    var len := PrefixLength(buf[0]);
    if |buf| < len {
      return None;
    }
    var value: nat := buf[0] % 64;
    var i := 1;
    while i < len
      invariant 1 <= i <= len
      invariant value == BigEndian([buf[0] % 64] + buf[1..i])
    {
      ghost var s := [buf[0] % 64] + buf[1..i + 1];
      assert s[..i] == [buf[0] % 64] + buf[1..i];
      assert s[i] == buf[i];
      value := value * 256 + buf[i];
      i := i + 1;
    }
    return Some((value, len));
  }

  function EncodedLen(value: u64): (n: nat) {
    if value <= 63 then 1
    else if value <= 16383 then 2
    else if value <= 1_073_741_823 then 4
    else 8
  }

  /**
   * Setting both top bits of a 64-bit word keeps its low 62 bits; in the shorter forms the
   * value is below the prefix bit, so setting it is an addition.
   */
  function Encode(value: u64): (s: bytes)
    ensures |s| == EncodedLen(value)
  {
    if value <= 63 then [value]
    else if value <= 16383 then ToBigEndian(value + 0x4000, 2)
    else if value <= 1_073_741_823 then ToBigEndian(value + 0x8000_0000, 4)
    else ToBigEndian(value % TWO_62 + 3 * TWO_62, 8)
  }

  lemma PowerTable()
    ensures Pow256(0) == 1 && Pow256(1) == 0x100 && Pow256(2) == 0x1_0000 && Pow256(3) == 0x100_0000
    ensures Pow256(4) == 0x1_0000_0000 && Pow256(7) == 0x100_0000_0000_0000
    ensures Pow256(8) == 0x1_0000_0000_0000_0000
  {
    assert Pow256(5) == 0x100_0000_0000;
  }

  /** The weights of the first byte of an encoding. */
  predicate FirstWeight(p: nat) { p == 1 || p == 0x100 || p == 0x100_0000 || p == 0x100_0000_0000_0000 }

  /** The two prefix bits sit above the value in the first byte `a`. */
  lemma PrefixSplit(a: byte, low: nat, p: nat)
    requires low < p && FirstWeight(p)
    ensures a * p + low == (a / 64) * (64 * p) + ((a % 64) * p + low)
    ensures (a % 64) * p + low < 64 * p
  {
    if p == 1 {} else if p == 0x100 {} else if p == 0x100_0000 {} else {}
  }

  /** So the first byte of a prefixed value shows the prefix and the rest of the value. */
  lemma PrefixBits(a: byte, low: nat, p: nat, v: nat, k: nat)
    requires k < 4 && low < p && v < 64 * p && FirstWeight(p)
    requires a * p + low == v + k * (64 * p)
    ensures a / 64 == k && (a % 64) * p + low == v
  {
    if p == 1 {} else if p == 0x100 {} else if p == 0x100_0000 {} else {}
  }

  /** Encoding `v` under prefix `k` on `n` bytes and decoding again gives `v` back. */
  lemma PrefixedRoundTrip(v: nat, k: nat, n: nat, rest: bytes)
    requires k < 4 && n == [1, 2, 4, 8][k]
    requires v < 64 * Pow256(n - 1) && v + k * (64 * Pow256(n - 1)) < Pow256(n)
    ensures Decoded(ToBigEndian(v + k * (64 * Pow256(n - 1)), n) + rest) == Some((v, n))
  {
    PowerTable();
    hide ToBigEndian, Pow256;
    var x := v + k * (64 * Pow256(n - 1));
    var s := ToBigEndian(x, n);
    var t := s[1..];
    assert BigEndian([s[0]] + t) == x by {
      BigEndianInverse(x, n);
      assert s == [s[0]] + t;
    }
    BigEndianCons(s[0], t);
    ToBigEndianInverse(t);
    PrefixBits(s[0], BigEndian(t), Pow256(n - 1), v, k);
    var buf := s + rest;
    assert buf[0] == s[0] && buf[1..n] == t;
    BigEndianCons(buf[0] % 64, t);
  }

  lemma RoundTrip1(value: u64, rest: bytes)
    requires value <= 63
    ensures Decoded(Encode(value) + rest) == Some((value, 1))
  {
    hide Decoded;
    assert Pow256(0) == 1 && Pow256(1) == 256;
    PrefixedRoundTrip(value, 0, 1, rest);
    assert ToBigEndian(value, 1) == [value];
  }

  lemma RoundTrip2(value: u64, rest: bytes)
    requires 63 < value <= 16383
    ensures Decoded(Encode(value) + rest) == Some((value, 2))
  {
    hide Decoded, ToBigEndian;
    PowerTable();
    hide Pow256;
    PrefixedRoundTrip(value, 1, 2, rest);
  }

  lemma RoundTrip4(value: u64, rest: bytes)
    requires 16383 < value <= 1_073_741_823
    ensures Decoded(Encode(value) + rest) == Some((value, 4))
  {
    hide Decoded, ToBigEndian;
    PowerTable();
    hide Pow256;
    PrefixedRoundTrip(value, 2, 4, rest);
  }

  lemma RoundTrip8(value: u64, rest: bytes)
    requires value > 1_073_741_823
    ensures Decoded(Encode(value) + rest) == Some((value % TWO_62, 8))
  {
    hide Decoded, ToBigEndian;
    PowerTable();
    hide Pow256;
    PrefixedRoundTrip(value % TWO_62, 3, 8, rest);
  }

  /**
   * Decoding an encoding, whatever follows it, consumes exactly the encoded length and yields
   * the low 62 bits; so it inverts the encoder if and only if the value is below 2^62.
   */
  lemma RoundTrip(value: u64, rest: bytes)
    ensures Decoded(Encode(value) + rest) == Some((value % TWO_62, EncodedLen(value)))
    ensures Decoded(Encode(value) + rest) == Some((value, EncodedLen(value))) <==> value < TWO_62
  {
    hide Decoded, Encode;
    if value <= 63 {
      RoundTrip1(value, rest);
    } else if value <= 16383 {
      RoundTrip2(value, rest);
    } else if value <= 1_073_741_823 {
      RoundTrip4(value, rest);
    } else {
      RoundTrip8(value, rest);
    }
  }

  /** The prefix bits that announce a length. */
  function LengthCode(n: nat): (k: nat)
    requires n in {1, 2, 4, 8}
    ensures k < 4 && n == [1, 2, 4, 8][k]
  {
    if n == 1 then 0 else if n == 2 then 1 else if n == 4 then 2 else 3
  }

  /** Byte string `a` is the value `v` under the prefix of its length; `v` may have been written shorter. */
  predicate Encodes(a: bytes, v: nat) {
    && |a| in {1, 2, 4, 8} && v < 64 * Pow256(|a| - 1)
    && a == ToBigEndian(v + LengthCode(|a|) * (64 * Pow256(|a| - 1)), |a|)
  }

  /** The decoder's language: exactly the values under their prefixes, minimal or not. */
  lemma DecodedExact(buf: bytes, v: nat, n: nat)
    ensures Decoded(buf) == Some((v, n)) <==> n <= |buf| && Encodes(buf[..n], v)
  {
    hide ToBigEndian, Decoded;
    if Decoded(buf) == Some((v, n)) {
      DecodedShape(buf);
    }
    if n <= |buf| && Encodes(buf[..n], v) {
      PrefixFits(v, n);
      hide Pow256, PrefixLength;
      PrefixedRoundTrip(v, LengthCode(n), n, buf[n..]);
      assert buf == buf[..n] + buf[n..];
    }
  }

  lemma PrefixFits(v: nat, n: nat)
    requires n in {1, 2, 4, 8} && v < 64 * Pow256(n - 1)
    ensures v + LengthCode(n) * (64 * Pow256(n - 1)) < Pow256(n)
  {
    assert Pow256(n) == 256 * Pow256(n - 1);
    if n == 1 {} else if n == 2 {} else if n == 4 {} else {}
  }

  /** An accepted encoding is the value under its prefix, in big-endian order. */
  lemma DecodedShape(buf: bytes)
    requires Decoded(buf).Some?
    ensures var (v, n) := Decoded(buf).value;
            && n <= |buf| && n in {1, 2, 4, 8} && LengthCode(n) == buf[0] / 64 && Encodes(buf[..n], v)
  {
    PowerTable();
    hide ToBigEndian, Pow256;
    var (v, n) := Decoded(buf).value;
    var t := buf[1..n];
    BigEndianCons(buf[0] % 64, t);
    BigEndianCons(buf[0], t);
    ToBigEndianInverse(t);
    PrefixSplit(buf[0], BigEndian(t), Pow256(n - 1));
    assert buf[..n] == [buf[0]] + t;
    ToBigEndianInverse(buf[..n]);
  }

  /**
   * Every accepted value is below 2^62, its encoding is never shorter than the encoder's,
   * and the encoder's is the only encoding of that length.
   */
  lemma DecodedIsMinimal(buf: bytes)
    requires Decoded(buf).Some?
    ensures var (v, n) := Decoded(buf).value;
            && v < TWO_62 && n <= |buf|
            && EncodedLen(v) <= n
            && (n == EncodedLen(v) <==> buf[..n] == Encode(v))
  {
    PowerTable();
    DecodedShape(buf);
    var (v, n) := Decoded(buf).value;
    assert ToBigEndian(v, 1) == [v % 256];
  }
}
