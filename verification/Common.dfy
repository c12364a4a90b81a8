/** Types shared by the whole model. */
module Common {

  datatype Option<+T> = None | Some(value: T)

  type byte = x: int | 0 <= x < 256
  type bytes = seq<byte>

  /** A UDP endpoint; only equality of addresses matters to the model. */
  datatype SocketAddr = SocketAddr(ip: bytes, port: nat)

  /** A result with more elements in front of it: what a loop has pushed before the rest is known. */
  function Prefixed<T>(front: seq<T>, r: Option<seq<T>>): Option<seq<T>> {
    match r case Some(s) => Some(front + s) case None => None
  }

  lemma PrefixedTwice<T>(a: seq<T>, b: seq<T>, r: Option<seq<T>>)
    ensures Prefixed(a, Prefixed(b, r)) == Prefixed(a + b, r)
    ensures Prefixed([], r) == r
  {
    if r.Some? {
      assert a + (b + r.value) == (a + b) + r.value;
      assert [] + r.value == r.value;
    }
  }

  /** 256 to the power `n`: the number of `n`-byte strings. */
  function Pow256(n: nat): (p: nat)
    ensures p > 0
  {
    if n == 0 then 1 else 256 * Pow256(n - 1)
  }

  /** The big-endian value of a byte string (`from_be_bytes`). */
  function BigEndian(s: bytes): nat {
    if s == [] then 0 else BigEndian(s[..|s| - 1]) * 256 + s[|s| - 1]
  }

  /** The low `n` bytes of `x`, most significant first (`to_be_bytes`). */
  function ToBigEndian(x: nat, n: nat): (s: bytes)
    ensures |s| == n
  {
    if n == 0 then [] else ToBigEndian(x / 256, n - 1) + [x % 256]
  }

  lemma {:induction false} BigEndianInverse(x: nat, n: nat)
    requires x < Pow256(n)
    ensures BigEndian(ToBigEndian(x, n)) == x
  {
    if n > 0 {
      BigEndianInverse(x / 256, n - 1);
      var s := ToBigEndian(x, n);
      assert s[..n - 1] == ToBigEndian(x / 256, n - 1);
    }
  }

  lemma {:induction false} ToBigEndianInverse(s: bytes)
    ensures BigEndian(s) < Pow256(|s|)
    ensures ToBigEndian(BigEndian(s), |s|) == s
  {
    if s != [] {
      ToBigEndianInverse(s[..|s| - 1]);
      assert BigEndian(s) / 256 == BigEndian(s[..|s| - 1]);
      assert s == s[..|s| - 1] + [s[|s| - 1]];
    }
  }

  /** The first byte weighs `Pow256` of the bytes after it. */
  lemma {:induction false} BigEndianCons(b: byte, t: bytes)
    ensures BigEndian([b] + t) == b * Pow256(|t|) + BigEndian(t)
  {
    var s := [b] + t;
    if t == [] {
      assert s[..0] == [];
    } else {
      BigEndianCons(b, t[..|t| - 1]);
      assert s[..|s| - 1] == [b] + t[..|t| - 1];
    }
  }
}
