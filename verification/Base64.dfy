/** Padded base64 with the standard alphabet, section 4 of RFC 4648; non-canonical text is refused. */
module Base64 {
  import opened Common

  type sextet = x: int | 0 <= x < 64

  function ToChar(i: sextet): char {
    if i < 26 then 'A' + i as char
    else if i < 52 then 'a' + (i - 26) as char
    else if i < 62 then '0' + (i - 52) as char
    else if i == 62 then '+' else '/'
  }

  function FromChar(c: char): Option<sextet> {
    if 'A' <= c <= 'Z' then Some((c - 'A') as int)
    else if 'a' <= c <= 'z' then Some((c - 'a') as int + 26)
    else if '0' <= c <= '9' then Some((c - '0') as int + 52)
    else if c == '+' then Some(62) else if c == '/' then Some(63) else None
  }

  predicate Alphabet(c: char) { FromChar(c).Some? || c == '=' }

  lemma CharInverse(i: sextet)
    ensures FromChar(ToChar(i)) == Some(i)
  {
  }

  // The four sextets of three bytes, and the three bytes of four sextets.
  function Sextet0(a: byte): sextet { a / 4 }
  function Sextet1(a: byte, b: byte): sextet { (a as int) % 4 * 16 + b as int / 16 }
  function Sextet2(b: byte, c: byte): sextet { (b as int) % 16 * 4 + c as int / 64 }
  function Sextet3(c: byte): sextet { c % 64 }
  function Octet0(w: sextet, x: sextet): byte { (w as int) * 4 + x as int / 16 }
  function Octet1(x: sextet, y: sextet): byte { (x as int) % 16 * 16 + y as int / 4 }
  function Octet2(y: sextet, z: sextet): byte { (y as int) % 4 * 64 + z as int }

  lemma OctetInverse(a: byte, b: byte, c: byte)
    ensures Octet0(Sextet0(a), Sextet1(a, b)) == a
    ensures Octet1(Sextet1(a, b), Sextet2(b, c)) == b
    ensures Octet2(Sextet2(b, c), Sextet3(c)) == c
  {
  }

  /** Three full bytes as four characters. */
  function EncodeBlock(a: byte, b: byte, c: byte): (s: string)
    ensures |s| == 4
  {
    [ToChar(Sextet0(a)), ToChar(Sextet1(a, b)), ToChar(Sextet2(b, c)), ToChar(Sextet3(c))]
  }

  function Encode(b: bytes): (s: string)
    ensures |s| % 4 == 0
  {
    if b == [] then ""
    else if |b| == 1 then EncodeBlock(b[0], 0, 0)[..2] + "=="
    else if |b| == 2 then EncodeBlock(b[0], b[1], 0)[..3] + "="
    else EncodeBlock(b[0], b[1], b[2]) + Encode(b[3..])
  }

  function DecodeBlock(s: string): (r: Option<bytes>)
    requires |s| == 4
    ensures r.Some? ==> |r.value| == 3
  {
    match (FromChar(s[0]), FromChar(s[1]), FromChar(s[2]), FromChar(s[3]))
    case (Some(w), Some(x), Some(y), Some(z)) => Some([Octet0(w, x), Octet1(x, y), Octet2(y, z)])
    case _ => None
  }

  /** The last four characters, where padding may stand; a padded block must be canonical. */
  function DecodeLast(s: string): Option<bytes>
    requires |s| == 4
  {
    var pad := if s[3] != '=' then 0 else if s[2] != '=' then 1 else 2;
    var full := DecodeBlock(s[..4 - pad] + seq(pad, _ => 'A'));
    if full.None? then None
    else
      var b := full.value[..3 - pad];
      if Encode(b) == s then Some(b) else None
  }

  function Decode(s: string): Option<bytes> {
    if s == "" then Some([])
    else if |s| < 4 then None
    else if |s| == 4 then DecodeLast(s)
    else match (DecodeBlock(s[..4]), Decode(s[4..]))
      case (Some(a), Some(b)) => Some(a + b)
      case _ => None
  }

  lemma BlockInverse(a: byte, b: byte, c: byte)
    ensures DecodeBlock(EncodeBlock(a, b, c)) == Some([a, b, c])
  {
    hide FromChar, ToChar, Sextet0, Sextet1, Sextet2, Sextet3, Octet0, Octet1, Octet2;
    CharInverse(Sextet0(a));
    CharInverse(Sextet1(a, b));
    CharInverse(Sextet2(b, c));
    CharInverse(Sextet3(c));
    OctetInverse(a, b, c);
  }

  lemma PlainChar(i: sextet)
    ensures ToChar(i) != '=' && Alphabet(ToChar(i))
  {
  }

  lemma LastInverse(b: bytes)
    requires 1 <= |b| <= 3
    ensures |Encode(b)| == 4 && DecodeLast(Encode(b)) == Some(b)
  {
    hide FromChar, ToChar, DecodeBlock, Sextet0, Sextet1, Sextet2, Sextet3;
    var x: byte := if |b| > 1 then b[1] else 0;
    var y: byte := if |b| > 2 then b[2] else 0;
    var s := EncodeBlock(b[0], x, y);
    PlainChar(Sextet2(x, y));
    PlainChar(Sextet3(y));
    BlockInverse(b[0], x, y);
    ZeroChar();
    var e := Encode(b);
    if |b| == 1 {
      assert e[..2] + seq(2, _ => 'A') == s;
    } else if |b| == 2 {
      assert e[..3] + seq(1, _ => 'A') == s;
    } else {
      assert b[3..] == [] && e == s;
      assert e[..4] + seq(0, _ => 'A') == s;
    }
    assert [b[0], x, y][..|b|] == b;
  }

  lemma ZeroChar()
    ensures ToChar(Sextet2(0, 0)) == 'A' && ToChar(Sextet3(0)) == 'A'
  {
  }

  lemma {:induction false} RoundTrip(b: bytes)
    ensures Decode(Encode(b)) == Some(b)
  {
    hide DecodeLast, DecodeBlock, EncodeBlock;
    if b == [] {
    } else if |b| <= 3 {
      LastInverse(b);
    } else {
      RoundTrip(b[3..]);
      BlockInverse(b[0], b[1], b[2]);
      var e := Encode(b);
      assert e[..4] == EncodeBlock(b[0], b[1], b[2]) && e[4..] == Encode(b[3..]);
      assert Encode(b[3..]) != "";
      assert b == [b[0], b[1], b[2]] + b[3..];
    }
  }

  lemma CharCanonical(c: char)
    requires FromChar(c).Some?
    ensures ToChar(FromChar(c).value) == c
  {
  }

  lemma SextetInverse(w: sextet, x: sextet, y: sextet, z: sextet)
    ensures Sextet0(Octet0(w, x)) == w && Sextet1(Octet0(w, x), Octet1(x, y)) == x
    ensures Sextet2(Octet1(x, y), Octet2(y, z)) == y && Sextet3(Octet2(y, z)) == z
  {
  }

  lemma BlockCanonical(s: string)
    requires |s| == 4 && DecodeBlock(s).Some?
    ensures var b := DecodeBlock(s).value; EncodeBlock(b[0], b[1], b[2]) == s
  {
    hide FromChar, ToChar, Sextet0, Sextet1, Sextet2, Sextet3, Octet0, Octet1, Octet2;
    CharCanonical(s[0]);
    CharCanonical(s[1]);
    CharCanonical(s[2]);
    CharCanonical(s[3]);
    SextetInverse(FromChar(s[0]).value, FromChar(s[1]).value, FromChar(s[2]).value, FromChar(s[3]).value);
  }

  lemma {:induction false} Canonical(s: string)
    requires Decode(s).Some?
    ensures Encode(Decode(s).value) == s
  {
    hide DecodeBlock, EncodeBlock;
    if s == "" {
    } else if |s| == 4 {
      assert DecodeLast(s).Some?;
    } else {
      var a, rest := DecodeBlock(s[..4]).value, Decode(s[4..]).value;
      Canonical(s[4..]);
      BlockCanonical(s[..4]);
      assert rest != [];
      var b := a + rest;
      assert b[0] == a[0] && b[1] == a[1] && b[2] == a[2] && b[3..] == rest;
      assert s == s[..4] + s[4..];
    }
  }

  /** Only the encoder's own text is accepted. */
  lemma DecodeExact(s: string, b: bytes)
    ensures Decode(s) == Some(b) <==> s == Encode(b)
  {
    hide Decode, Encode;
    RoundTrip(b);
    if Decode(s) == Some(b) {
      Canonical(s);
    }
  }

  lemma BlockInAlphabet(a: byte, b: byte, c: byte)
    ensures forall x :: x in EncodeBlock(a, b, c) ==> Alphabet(x)
  {
    hide Alphabet, ToChar, Sextet0, Sextet1, Sextet2, Sextet3;
    PlainChar(Sextet0(a));
    PlainChar(Sextet1(a, b));
    PlainChar(Sextet2(b, c));
    PlainChar(Sextet3(c));
  }

  /** Encoded text holds only alphabet characters and padding. */
  lemma {:induction false} InAlphabet(b: bytes)
    ensures forall x :: x in Encode(b) ==> Alphabet(x)
  {
    hide EncodeBlock, FromChar;
    if |b| > 2 {
      InAlphabet(b[3..]);
      BlockInAlphabet(b[0], b[1], b[2]);
    } else if |b| == 2 {
      BlockInAlphabet(b[0], b[1], 0);
    } else if |b| == 1 {
      BlockInAlphabet(b[0], 0, 0);
    }
  }

  /** Vectors of section 10 of RFC 4648. */
  lemma Vectors()
    ensures Encode(['f' as int]) == "Zg==" && Encode(['f' as int, 'o' as int]) == "Zm8="
    ensures Encode(['f' as int, 'o' as int, 'o' as int]) == "Zm9v"
    ensures Encode([0xFB, 0xFF, 0xBF]) == "+/+/"
  {
    assert [0xFB, 0xFF, 0xBF][3..] == [];
    assert ['f' as int, 'o' as int, 'o' as int][3..] == [];
  }
}
