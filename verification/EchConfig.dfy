/**
 * ECHConfig and ECHConfigList, section 4 of draft-ietf-tls-esni-22.
 *
 * `Layout` writes the format down with the extension and trailing bytes the encoder never
 * produces; the decoder is shown to accept exactly the laid-out byte strings.
 */
module EchConfig {
  import opened Common

  const ECH_CONFIG_VERSION_V18: u16 := 0xfe0d

  type u16 = x: int | 0 <= x < 0x1_0000

  datatype CipherSuite = CipherSuite(kdfId: u16, aeadId: u16)

  /** `publicName` holds the bytes of a `String`, so an existing one is valid UTF-8. */
  datatype EchConfig = EchConfig(configId: byte, kemId: u16, publicKey: bytes, cipherSuites: seq<CipherSuite>,
                                 maximumNameLength: byte, publicName: bytes)

  /** Well-formed UTF-8, section 4 of RFC 3629. */
  predicate IsUtf8(s: bytes) {
    s == [] ||
    (s[0] < 0x80 && IsUtf8(s[1..])) ||
    (|s| >= 2 && 0xC2 <= s[0] <= 0xDF && Tail(s[1]) && IsUtf8(s[2..])) ||
    (|s| >= 3 && 0xE0 <= s[0] <= 0xEF && Tail(s[1]) && Tail(s[2]) && IsUtf8(s[3..]) &&
     (s[0] == 0xE0 ==> s[1] >= 0xA0) && (s[0] == 0xED ==> s[1] < 0xA0)) ||
    (|s| >= 4 && 0xF0 <= s[0] <= 0xF4 && Tail(s[1]) && Tail(s[2]) && Tail(s[3]) && IsUtf8(s[4..]) &&
     (s[0] == 0xF0 ==> s[1] >= 0x90) && (s[0] == 0xF4 ==> s[1] < 0x90))
  }

  predicate Tail(b: byte) { 0x80 <= b < 0xC0 }

  // ---------- the format ----------

  function U16(x: nat): (s: bytes) ensures |s| == 2 { [x / 256 % 256, x % 256] }

  /** A byte string behind a two-byte length. */
  function Vec16(v: bytes): bytes { U16(|v|) + v }

  /** A byte string behind a one-byte length. */
  function Vec8(v: bytes): bytes { [|v| % 256] + v }

  function Suites(cs: seq<CipherSuite>): (s: bytes)
    ensures |s| == 4 * |cs|
  {
    if cs == [] then [] else U16(cs[0].kdfId) + U16(cs[0].aeadId) + Suites(cs[1..])
  }

  function NameAndAfter(c: EchConfig, ext: bytes, tail: bytes): bytes {
    [c.maximumNameLength] + (Vec8(c.publicName) + (Vec16(ext) + tail))
  }

  function SuitesAndAfter(c: EchConfig, ext: bytes, tail: bytes): bytes {
    Vec16(Suites(c.cipherSuites)) + NameAndAfter(c, ext, tail)
  }

  function Contents(c: EchConfig, ext: bytes, tail: bytes): bytes {
    [c.configId] + (U16(c.kemId) + (Vec16(c.publicKey) + SuitesAndAfter(c, ext, tail)))
  }

  function Layout(c: EchConfig, ext: bytes, tail: bytes): bytes {
    U16(ECH_CONFIG_VERSION_V18) + Vec16(Contents(c, ext, tail))
  }

  /** No length prefix written by the encoder overflows its field: no `expect` fires. */
  predicate Encodable(c: EchConfig) {
    && |c.publicKey| < 0x1_0000 && 4 * |c.cipherSuites| < 0x1_0000 && |c.publicName| < 0x100
    && |Contents(c, [], [])| < 0x1_0000
  }

  /** The layouts a decoder may meet: every length fits, one suite at least, a readable name. */
  predicate Fits(c: EchConfig, ext: bytes, tail: bytes) {
    && Encodable(c) && c.cipherSuites != [] && IsUtf8(c.publicName)
    && |ext| < 0x1_0000 && |Contents(c, ext, tail)| < 0x1_0000
  }

  lemma ContentsLength(c: EchConfig, ext: bytes, tail: bytes)
    ensures |Contents(c, ext, tail)| == |Contents(c, [], [])| + |ext| + |tail|
    ensures |Layout(c, ext, tail)| == 4 + |Contents(c, ext, tail)|
  {
  }

  // ---------- the encoder ----------

  /** `None` stands for a panic in one of the `expect` calls. */
  function Encoded(c: EchConfig): Option<bytes> {
    if Encodable(c) then Some(Layout(c, [], [])) else None
  }

  /** The contents in the order the encoder appends them. */
  lemma ContentsFlat(c: EchConfig)
    requires |c.publicName| < 0x100
    ensures Contents(c, [], []) ==
            [c.configId] + U16(c.kemId) + U16(|c.publicKey|) + c.publicKey + U16(4 * |c.cipherSuites|)
            + Suites(c.cipherSuites) + [c.maximumNameLength] + [|c.publicName|] + c.publicName + [0, 0]
  {
  }

  /** The cipher-suite loop of the encoder. */
  method AppendSuites(before: bytes, cs: seq<CipherSuite>) returns (contents: bytes)
    ensures contents == before + Suites(cs)
  {
    hide U16;
    contents := before;
    var i := 0;
    while i < |cs|
      invariant 0 <= i <= |cs|
      invariant contents + Suites(cs[i..]) == before + Suites(cs)
    {
      assert cs[i..][1..] == cs[i + 1..];
      contents := contents + U16(cs[i].kdfId);
      contents := contents + U16(cs[i].aeadId);
      i := i + 1;
    }
  }

  method Encode(c: EchConfig) returns (out: Option<bytes>)
    ensures out == Encoded(c)
  {
    hide U16, Suites;
    var contents: bytes := [c.configId];
    contents := contents + U16(c.kemId);
    if |c.publicKey| >= 0x1_0000 { return None; }
    contents := contents + U16(|c.publicKey|) + c.publicKey;
    if 4 * |c.cipherSuites| >= 0x1_0000 { return None; }
    contents := contents + U16(4 * |c.cipherSuites|);
    contents := AppendSuites(contents, c.cipherSuites);
    contents := contents + [c.maximumNameLength];
    if |c.publicName| >= 0x100 { return None; }
    contents := contents + [|c.publicName|] + c.publicName;
    contents := contents + [0, 0];
    ContentsFlat(c);
    if |contents| >= 0x1_0000 { return None; }
    out := Some(U16(ECH_CONFIG_VERSION_V18) + U16(|contents|) + contents);
    assert out.value == U16(ECH_CONFIG_VERSION_V18) + (U16(|contents|) + contents);
  }

  // ---------- the decoder ----------

  function TakeBytes(s: bytes, n: nat): Option<(bytes, bytes)> {
    if |s| < n then None else Some((s[..n], s[n..]))
  }

  function TakeU8(s: bytes): Option<(byte, bytes)> {
    if s == [] then None else Some((s[0], s[1..]))
  }

  function Join16(hi: byte, lo: byte): u16 { hi as int * 256 + lo as int }

  function TakeU16(s: bytes): Option<(u16, bytes)> {
    if |s| < 2 then None else Some((Join16(s[0], s[1]), s[2..]))
  }

  function TakeVec16(s: bytes): Option<(bytes, bytes)> {
    match TakeU16(s) case None => None case Some((n, r)) => TakeBytes(r, n)
  }

  function TakeVec8(s: bytes): Option<(bytes, bytes)> {
    match TakeU8(s) case None => None case Some((n, r)) => TakeBytes(r, n)
  }

  function ParseSuites(s: bytes): (cs: seq<CipherSuite>)
    requires |s| % 4 == 0
  {
    if s == [] then []
    else [CipherSuite(Join16(s[0], s[1]), Join16(s[2], s[3]))] + ParseSuites(s[4..])
  }

  /** Config id, KEM and public key, and the bytes after them. */
  datatype KeyPart = KeyPart(configId: byte, kemId: u16, publicKey: bytes, rest: bytes)

  function ParseKeyPart(s: bytes): Option<KeyPart> {
    match TakeU8(s) case None => None case Some((id, s1)) =>
    match TakeU16(s1) case None => None case Some((kem, s2)) =>
    match TakeVec16(s2) case None => None case Some((pk, s3)) =>
    Some(KeyPart(id, kem, pk, s3))
  }

  function ParseSuitePart(s: bytes): Option<(seq<CipherSuite>, bytes)> {
    match TakeVec16(s) case None => None case Some((cs, rest)) =>
    if |cs| % 4 != 0 || cs == [] then None else Some((ParseSuites(cs), rest))
  }

  /** Maximum name length, name and extensions, and what is left over. */
  datatype NamePart = NamePart(maximumNameLength: byte, publicName: bytes, ext: bytes, tail: bytes)

  function ParseNamePart(s: bytes): Option<NamePart> {
    match TakeU8(s) case None => None case Some((m, s1)) =>
    match TakeVec8(s1) case None => None case Some((name, s2)) =>
    if !IsUtf8(name) then None else
    match TakeVec16(s2) case None => None case Some((ext, tail)) =>
    Some(NamePart(m, name, ext, tail))
  }

  /** A decoded config with the extension and trailing bytes that decoding drops. */
  datatype Parsed = Parsed(config: EchConfig, ext: bytes, tail: bytes)

  function ParseContents(s: bytes): Option<Parsed> {
    match ParseKeyPart(s) case None => None case Some(k) =>
    match ParseSuitePart(k.rest) case None => None case Some((cs, rest)) =>
    match ParseNamePart(rest) case None => None case Some(n) =>
    Some(Parsed(EchConfig(k.configId, k.kemId, k.publicKey, cs, n.maximumNameLength, n.publicName), n.ext, n.tail))
  }

  /** `decode_from`: one config off the front of `s`, and the remainder. */
  function ParseOne(s: bytes): Option<(Parsed, bytes)> {
    match TakeU16(s) case None => None case Some((version, s1)) =>
    match TakeVec16(s1) case None => None case Some((contents, rest)) =>
    if version != ECH_CONFIG_VERSION_V18 then None else
    match ParseContents(contents) case None => None case Some(p) => Some((p, rest))
  }

  /** `decode`: exactly one config and nothing after it. */
  function Decoded(s: bytes): Option<EchConfig> {
    match ParseOne(s)
    case Some((p, rest)) => if rest == [] then Some(p.config) else None
    case None => None
  }

  /** The byte cursor of the decoder. */
  class Reader {
    const buf: bytes
    var pos: nat

    ghost predicate Valid() reads this { pos <= |buf| }

    /** The bytes not yet read. */
    ghost function Rest(): bytes
      requires Valid()
      reads this
    {
      buf[pos..]
    }

    constructor (buf: bytes)
      ensures Valid() && this.buf == buf && Rest() == buf
    {
      this.buf := buf;
      pos := 0;
    }

    method IsEmpty() returns (e: bool)
      requires Valid()
      ensures e <==> Rest() == []
    {
      e := |buf| - pos == 0;
    }

    method ReadU8() returns (r: Option<byte>)
      requires Valid()
      modifies this
      ensures Valid()
      ensures match TakeU8(old(Rest()))
              case Some((v, rest)) => r == Some(v) && Rest() == rest
              case None => r == None && Rest() == old(Rest())
    {
      if |buf| - pos < 1 { return None; }
      r := Some(buf[pos]);
      pos := pos + 1;
    }

    method ReadU16() returns (r: Option<u16>)
      requires Valid()
      modifies this
      ensures Valid()
      ensures match TakeU16(old(Rest()))
              case Some((v, rest)) => r == Some(v) && Rest() == rest
              case None => r == None && Rest() == old(Rest())
    {
      if |buf| - pos < 2 { return None; }
      r := Some(Join16(buf[pos], buf[pos + 1]));
      pos := pos + 2;
    }

    method ReadSlice(n: nat) returns (r: Option<bytes>)
      requires Valid()
      modifies this
      ensures Valid()
      ensures match TakeBytes(old(Rest()), n)
              case Some((v, rest)) => r == Some(v) && Rest() == rest
              case None => r == None && Rest() == old(Rest())
    {
      if |buf| - pos < n { return None; }
      r := Some(buf[pos..pos + n]);
      assert buf[pos..][..n] == buf[pos..pos + n];
      pos := pos + n;
    }
  }

  lemma ParseSuitesStep(s: bytes)
    requires |s| % 4 == 0
    ensures s == [] ==> ParseSuites(s) == []
    ensures s != [] ==>
            |s| >= 4 && ParseSuites(s) == [CipherSuite(Join16(s[0], s[1]), Join16(s[2], s[3]))] + ParseSuites(s[4..])
  {
  }

  method ReadSuite(r: Reader) returns (c: CipherSuite)
    requires r.Valid() && |r.Rest()| >= 4
    modifies r
    ensures r.Valid() && r.Rest() == old(r.Rest())[4..]
    ensures var s := old(r.Rest()); c == CipherSuite(Join16(s[0], s[1]), Join16(s[2], s[3]))
  {
    hide Join16;
    var kdf := r.ReadU16();
    var aead := r.ReadU16();
    c := CipherSuite(kdf.value, aead.value);
  }

  /** The cipher-suite loop of the decoder. */
  method ReadSuites(bs: bytes) returns (cs: seq<CipherSuite>)
    requires |bs| % 4 == 0
    ensures cs == ParseSuites(bs)
  {
    hide Join16, ParseSuites;
    cs := [];
    var r := new Reader(bs);
    var empty := r.IsEmpty();
    while !empty
      invariant r.Valid() && fresh(r) && |r.Rest()| % 4 == 0
      invariant cs + ParseSuites(r.Rest()) == ParseSuites(bs)
      invariant empty <==> r.Rest() == []
      decreases |r.Rest()|
    {
      ParseSuitesStep(r.Rest());
      var c := ReadSuite(r);
      ghost var tail := ParseSuites(r.Rest());
      assert cs + ([c] + tail) == (cs + [c]) + tail;
      cs := cs + [c];
      empty := r.IsEmpty();
    }
    ParseSuitesStep(r.Rest());
  }

  /** The part of `decode_from` that runs inside the contents. */
  method DecodeContents(contents: bytes) returns (res: Option<EchConfig>)
    ensures res == match ParseContents(contents) case Some(p) => Some(p.config) case None => None
  {
    hide ParseKeyPart, ParseSuitePart, ParseNamePart;
    var cr := new Reader(contents);
    var configId, kemId, publicKey := DecodeKeyPart(cr);
    if publicKey.None? { return None; }
    var cipherSuites := DecodeSuitePart(cr);
    if cipherSuites.None? { return None; }
    var maximumNameLength, publicName := DecodeNamePart(cr);
    if publicName.None? { return None; }
    return Some(EchConfig(configId, kemId, publicKey.value, cipherSuites.value, maximumNameLength, publicName.value));
  }

  method DecodeSuitePart(cr: Reader) returns (cs: Option<seq<CipherSuite>>)
    requires cr.Valid()
    modifies cr
    ensures cr.Valid()
    ensures match ParseSuitePart(old(cr.Rest()))
            case Some((v, rest)) => cs == Some(v) && cr.Rest() == rest
            case None => cs == None
  {
    hide ParseSuites, Join16;
    var csLen := cr.ReadU16();
    if csLen.None? || csLen.value % 4 != 0 || csLen.value == 0 { return None; }
    var csBytes := cr.ReadSlice(csLen.value);
    if csBytes.None? { return None; }
    var v := ReadSuites(csBytes.value);
    return Some(v);
  }

  method DecodeKeyPart(cr: Reader) returns (configId: byte, kemId: u16, publicKey: Option<bytes>)
    requires cr.Valid()
    modifies cr
    ensures cr.Valid()
    ensures match ParseKeyPart(old(cr.Rest()))
            case Some(k) =>
              configId == k.configId && kemId == k.kemId && publicKey == Some(k.publicKey) && cr.Rest() == k.rest
            case None => publicKey == None
  {
    hide Join16;
    var id := cr.ReadU8();
    if id.None? { return 0, 0, None; }
    var kem := cr.ReadU16();
    if kem.None? { return 0, 0, None; }
    var pkLen := cr.ReadU16();
    if pkLen.None? { return 0, 0, None; }
    var pk := cr.ReadSlice(pkLen.value);
    if pk.None? { return 0, 0, None; }
    return id.value, kem.value, pk;
  }

  method DecodeNamePart(cr: Reader) returns (maximumNameLength: byte, publicName: Option<bytes>)
    requires cr.Valid()
    modifies cr
    ensures match ParseNamePart(old(cr.Rest()))
            case Some(n) => maximumNameLength == n.maximumNameLength && publicName == Some(n.publicName)
            case None => publicName == None
  {
    hide Join16, IsUtf8;
    maximumNameLength := 0;
    var m := cr.ReadU8();
    if m.None? { return 0, None; }
    var nameLen := cr.ReadU8();
    if nameLen.None? { return 0, None; }
    var name := cr.ReadSlice(nameLen.value);
    if name.None? || !IsUtf8(name.value) { return 0, None; }
    var extLen := cr.ReadU16();
    if extLen.None? { return 0, None; }
    var ext := cr.ReadSlice(extLen.value);
    if ext.None? { return 0, None; }
    return m.value, name;
  }

  method DecodeFrom(r: Reader) returns (res: Option<EchConfig>)
    requires r.Valid()
    modifies r
    ensures r.Valid()
    ensures match ParseOne(old(r.Rest()))
            case Some((p, rest)) => res == Some(p.config) && r.Rest() == rest
            case None => res == None
  {
    var version := r.ReadU16();
    if version.None? { return None; }
    var contentsLen := r.ReadU16();
    if contentsLen.None? { return None; }
    var contents := r.ReadSlice(contentsLen.value);
    if contents.None? || version.value != ECH_CONFIG_VERSION_V18 { return None; }
    res := DecodeContents(contents.value);
  }

  method Decode(s: bytes) returns (res: Option<EchConfig>)
    ensures res == Decoded(s)
  {
    var r := new Reader(s);
    res := DecodeFrom(r);
    if res.None? { return None; }
    var empty := r.IsEmpty();
    if !empty { return None; }
  }

  // ---------- the decoder accepts exactly the format ----------

  lemma TakeU16Law(x: u16, r: bytes)
    ensures TakeU16(U16(x) + r) == Some((x, r))
  {
    assert (U16(x) + r)[2..] == r;
  }

  lemma U16Join(hi: byte, lo: byte)
    ensures U16(Join16(hi, lo)) == [hi, lo]
  {
  }

  lemma TakeVec16Law(v: bytes, r: bytes)
    requires |v| < 0x1_0000
    ensures TakeVec16(Vec16(v) + r) == Some((v, r))
  {
    hide U16, Join16;
    assert Vec16(v) + r == U16(|v|) + (v + r);
    TakeU16Law(|v|, v + r);
    assert (v + r)[..|v|] == v && (v + r)[|v|..] == r;
  }

  lemma TakeVec8Law(v: bytes, r: bytes)
    requires |v| < 0x100
    ensures TakeVec8(Vec8(v) + r) == Some((v, r))
  {
    assert Vec8(v) + r == [|v|] + (v + r);
    assert (v + r)[..|v|] == v && (v + r)[|v|..] == r;
  }

  lemma TakeVec16Sound(s: bytes)
    requires TakeVec16(s).Some?
    ensures var (v, r) := TakeVec16(s).value; |v| < 0x1_0000 && s == Vec16(v) + r
  {
    hide U16, Join16;
    var (v, r) := TakeVec16(s).value;
    U16Join(s[0], s[1]);
    assert s == [s[0], s[1]] + s[2..] && s[2..] == v + r;
  }

  lemma TakeVec8Sound(s: bytes)
    requires TakeVec8(s).Some?
    ensures var (v, r) := TakeVec8(s).value; |v| < 0x100 && s == Vec8(v) + r
  {
    var (v, r) := TakeVec8(s).value;
    assert s == s[..1] + s[1..] && s[1..] == v + r;
  }

  lemma {:induction false} ParseSuitesInverse(cs: seq<CipherSuite>)
    ensures ParseSuites(Suites(cs)) == cs
  {
    if cs != [] {
      ParseSuitesInverse(cs[1..]);
      assert Suites(cs)[4..] == Suites(cs[1..]);
      assert cs == [cs[0]] + cs[1..];
    }
  }

  lemma {:induction false} SuitesInverse(s: bytes)
    requires |s| % 4 == 0
    ensures Suites(ParseSuites(s)) == s && 4 * |ParseSuites(s)| == |s|
  {
    hide U16, Join16;
    if s != [] {
      SuitesInverse(s[4..]);
      assert ParseSuites(s)[1..] == ParseSuites(s[4..]);
      U16Join(s[0], s[1]);
      U16Join(s[2], s[3]);
      assert s == [s[0], s[1]] + [s[2], s[3]] + s[4..];
    }
  }

  lemma NamePartComplete(c: EchConfig, ext: bytes, tail: bytes)
    requires |c.publicName| < 0x100 && IsUtf8(c.publicName) && |ext| < 0x1_0000
    ensures ParseNamePart(NameAndAfter(c, ext, tail)) == Some(NamePart(c.maximumNameLength, c.publicName, ext, tail))
  {
    hide U16, Join16, IsUtf8, TakeVec16, Vec16, TakeVec8, Vec8;
    TakeVec8Law(c.publicName, Vec16(ext) + tail);
    TakeVec16Law(ext, tail);
    assert NameAndAfter(c, ext, tail)[1..] == Vec8(c.publicName) + (Vec16(ext) + tail);
  }

  lemma NamePartSound(s: bytes, c: EchConfig)
    requires ParseNamePart(s).Some?
    requires c.maximumNameLength == ParseNamePart(s).value.maximumNameLength
    requires c.publicName == ParseNamePart(s).value.publicName
    ensures var n := ParseNamePart(s).value;
            && s == NameAndAfter(c, n.ext, n.tail)
            && |c.publicName| < 0x100 && IsUtf8(c.publicName) && |n.ext| < 0x1_0000
  {
    hide U16, Join16, IsUtf8, Vec16, Vec8, TakeVec16, TakeVec8;
    TakeVec8Sound(s[1..]);
    TakeVec16Sound(TakeVec8(s[1..]).value.1);
    assert s == [s[0]] + s[1..];
  }

  lemma SuitePartComplete(cs: seq<CipherSuite>, rest: bytes)
    requires cs != [] && 4 * |cs| < 0x1_0000
    ensures ParseSuitePart(Vec16(Suites(cs)) + rest) == Some((cs, rest))
  {
    hide U16, Join16, Suites, ParseSuites, TakeVec16, Vec16;
    TakeVec16Law(Suites(cs), rest);
    ParseSuitesInverse(cs);
  }

  lemma SuitePartSound(s: bytes)
    requires ParseSuitePart(s).Some?
    ensures var (cs, rest) := ParseSuitePart(s).value;
            cs != [] && 4 * |cs| < 0x1_0000 && s == Vec16(Suites(cs)) + rest
  {
    hide U16, Join16, Suites, ParseSuites, TakeVec16, Vec16;
    TakeVec16Sound(s);
    SuitesInverse(TakeVec16(s).value.0);
  }

  lemma KeyPartComplete(id: byte, kem: u16, pk: bytes, rest: bytes)
    requires |pk| < 0x1_0000
    ensures ParseKeyPart([id] + (U16(kem) + (Vec16(pk) + rest))) == Some(KeyPart(id, kem, pk, rest))
  {
    hide U16, Join16, TakeVec16, Vec16;
    var s1 := U16(kem) + (Vec16(pk) + rest);
    assert ([id] + s1)[1..] == s1;
    TakeU16Law(kem, Vec16(pk) + rest);
    TakeVec16Law(pk, rest);
  }

  lemma KeyPartSound(s: bytes)
    requires ParseKeyPart(s).Some?
    ensures var k := ParseKeyPart(s).value;
            |k.publicKey| < 0x1_0000 && s == [k.configId] + (U16(k.kemId) + (Vec16(k.publicKey) + k.rest))
  {
    hide U16, Join16, TakeVec16, Vec16;
    var s2 := s[1..][2..];
    TakeVec16Sound(s2);
    U16Join(s[1], s[2]);
    assert s[1..] == [s[1], s[2]] + s2;
    assert s == [s[0]] + s[1..];
  }

  lemma ContentsComplete(c: EchConfig, ext: bytes, tail: bytes)
    requires Fits(c, ext, tail)
    ensures ParseContents(Contents(c, ext, tail)) == Some(Parsed(c, ext, tail))
  {
    hide U16, Suites, Vec16, NameAndAfter, ParseKeyPart, ParseSuitePart, ParseNamePart, IsUtf8;
    KeyPartComplete(c.configId, c.kemId, c.publicKey, SuitesAndAfter(c, ext, tail));
    SuitePartComplete(c.cipherSuites, NameAndAfter(c, ext, tail));
    NamePartComplete(c, ext, tail);
  }

  lemma ContentsSound(s: bytes)
    requires ParseContents(s).Some? && |s| < 0x1_0000
    ensures var p := ParseContents(s).value; s == Contents(p.config, p.ext, p.tail) && Fits(p.config, p.ext, p.tail)
  {
    hide U16, Suites, Vec16, Vec8, ParseKeyPart, ParseSuitePart, ParseNamePart, IsUtf8;
    var p := ParseContents(s).value;
    var k := ParseKeyPart(s).value;
    var (cs, rest) := ParseSuitePart(k.rest).value;
    KeyPartSound(s);
    SuitePartSound(k.rest);
    NamePartSound(rest, p.config);
    ContentsLength(p.config, p.ext, p.tail);
  }

  /**
   * The decoder's language: a config, its dropped bytes and a remainder come out of `s` if and
   * only if `s` lays them out within the format's limits.
   */
  lemma ParseOneExact(s: bytes, c: EchConfig, ext: bytes, tail: bytes, rest: bytes)
    ensures ParseOne(s) == Some((Parsed(c, ext, tail), rest)) <==>
            Fits(c, ext, tail) && s == Layout(c, ext, tail) + rest
  {
    hide ParseOne, Layout, Fits;
    if Fits(c, ext, tail) && s == Layout(c, ext, tail) + rest {
      ParseOneComplete(c, ext, tail, rest);
    }
    if ParseOne(s).Some? {
      ParseOneSound(s);
    }
  }

  lemma ParseOneComplete(c: EchConfig, ext: bytes, tail: bytes, rest: bytes)
    requires Fits(c, ext, tail)
    ensures ParseOne(Layout(c, ext, tail) + rest) == Some((Parsed(c, ext, tail), rest))
  {
    hide U16, Join16, TakeVec16, Contents, ParseContents, IsUtf8;
    var contents := Contents(c, ext, tail);
    assert Layout(c, ext, tail) + rest == U16(ECH_CONFIG_VERSION_V18) + (Vec16(contents) + rest);
    TakeU16Law(ECH_CONFIG_VERSION_V18, Vec16(contents) + rest);
    TakeVec16Law(contents, rest);
    ContentsComplete(c, ext, tail);
  }

  lemma ParseOneSound(s: bytes)
    requires ParseOne(s).Some?
    ensures var (p, rest) := ParseOne(s).value;
            Fits(p.config, p.ext, p.tail) && s == Layout(p.config, p.ext, p.tail) + rest
  {
    hide U16, Join16, Vec16, TakeVec16, Contents, ParseContents, IsUtf8;
    TakeVec16Sound(s[2..]);
    var (contents, rest) := TakeVec16(s[2..]).value;
    ContentsSound(contents);
    U16Join(s[0], s[1]);
    assert s == [s[0], s[1]] + (Vec16(contents) + rest);
  }

  /**
   * Round trip with remainder: decoding an encoded config followed by anything gives the config
   * back and leaves the rest, exactly when it has a cipher suite and a UTF-8 name.
   */
  lemma RoundTrip(c: EchConfig, rest: bytes)
    requires Encodable(c)
    ensures ParseOne(Encoded(c).value + rest) == Some((Parsed(c, [], []), rest))
            <==> c.cipherSuites != [] && IsUtf8(c.publicName)
  {
    hide ParseOne, Layout, Contents, IsUtf8;
    ParseOneExact(Layout(c, [], []) + rest, c, [], [], rest);
  }

  lemma DecodedOfEncoded(c: EchConfig)
    requires Fits(c, [], [])
    ensures Decoded(Encoded(c).value) == Some(c)
  {
    hide ParseOne, Layout, Contents, IsUtf8;
    ParseOneComplete(c, [], [], []);
    assert Layout(c, [], []) + [] == Layout(c, [], []);
  }

  /** A config without suites encodes but is refused when read back. */
  lemma EmptySuitesLost(rest: bytes)
    ensures var c := EchConfig(0, 0, [], [], 0, []); Encodable(c) && ParseOne(Encoded(c).value + rest) == None
  {
    var c := EchConfig(0, 0, [], [], 0, []);
    var s := Encoded(c).value + rest;
    var contents := Contents(c, [], []);
    assert s == U16(ECH_CONFIG_VERSION_V18) + (Vec16(contents) + rest);
    TakeU16Law(ECH_CONFIG_VERSION_V18, Vec16(contents) + rest);
    TakeVec16Law(contents, rest);
    assert contents == [0, 0, 0, 0, 0, 0, 0, 0, 0, 0, 0];
  }

  /**
   * Normalisation: whatever `decode` accepts re-encodes without a panic, to no more bytes, and
   * decodes to the same config; the bytes are unchanged exactly when nothing was dropped.
   */
  lemma Normalises(s: bytes)
    requires Decoded(s).Some?
    ensures var c := Decoded(s).value;
            var p := ParseOne(s).value.0;
            && Encoded(c).Some?
            && |Encoded(c).value| == |s| - |p.ext| - |p.tail|
            && Decoded(Encoded(c).value) == Some(c)
            && (Encoded(c).value == s <==> p.ext == [] && p.tail == [])
  {
    hide ParseOne, Layout, Contents, IsUtf8;
    var (p, rest) := ParseOne(s).value;
    var e := Layout(p.config, [], []);
    ParseOneSound(s);
    ContentsLength(p.config, p.ext, p.tail);
    ContentsLength(p.config, [], []);
    assert Layout(p.config, p.ext, p.tail) + [] == s && e + [] == e;
    ParseOneComplete(p.config, [], [], []);
  }

  // ---------- lists ----------

  /** The concatenated encodings of `cs`, `None` if one of them panics. */
  function Body(cs: seq<EchConfig>): Option<bytes> {
    if cs == [] then Some([])
    else match Encoded(cs[0])
      case Some(a) => Prefixed(a, Body(cs[1..]))
      case None => None
  }

  /** `encode_list`: the body behind its own length; a body over 65535 bytes panics. */
  method EncodeList(cs: seq<EchConfig>) returns (out: Option<bytes>)
    ensures out == match Body(cs)
                   case Some(b) => (if |b| < 0x1_0000 then Some(Vec16(b)) else None)
                   case None => None
  {
    hide Encoded;
    var body: bytes := [];
    var i := 0;
    assert cs[0..] == cs;
    PrefixedTwice<byte>([], [], Body(cs));
    while i < |cs|
      invariant 0 <= i <= |cs|
      invariant Prefixed(body, Body(cs[i..])) == Body(cs)
    {
      assert cs[i..][1..] == cs[i + 1..];
      var e := Encode(cs[i]);
      if e.None? { return None; }
      PrefixedTwice(body, e.value, Body(cs[i + 1..]));
      body := body + e.value;
      i := i + 1;
    }
    assert cs[i..] == [] && body + [] == body;
    if |body| >= 0x1_0000 { return None; }
    out := Some(U16(|body|) + body);
  }

  /** Decode configs until the bytes run out. */
  function DecodeAll(s: bytes): Option<seq<EchConfig>>
    decreases |s|
  {
    if s == [] then Some([])
    else match ParseOne(s)
      case None => None
      case Some((p, rest)) =>
        if |rest| >= |s| then None
        else match DecodeAll(rest)
          case None => None
          case Some(cs) => Some([p.config] + cs)
  }

  lemma {:induction false} BodyDecodes(cs: seq<EchConfig>)
    requires forall c :: c in cs ==> Fits(c, [], [])
    ensures Body(cs).Some? && DecodeAll(Body(cs).value) == Some(cs)
  {
    hide ParseOne, Layout, Contents, IsUtf8;
    if cs != [] {
      BodyDecodes(cs[1..]);
      assert Fits(cs[0], [], []);
      ParseOneComplete(cs[0], [], [], Body(cs[1..]).value);
      ContentsLength(cs[0], [], []);
      assert cs == [cs[0]] + cs[1..];
    }
  }

  /** A decoded config can be decoded again. */
  lemma ParsedFits(s: bytes)
    requires ParseOne(s).Some?
    ensures Fits(ParseOne(s).value.0.config, [], [])
  {
    hide ParseOne, Layout, Contents, IsUtf8;
    ParseOneSound(s);
  }

  lemma {:induction false} DecodedAllFit(s: bytes)
    requires DecodeAll(s).Some?
    ensures forall c :: c in DecodeAll(s).value ==> Fits(c, [], [])
    decreases |s|
  {
    hide ParseOne, Fits;
    if s != [] {
      ParsedFits(s);
      DecodedAllFit(ParseOne(s).value.1);
    }
  }

  /**
   * Decoding the body of an encoded list until it is used up returns the list, exactly when every
   * config in it has a cipher suite and a UTF-8 name.
   */
  lemma ListRoundTrip(cs: seq<EchConfig>)
    requires forall c :: c in cs ==> Encodable(c)
    ensures Body(cs).Some?
    ensures DecodeAll(Body(cs).value) == Some(cs) <==>
            forall c :: c in cs ==> c.cipherSuites != [] && IsUtf8(c.publicName)
    ensures |Body(cs).value| < 0x1_0000 ==> TakeVec16(Vec16(Body(cs).value)) == Some((Body(cs).value, []))
  {
    hide DecodeAll, Contents, IsUtf8, Vec16, TakeVec16;
    BodyEncodes(cs);
    var body := Body(cs).value;
    if DecodeAll(body) == Some(cs) {
      DecodedAllFit(body);
    }
    if forall c :: c in cs ==> c.cipherSuites != [] && IsUtf8(c.publicName) {
      assert forall c :: c in cs ==> Fits(c, [], []);
      BodyDecodes(cs);
    }
    if |body| < 0x1_0000 {
      TakeVec16Law(body, []);
      assert Vec16(body) + [] == Vec16(body);
    }
  }

  lemma {:induction false} BodyEncodes(cs: seq<EchConfig>)
    requires forall c :: c in cs ==> Encodable(c)
    ensures Body(cs).Some?
  {
    hide Layout, Contents;
    if cs != [] {
      assert Encodable(cs[0]);
      BodyEncodes(cs[1..]);
    }
  }
}
