/** PEM bundles of ECH key pairs. */
module Pem {
  import opened Common
  import opened Text
  import Base64
  import EchConfig

  const PEM_LABEL_KEY := "ECH PRIVATE KEY"
  const PEM_LABEL_CONFIG := "ECH CONFIG"
  const WIDTH: nat := 64

  datatype EchKeyPair = EchKeyPair(privateKey: bytes, config: EchConfig.EchConfig)

  datatype PemBlock = PemBlock(tag: string, body: bytes)

  function BeginMarker(tag: string): string { "-----BEGIN " + tag + "-----" }

  function EndMarker(tag: string): string { "-----END " + tag + "-----" }

  // ---------- writing ----------

  /** Base64 text cut into lines of 64 characters, the last one possibly shorter. */
  function Wrapped(s: string): string
    decreases |s|
  {
    if s == "" then ""
    else if |s| <= WIDTH then s + "\n"
    else s[..WIDTH] + "\n" + Wrapped(s[WIDTH..])
  }

  function BlockText(tag: string, body: bytes): string {
    BeginMarker(tag) + "\n" + (Wrapped(Base64.Encode(body)) + (EndMarker(tag) + "\n"))
  }

  method WritePemBlock(out0: string, tag: string, body: bytes) returns (out: string)
    ensures out == out0 + BlockText(tag, body)
  {
    var encoded := Base64.Encode(body);
    out := out0 + "-----BEGIN ";
    out := out + tag;
    out := out + "-----\n";
    ghost var head := out;
    out := AppendWrapped(out, encoded);
    ghost var middle := out;
    out := out + "-----END ";
    out := out + tag;
    out := out + "-----\n";
    assert head == out0 + (BeginMarker(tag) + "\n");
    assert out == middle + (EndMarker(tag) + "\n");
  }

  /** The `chunks(64)` loop. */
  method AppendWrapped(out0: string, encoded: string) returns (out: string)
    ensures out == out0 + Wrapped(encoded)
  {
    out := out0;
    var i := 0;
    assert encoded[0..] == encoded;
    while i < |encoded|
      invariant 0 <= i <= |encoded|
      invariant out + Wrapped(encoded[i..]) == out0 + Wrapped(encoded)
    {
      var j := if i + WIDTH < |encoded| then i + WIDTH else |encoded|;
      var chunk := encoded[i..j];
      WrappedStep(encoded[i..]);
      assert encoded[i..][|chunk|..] == encoded[j..] && encoded[i..][..|chunk|] == chunk;
      ghost var rest := Wrapped(encoded[j..]);
      assert out + (chunk + "\n" + rest) == (out + chunk + "\n") + rest;
      out := out + chunk;
      out := out + "\n";
      i := j;
    }
    assert encoded[i..] == "" && out + "" == out;
  }

  /** One line of wrapped text and the rest. */
  lemma WrappedStep(s: string)
    ensures s != "" ==>
              var n := if |s| <= WIDTH then |s| else WIDTH;
              Wrapped(s) == s[..n] + "\n" + Wrapped(s[n..])
  {
    if s != "" && |s| <= WIDTH {
      assert s[|s|..] == "" && s[..|s|] == s;
      assert s + "\n" + "" == s + "\n";
    }
  }

  function Joined(lines: seq<string>): string {
    if lines == [] then "" else lines[0] + Joined(lines[1..])
  }

  /** Wrapped text is the text itself in lines of 64 characters, the last one possibly shorter. */
  lemma {:induction false} WrappedLines(s: string)
    requires '\n' !in s && '\r' !in s
    ensures var ls := Lines(Wrapped(s));
            && Joined(ls) == s
            && (forall i :: 0 <= i < |ls| - 1 ==> |ls[i]| == WIDTH)
            && (ls != [] ==> 0 < |ls[|ls| - 1]| <= WIDTH)
    decreases |s|
  {
    hide Lines, Wrapped;
    if s == "" {
      WrappedNil();
      LinesCons("", "");
    } else {
      var n := if |s| <= WIDTH then |s| else WIDTH;
      WrappedStep(s);
      WrappedLines(s[n..]);
      LinesCons(s[..n], Wrapped(s[n..]));
      var rest := Lines(Wrapped(s[n..]));
      assert StripCr(s[..n]) == s[..n];
      assert ([s[..n]] + rest)[1..] == rest;
      assert s == s[..n] + s[n..];
      if |s| <= WIDTH {
        assert s[n..] == "";
        WrappedNil();
        LinesCons("", "");
      }
    }
  }

  /** A pair whose config panics in the encoder has no text. */
  function PairText(p: EchKeyPair): Option<string> {
    match EchConfig.Encoded(p.config)
    case None => None
    case Some(c) => Some(BlockText(PEM_LABEL_KEY, p.privateKey) + BlockText(PEM_LABEL_CONFIG, c))
  }

  method EncodePairPem(p: EchKeyPair) returns (out: Option<string>)
    ensures out == PairText(p)
  {
    hide BlockText, EchConfig.Encoded;
    var s := WritePemBlock("", PEM_LABEL_KEY, p.privateKey);
    assert s == BlockText(PEM_LABEL_KEY, p.privateKey);
    var c := EchConfig.Encode(p.config);
    if c.None? { return None; }
    s := WritePemBlock(s, PEM_LABEL_CONFIG, c.value);
    out := Some(s);
  }

  // ---------- reading ----------

  function BeginLabel(t: string): Option<string> {
    match StripPrefix(t, "-----BEGIN ")
    case None => None
    case Some(rest) => StripSuffix(rest, "-----")
  }

  /** The trimmed lines up to the end marker, joined, and the lines after it. */
  function ReadBody(lines: seq<string>, marker: string): (r: Option<(string, seq<string>)>)
    ensures r.Some? ==> |r.value.1| < |lines|
  {
    if lines == [] then None
    else
      var t := Trim(lines[0]);
      if t == marker then Some(("", lines[1..]))
      else Glued(t, ReadBody(lines[1..], marker))
  }

  function ParseBlocks(lines: seq<string>): Option<seq<PemBlock>>
    decreases |lines|
  {
    if lines == [] then Some([])
    else
      var t := Trim(lines[0]);
      if t == "" then ParseBlocks(lines[1..])
      else match BeginLabel(t)
        case None => None
        case Some(tag) => ParseBlockTail(tag, lines[1..])
  }

  function ParseBlockTail(tag: string, lines: seq<string>): Option<seq<PemBlock>>
    decreases |lines|, 0
  {
    match ReadBody(lines, EndMarker(tag))
    case None => None
    case Some((b64, rest)) =>
      match Base64.Decode(b64)
      case Some(body) => Prefixed([PemBlock(tag, body)], ParseBlocks(rest))
      case None => None
  }

  function ParsePairs(blocks: seq<PemBlock>): Option<seq<EchKeyPair>> {
    if blocks == [] then Some([])
    else if blocks[0].tag != PEM_LABEL_KEY || |blocks| < 2 || blocks[1].tag != PEM_LABEL_CONFIG then None
    else match EchConfig.Decoded(blocks[1].body)
      case Some(c) => Prefixed([EchKeyPair(blocks[0].body, c)], ParsePairs(blocks[2..]))
      case None => None
  }

  function ParsedBundle(text: string): Option<seq<EchKeyPair>> {
    match ParseBlocks(Lines(text))
    case None => None
    case Some(blocks) => ParsePairs(blocks)
  }

  /** A body with more text in front of it. */
  function Glued(front: string, r: Option<(string, seq<string>)>): Option<(string, seq<string>)> {
    match r case Some((b, rest)) => Some((front + b, rest)) case None => None
  }

  lemma GluedTwice(a: string, b: string, r: Option<(string, seq<string>)>)
    ensures Glued(a, Glued(b, r)) == Glued(a + b, r)
    ensures Glued("", r) == r
  {
    if r.Some? {
      assert a + (b + r.value.0) == (a + b) + r.value.0;
      assert "" + r.value.0 == r.value.0;
    }
  }

  /** The inner loop: from line `i`, collect base64 until the end marker. */
  method ReadBase64(lines: seq<string>, i0: nat, marker: string) returns (sawEnd: bool, b64: string, i: nat)
    requires i0 <= |lines|
    ensures i0 <= i <= |lines|
    ensures match ReadBody(lines[i0..], marker)
            case Some((b, rest)) => sawEnd && b64 == b && lines[i..] == rest && i > i0
            case None => !sawEnd
  {
    hide Trim;
    b64, sawEnd, i := "", false, i0;
    GluedTwice("", "", ReadBody(lines[i0..], marker));
    while i < |lines| && !sawEnd
      invariant i0 <= i <= |lines|
      invariant sawEnd ==> ReadBody(lines[i0..], marker) == Some((b64, lines[i..])) && i > i0
      invariant !sawEnd ==> ReadBody(lines[i0..], marker) == Glued(b64, ReadBody(lines[i..], marker))
      decreases |lines| - i, !sawEnd
    {
      var t := Trim(lines[i]);
      assert lines[i..][1..] == lines[i + 1..];
      i := i + 1;
      GluedTwice(b64, t, ReadBody(lines[i..], marker));
      if t == marker {
        sawEnd := true;
        assert b64 + "" == b64;
      } else if t != "" {
        b64 := b64 + t;
      } else {
        assert b64 + t == b64;
      }
    }
  }

  method ParsePemBlocks(text: string) returns (r: Option<seq<PemBlock>>)
    ensures r == ParseBlocks(Lines(text))
  {
    hide Trim, Lines, BeginLabel, EndMarker, Base64.Decode, ReadBody;
    var lines := Lines(text);
    var out: seq<PemBlock> := [];
    var i := 0;
    assert lines[0..] == lines;
    PrefixedTwice(out, out, ParseBlocks(lines));
    while i < |lines|
      invariant 0 <= i <= |lines|
      invariant ParseBlocks(lines) == Prefixed(out, ParseBlocks(lines[i..]))
    {
      var trimmed := Trim(lines[i]);
      assert lines[i..][1..] == lines[i + 1..];
      i := i + 1;
      if trimmed != "" {
        var tag := BeginLabel(trimmed);
        if tag.None? { return None; }
        var sawEnd, b64, j := ReadBase64(lines, i, EndMarker(tag.value));
        if !sawEnd { return None; }
        var body := Base64.Decode(b64);
        if body.None? { return None; }
        PrefixedTwice(out, [PemBlock(tag.value, body.value)], ParseBlocks(lines[j..]));
        out := out + [PemBlock(tag.value, body.value)];
        i := j;
      }
    }
    assert lines[i..] == [];
    assert out + [] == out;
    r := Some(out);
  }

  method ParsePemBundle(text: string) returns (r: Option<seq<EchKeyPair>>)
    ensures r == ParsedBundle(text)
  {
    var parsed := ParsePemBlocks(text);
    if parsed.None? { return None; }
    hide EchConfig.Decoded, ParseBlocks, Lines;
    var blocks := parsed.value;
    var out: seq<EchKeyPair> := [];
    var i := 0;
    assert blocks[0..] == blocks;
    PrefixedTwice(out, out, ParsePairs(blocks));
    while i < |blocks|
      invariant 0 <= i <= |blocks|
      invariant ParsePairs(blocks) == Prefixed(out, ParsePairs(blocks[i..]))
    {
      if blocks[i].tag != PEM_LABEL_KEY { return None; }
      if i + 1 == |blocks| || blocks[i + 1].tag != PEM_LABEL_CONFIG { return None; }
      var config := EchConfig.Decode(blocks[i + 1].body);
      if config.None? { return None; }
      var pair := EchKeyPair(blocks[i].body, config.value);
      assert blocks[i..][2..] == blocks[i + 2..];
      PrefixedTwice(out, [pair], ParsePairs(blocks[i + 2..]));
      out := out + [pair];
      i := i + 2;
    }
    assert blocks[i..] == [];
    assert out + [] == out;
    r := Some(out);
  }

  // ---------- what is accepted ----------

  lemma BeginLabelExact(t: string, tag: string)
    ensures BeginLabel(t) == Some(tag) <==> t == BeginMarker(tag)
  {
    var p, e := "-----BEGIN ", "-----";
    if t == BeginMarker(tag) {
      assert p <= t && t[|p|..] == tag + e;
      assert (tag + e)[|tag|..] == e && (tag + e)[..|tag|] == tag;
    }
    if BeginLabel(t) == Some(tag) {
      assert t == p + (tag + e);
    }
  }

  function TrimAll(lines: seq<string>): (r: seq<string>)
    ensures |r| == |lines| && forall i :: 0 <= i < |lines| ==> r[i] == Trim(lines[i])
  {
    seq(|lines|, i requires 0 <= i < |lines| => Trim(lines[i]))
  }

  /** Line `j` is the first end marker, and the trimmed lines before it make up `b64`. */
  ghost predicate BodyTo(lines: seq<string>, j: nat, marker: string, b64: string) {
    && j < |lines| && Trim(lines[j]) == marker && (forall k :: 0 <= k < j ==> Trim(lines[k]) != marker)
    && b64 == Joined(TrimAll(lines[..j]))
  }

  lemma {:induction false} ReadBodySound(lines: seq<string>, marker: string) returns (j: nat)
    requires ReadBody(lines, marker).Some?
    ensures j < |lines| && BodyTo(lines, j, marker, ReadBody(lines, marker).value.0)
    ensures ReadBody(lines, marker).value.1 == lines[j + 1..]
  {
    hide Trim;
    if Trim(lines[0]) == marker {
      j := 0;
    } else {
      j := ReadBodySound(lines[1..], marker);
      BodyStep(lines, j);
      assert lines[1..][j + 1..] == lines[j + 2..];
      assert forall k :: 0 < k < j + 1 ==> lines[k] == lines[1..][k - 1];
      j := j + 1;
    }
  }

  lemma BodyStep(lines: seq<string>, j: nat)
    requires j + 1 < |lines|
    ensures Joined(TrimAll(lines[..j + 1])) == Trim(lines[0]) + Joined(TrimAll(lines[1..][..j]))
  {
    hide Trim;
    assert TrimAll(lines[..j + 1])[1..] == TrimAll(lines[1..][..j]);
  }

  lemma {:induction false} ReadBodyComplete(lines: seq<string>, j: nat, marker: string, b64: string)
    requires BodyTo(lines, j, marker, b64)
    ensures ReadBody(lines, marker) == Some((b64, lines[j + 1..]))
  {
    hide Trim;
    if j > 0 {
      BodyStep(lines, j - 1);
      assert forall k :: 0 <= k < j ==> lines[1..][k] == lines[k + 1];
      ReadBodyComplete(lines[1..], j - 1, marker, Joined(TrimAll(lines[1..][..j - 1])));
      assert lines[1..][j..] == lines[j + 1..];
    }
  }

  /** Block `b` stands on lines `i` to `j`, behind blank lines only. */
  ghost predicate BlockAt(lines: seq<string>, i: nat, j: nat, b: PemBlock) {
    && i < j < |lines| && (forall k :: 0 <= k < i ==> Trim(lines[k]) == "")
    && Trim(lines[i]) == BeginMarker(b.tag)
    && BodyTo(lines[i + 1..], j - i - 1, EndMarker(b.tag), Base64.Encode(b.body))
  }

  /** The lines are these blocks in order, with blank lines before, between and after them, and nothing else. */
  ghost predicate Laid(lines: seq<string>, blocks: seq<PemBlock>)
    decreases |blocks|
  {
    if blocks == [] then forall k :: 0 <= k < |lines| ==> Trim(lines[k]) == ""
    else exists i: nat, j: nat :: BlockAt(lines, i, j, blocks[0]) && Laid(lines[j + 1..], blocks[1..])
  }

  lemma {:induction false} BlocksSound(lines: seq<string>)
    requires ParseBlocks(lines).Some?
    ensures Laid(lines, ParseBlocks(lines).value)
    decreases |lines|
  {
    hide Trim, BeginLabel, BeginMarker, EndMarker, BodyTo, ReadBody, Base64.Decode, Base64.Encode;
    if lines != [] {
      var t := Trim(lines[0]);
      if t == "" {
        BlocksSound(lines[1..]);
        LaidBehindBlank(lines, ParseBlocks(lines).value);
      } else {
        var tag := BeginLabel(t).value;
        BeginLabelExact(t, tag);
        var (b64, rest) := ReadBody(lines[1..], EndMarker(tag)).value;
        var j := ReadBodySound(lines[1..], EndMarker(tag));
        var body := Base64.Decode(b64).value;
        Base64.DecodeExact(b64, body);
        BlocksSound(rest);
        var blocks := ParseBlocks(lines).value;
        assert blocks[1..] == ParseBlocks(rest).value && lines[1..][j + 1..] == lines[j + 2..];
        assert BlockAt(lines, 0, j + 1, blocks[0]);
      }
    }
  }

  lemma LaidBehindBlank(lines: seq<string>, blocks: seq<PemBlock>)
    requires lines != [] && Trim(lines[0]) == "" && Laid(lines[1..], blocks)
    ensures Laid(lines, blocks)
  {
    hide Trim, BeginMarker, EndMarker, BodyTo, Base64.Encode;
    if blocks == [] {
      assert forall k :: 0 < k < |lines| ==> lines[k] == lines[1..][k - 1];
    } else {
      var i: nat, j: nat :| BlockAt(lines[1..], i, j, blocks[0]) && Laid(lines[1..][j + 1..], blocks[1..]);
      BlockBehindBlank(lines, i, j, blocks[0]);
      assert lines[1..][j + 1..] == lines[j + 2..];
    }
  }

  lemma BlockBehindBlank(lines: seq<string>, i: nat, j: nat, b: PemBlock)
    requires lines != [] && Trim(lines[0]) == "" && BlockAt(lines[1..], i, j, b)
    ensures BlockAt(lines, i + 1, j + 1, b)
  {
    hide Trim, BeginMarker, EndMarker, BodyTo, Base64.Encode;
    assert lines[1..][i + 1..] == lines[i + 2..];
    assert forall k :: 0 < k < |lines| ==> lines[k] == lines[1..][k - 1];
  }

  lemma {:induction false} SkipBlankLines(lines: seq<string>, i: nat)
    requires i <= |lines| && forall k :: 0 <= k < i ==> Trim(lines[k]) == ""
    ensures ParseBlocks(lines) == ParseBlocks(lines[i..])
  {
    hide Trim, BeginLabel, ParseBlockTail;
    if i == 0 {
      assert lines[0..] == lines;
    } else {
      assert forall k :: 0 <= k < i - 1 ==> lines[1..][k] == lines[k + 1];
      SkipBlankLines(lines[1..], i - 1);
      assert lines[1..][i - 1..] == lines[i..];
    }
  }

  lemma BlockParses(lines: seq<string>, i: nat, j: nat, b: PemBlock)
    requires BlockAt(lines, i, j, b)
    ensures ParseBlocks(lines) == Prefixed([b], ParseBlocks(lines[j + 1..]))
  {
    hide Trim, BeginLabel, EndMarker, BodyTo, ReadBody, Base64.Decode, Base64.Encode;
    SkipBlankLines(lines, i);
    BeginLabelExact(Trim(lines[i]), b.tag);
    assert lines[i..][0] == lines[i] && lines[i..][1..] == lines[i + 1..];
    ReadBodyComplete(lines[i + 1..], j - i - 1, EndMarker(b.tag), Base64.Encode(b.body));
    assert lines[i + 1..][j - i..] == lines[j + 1..];
    Base64.RoundTrip(b.body);
  }

  lemma {:induction false} BlocksComplete(lines: seq<string>, blocks: seq<PemBlock>)
    requires Laid(lines, blocks)
    ensures ParseBlocks(lines) == Some(blocks)
    decreases |blocks|
  {
    hide Trim, BeginMarker, EndMarker, BodyTo, ParseBlockTail, BeginLabel;
    if blocks == [] {
      SkipBlankLines(lines, |lines|);
    } else {
      var i: nat, j: nat :| BlockAt(lines, i, j, blocks[0]) && Laid(lines[j + 1..], blocks[1..]);
      BlockParses(lines, i, j, blocks[0]);
      BlocksComplete(lines[j + 1..], blocks[1..]);
      assert blocks == [blocks[0]] + blocks[1..];
    }
  }

  /** The parser accepts exactly the laid-out lines. */
  lemma BlocksExact(lines: seq<string>, blocks: seq<PemBlock>)
    ensures ParseBlocks(lines) == Some(blocks) <==> Laid(lines, blocks)
  {
    hide ParseBlocks, Laid;
    if Laid(lines, blocks) {
      BlocksComplete(lines, blocks);
    }
    if ParseBlocks(lines).Some? {
      BlocksSound(lines);
    }
  }

  /** The blocks at `2 * i` and the next are the key and the config of pair `p`. */
  ghost predicate PairAt(blocks: seq<PemBlock>, i: nat, p: EchKeyPair) {
    && 2 * i + 1 < |blocks|
    && blocks[2 * i] == PemBlock(PEM_LABEL_KEY, p.privateKey) && blocks[2 * i + 1].tag == PEM_LABEL_CONFIG
    && EchConfig.Decoded(blocks[2 * i + 1].body) == Some(p.config)
  }

  /** A bundle is a key and a config block for each pair, in order, and no block more. */
  lemma {:induction false} PairsExact(blocks: seq<PemBlock>, ps: seq<EchKeyPair>)
    ensures ParsePairs(blocks) == Some(ps) <==>
            |blocks| == 2 * |ps| && forall i :: 0 <= i < |ps| ==> PairAt(blocks, i, ps[i])
    decreases |blocks|
  {
    hide EchConfig.Decoded;
    if blocks != [] && ps != [] && |blocks| >= 2 {
      PairsExact(blocks[2..], ps[1..]);
      forall i: nat | i < |ps| - 1 ensures PairAt(blocks[2..], i, ps[1..][i]) <==> PairAt(blocks, i + 1, ps[i + 1]) {}
      if |blocks| == 2 * |ps| && forall i :: 0 <= i < |ps| ==> PairAt(blocks, i, ps[i]) {
        assert PairAt(blocks, 0, ps[0]);
        assert ps == [ps[0]] + ps[1..];
      }
      if ParsePairs(blocks) == Some(ps) {
        forall i: nat | i < |ps| ensures PairAt(blocks, i, ps[i]) {
          if i > 0 { assert PairAt(blocks[2..], i - 1, ps[1..][i - 1]); }
        }
      }
    }
  }

  // ---------- round trip ----------

  /** A line that trims to itself is read back as written. */
  lemma PlainLine(line: string, rest: string)
    requires Trimmed(line) && '\n' !in line
    ensures Lines(line + "\n" + rest) == [line] + Lines(rest) && Trim(line) == line
  {
    LinesCons(line, rest);
    TrimLeading("", line);
    assert "" + line == line;
  }

  lemma EncodedLine(s: string)
    requires s != "" && forall c :: c in s ==> Base64.Alphabet(c)
    ensures Trimmed(s) && '\n' !in s && '-' !in s
  {
    assert s[0] in s && s[|s| - 1] in s;
  }

  /** Wrapped base64 before an end marker is collected unbroken. */
  lemma {:induction false} ReadBodyOfWrapped(s: string, marker: string, rest: string)
    requires forall c :: c in s ==> Base64.Alphabet(c)
    requires Trimmed(marker) && '\n' !in marker && '-' in marker
    ensures ReadBody(Lines(Wrapped(s) + (marker + "\n" + rest)), marker) == Some((s, Lines(rest)))
    decreases |s|
  {
    hide Base64.Alphabet, Trimmed, Trim, Lines, Wrapped;
    var after := marker + "\n" + rest;
    if s == "" {
      WrappedNil();
      assert Wrapped(s) + after == after;
      PlainLine(marker, rest);
      assert ([marker] + Lines(rest))[1..] == Lines(rest);
    } else {
      var n := if |s| <= WIDTH then |s| else WIDTH;
      var chunk, more := s[..n], s[n..];
      WrappedStep(s);
      ReadBodyOfWrapped(more, marker, rest);
      EncodedLine(chunk);
      assert Wrapped(s) + after == chunk + "\n" + (Wrapped(more) + after);
      PlainLine(chunk, Wrapped(more) + after);
      assert ([chunk] + Lines(Wrapped(more) + after))[1..] == Lines(Wrapped(more) + after);
      assert s == chunk + more;
    }
  }

  lemma WrappedNil() ensures Wrapped("") == "" {}

  /** The labels the program writes stand on lines of their own. */
  predicate PlainLabel(tag: string) { tag == PEM_LABEL_KEY || tag == PEM_LABEL_CONFIG }

  lemma Markers(tag: string)
    requires PlainLabel(tag)
    ensures Trimmed(BeginMarker(tag)) && '\n' !in BeginMarker(tag) && BeginLabel(BeginMarker(tag)) == Some(tag)
    ensures Trimmed(EndMarker(tag)) && '\n' !in EndMarker(tag) && '-' in EndMarker(tag)
  {
    BeginLabelExact(BeginMarker(tag), tag);
    hide BeginLabel;
    assert EndMarker(tag)[0] == '-';
  }

  /** Blank text before a line is skipped, whether it ends in a newline or not. */
  lemma {:induction false} SkipBlank(w: string, line: string, rest: string)
    requires Blank(w) && Trimmed(line) && '\n' !in line
    ensures ParseBlocks(Lines(w + (line + "\n" + rest))) == ParseBlocks([line] + Lines(rest))
    decreases |w|
  {
    hide Lines, Trim, IsWhitespace, ParseBlockTail, BeginLabel;
    var after := line + "\n" + rest;
    match Find(w, '\n') {
      case None =>
        assert w + after == (w + line) + "\n" + rest;
        LinesCons(w + line, rest);
        LastNotCr(line);
        assert StripCr(w + line) == w + line;
        TrimLeading(w, line);
        TrimLeading("", line);
        assert "" + line == line;
      case Some(i) =>
        var blank, more := w[..i], w[i + 1..];
        assert w + after == blank + "\n" + (more + after);
        LinesCons(blank, more + after);
        assert Blank(StripCr(blank));
        TrimBlank(StripCr(blank));
        SkipBlank(more, line, rest);
        assert ([StripCr(blank)] + Lines(more + after))[1..] == Lines(more + after);
    }
  }

  lemma LastNotCr(line: string)
    requires Trimmed(line)
    ensures line[|line| - 1] != '\r'
  {
  }

  /** One written block, behind any blank text, is read back, and parsing goes on after it. */
  lemma ParseWrittenBlock(w: string, tag: string, body: bytes, rest: string)
    requires Blank(w) && PlainLabel(tag)
    ensures ParseBlocks(Lines(w + (BlockText(tag, body) + rest))) ==
            Prefixed([PemBlock(tag, body)], ParseBlocks(Lines(rest)))
  {
    hide Lines, Trim, IsWhitespace, BeginLabel, Base64.Encode, Base64.Decode, Base64.Alphabet, ReadBody, Wrapped;
    Markers(tag);
    var encoded := Base64.Encode(body);
    var begin, marker := BeginMarker(tag), EndMarker(tag);
    var after := Wrapped(encoded) + (marker + "\n" + rest);
    assert BlockText(tag, body) + rest == begin + "\n" + after;
    SkipBlank(w, begin, after);
    Base64.InAlphabet(body);
    Base64.RoundTrip(body);
    ReadBodyOfWrapped(encoded, marker, rest);
    TrimLeading("", begin);
    assert "" + begin == begin;
    assert ([begin] + Lines(after))[1..] == Lines(after);
  }

  /** Pair texts with blank text before, between and after them. */
  function BundleText(ps: seq<EchKeyPair>, gaps: seq<string>): string
    requires |gaps| == |ps| + 1
    requires forall p :: p in ps ==> PairText(p).Some?
  {
    if ps == [] then gaps[0]
    else gaps[0] + (PairText(ps[0]).value + BundleText(ps[1..], gaps[1..]))
  }

  lemma {:induction false} BlankText(w: string)
    requires Blank(w)
    ensures ParseBlocks(Lines(w)) == Some([])
    decreases |w|
  {
    hide Trim, IsWhitespace, ParseBlockTail, BeginLabel;
    if w != "" {
      match Find(w, '\n') {
        case None =>
          TrimBlank(w);
        case Some(i) =>
          assert Blank(StripCr(w[..i]));
          TrimBlank(StripCr(w[..i]));
          BlankText(w[i + 1..]);
          assert Lines(w)[1..] == Lines(w[i + 1..]);
      }
    }
  }

  /** The blocks of a bundle: a key block and a config block for each pair. */
  function Blocks(ps: seq<EchKeyPair>): seq<PemBlock>
    requires forall p :: p in ps ==> EchConfig.Encoded(p.config).Some?
  {
    if ps == [] then []
    else
      [PemBlock(PEM_LABEL_KEY, ps[0].privateKey), PemBlock(PEM_LABEL_CONFIG, EchConfig.Encoded(ps[0].config).value)]
      + Blocks(ps[1..])
  }

  lemma {:induction false} ParseBundleBlocks(ps: seq<EchKeyPair>, gaps: seq<string>)
    requires |gaps| == |ps| + 1 && forall w :: w in gaps ==> Blank(w)
    requires forall p :: p in ps ==> EchConfig.Encoded(p.config).Some?
    ensures ParseBlocks(Lines(BundleText(ps, gaps))) == Some(Blocks(ps))
  {
    hide Lines, ParseBlocks, BlockText, Blank, EchConfig.Encoded;
    if ps == [] {
      BlankText(gaps[0]);
    } else {
      var rest := BundleText(ps[1..], gaps[1..]);
      var config := EchConfig.Encoded(ps[0].config).value;
      ParseBundleBlocks(ps[1..], gaps[1..]);
      var second := BlockText(PEM_LABEL_CONFIG, config) + rest;
      assert BundleText(ps, gaps) == gaps[0] + (BlockText(PEM_LABEL_KEY, ps[0].privateKey) + second);
      ParseWrittenBlock(gaps[0], PEM_LABEL_KEY, ps[0].privateKey, second);
      EmptyIsBlank();
      ParseWrittenBlock("", PEM_LABEL_CONFIG, config, rest);
      assert "" + second == second;
      PrefixedTwice([PemBlock(PEM_LABEL_KEY, ps[0].privateKey)], [PemBlock(PEM_LABEL_CONFIG, config)],
                    Some(Blocks(ps[1..])));
      assert [PemBlock(PEM_LABEL_KEY, ps[0].privateKey)] + [PemBlock(PEM_LABEL_CONFIG, config)]
          == [PemBlock(PEM_LABEL_KEY, ps[0].privateKey), PemBlock(PEM_LABEL_CONFIG, config)];
    }
  }

  lemma EmptyIsBlank() ensures Blank("") {}

  lemma {:induction false} ParsePairsOfBlocks(ps: seq<EchKeyPair>)
    requires forall p :: p in ps ==> EchConfig.Encoded(p.config).Some?
    requires forall p :: p in ps ==> EchConfig.Decoded(EchConfig.Encoded(p.config).value) == Some(p.config)
    ensures ParsePairs(Blocks(ps)) == Some(ps)
  {
    hide EchConfig.Decoded, EchConfig.Encoded;
    if ps != [] {
      ParsePairsOfBlocks(ps[1..]);
      assert Blocks(ps)[2..] == Blocks(ps[1..]);
      assert ps == [ps[0]] + ps[1..];
    }
  }

  /** Whatever a bundle yields has decodable configs. */
  lemma {:induction false} ParsedPairsFit(blocks: seq<PemBlock>)
    requires ParsePairs(blocks).Some?
    ensures forall p :: p in ParsePairs(blocks).value ==> EchConfig.Fits(p.config, [], [])
  {
    hide EchConfig.ParseOne, EchConfig.Fits;
    if blocks != [] {
      EchConfig.ParsedFits(blocks[1].body);
      ParsedPairsFit(blocks[2..]);
    }
  }

  lemma FittingPairsRead(ps: seq<EchKeyPair>, gaps: seq<string>)
    requires |gaps| == |ps| + 1 && forall w :: w in gaps ==> Blank(w)
    requires forall p :: p in ps ==> EchConfig.Fits(p.config, [], [])
    ensures forall p :: p in ps ==> PairText(p).Some?
    ensures ParsedBundle(BundleText(ps, gaps)) == Some(ps)
  {
    hide ParseBlocks, ParsePairs, Lines, BundleText, Blank, EchConfig.Decoded, EchConfig.Contents, EchConfig.IsUtf8;
    forall p | p in ps
      ensures EchConfig.Encoded(p.config).Some?
      ensures EchConfig.Decoded(EchConfig.Encoded(p.config).value) == Some(p.config)
    {
      EchConfig.DecodedOfEncoded(p.config);
    }
    ParseBundleBlocks(ps, gaps);
    ParsePairsOfBlocks(ps);
  }

  /**
   * Round trip: a file holding the texts of any encodable pairs, with any blank text around them,
   * parses to exactly those pairs in order if and only if every config has a cipher suite and a
   * UTF-8 name.
   */
  lemma RoundTrip(ps: seq<EchKeyPair>, gaps: seq<string>)
    requires |gaps| == |ps| + 1 && forall w :: w in gaps ==> Blank(w)
    requires forall p :: p in ps ==> EchConfig.Encodable(p.config)
    ensures forall p :: p in ps ==> PairText(p).Some?
    ensures ParsedBundle(BundleText(ps, gaps)) == Some(ps) <==>
            forall p :: p in ps ==> p.config.cipherSuites != [] && EchConfig.IsUtf8(p.config.publicName)
  {
    hide ParseBlocks, ParsePairs, Lines, BlockText, BundleText, Blank, EchConfig.Contents, EchConfig.IsUtf8;
    assert forall p :: p in ps ==> PairText(p).Some?;
    if ParsedBundle(BundleText(ps, gaps)) == Some(ps) {
      ParsedPairsFit(ParseBlocks(Lines(BundleText(ps, gaps))).value);
    }
    if forall p :: p in ps ==> p.config.cipherSuites != [] && EchConfig.IsUtf8(p.config.publicName) {
      assert forall p :: p in ps ==> EchConfig.Fits(p.config, [], []);
      FittingPairsRead(ps, gaps);
    }
  }

  /** Normalisation: whatever file parses, writing its pairs again with any blank text gives the same pairs. */
  lemma Normalises(text: string, gaps: seq<string>)
    requires ParsedBundle(text).Some?
    requires |gaps| == |ParsedBundle(text).value| + 1 && forall w :: w in gaps ==> Blank(w)
    ensures forall p :: p in ParsedBundle(text).value ==> PairText(p).Some?
    ensures ParsedBundle(BundleText(ParsedBundle(text).value, gaps)) == ParsedBundle(text)
  {
    hide ParseBlocks, ParsePairs, Lines, BundleText, Blank, EchConfig.Fits;
    ParsedPairsFit(ParseBlocks(Lines(text)).value);
    FittingPairsRead(ParsedBundle(text).value, gaps);
  }

  // ---------- key sets ----------

  ghost predicate DistinctIds(ps: seq<EchKeyPair>) {
    forall i, j :: 0 <= i < j < |ps| ==> ps[i].config.configId != ps[j].config.configId
  }

  /** The collision check of `EchKeySet::load`: the id of the first clash found, if there is one. */
  method FindDuplicateId(ps: seq<EchKeyPair>) returns (dup: Option<byte>)
    ensures dup.None? <==> DistinctIds(ps)
    ensures dup.Some? ==>
            exists i, j :: 0 <= i < j < |ps| && ps[i].config.configId == ps[j].config.configId == dup.value
  {
    var i := 0;
    while i < |ps|
      invariant 0 <= i <= |ps|
      invariant forall a, b :: 0 <= a < i && a < b < |ps| ==> ps[a].config.configId != ps[b].config.configId
    {
      var j := i + 1;
      while j < |ps|
        invariant i < j <= |ps|
        invariant forall b :: i < b < j ==> ps[i].config.configId != ps[b].config.configId
      {
        if ps[i].config.configId == ps[j].config.configId {
          return Some(ps[i].config.configId);
        }
        j := j + 1;
      }
      i := i + 1;
    }
    dup := None;
  }

  ghost function Ids(ps: seq<EchKeyPair>): set<int> { set i | 0 <= i < |ps| :: ps[i].config.configId as int }

  lemma {:induction false} DistinctCount(ps: seq<EchKeyPair>)
    requires DistinctIds(ps)
    ensures |Ids(ps)| == |ps|
  {
    if ps != [] {
      var n := |ps| - 1;
      var front, last := ps[..n], ps[n].config.configId as int;
      DistinctCount(front);
      assert last !in Ids(front);
      assert Ids(ps) == Ids(front) + {last} by {
        assert forall i :: 0 <= i < n ==> front[i] == ps[i];
        assert ps[n].config.configId in Ids(ps);
      }
    }
  }

  /** The numbers below `n`. */
  ghost function Range(n: nat): (s: set<int>)
    ensures forall x :: x in s <==> 0 <= x < n
    ensures |s| == n
  {
    if n == 0 then {} else Range(n - 1) + {n - 1}
  }

  lemma {:induction false} SubsetCount<T>(a: set<T>, b: set<T>)
    requires a <= b
    ensures |a| <= |b|
  {
    if a != {} {
      var x :| x in a;
      SubsetCount(a - {x}, b - {x});
    }
  }

  /** A key set that passes the collision check holds one pair per config id, so at most 256. */
  lemma KeySetBound(ps: seq<EchKeyPair>)
    requires DistinctIds(ps)
    ensures |ps| <= 256
    ensures forall p, q :: p in ps && q in ps && p.config.configId == q.config.configId ==> p == q
  {
    DistinctCount(ps);
    SubsetCount(Ids(ps), Range(256));
  }

  /** The pairs of all files in order; a file without pairs is an error. */
  function LoadedPairs(files: seq<string>): Option<seq<EchKeyPair>> {
    if files == [] then Some([])
    else match ParsedBundle(files[0])
      case None => None
      case Some(ps) => if ps == [] then None else Prefixed(ps, LoadedPairs(files[1..]))
  }

  /** One file gives its own pairs if it has any, and files one after the other give theirs in order. */
  lemma {:induction false} LoadedExact(file: string, a: seq<string>, b: seq<string>)
    ensures LoadedPairs([file]) ==
            if ParsedBundle(file) == None || ParsedBundle(file) == Some([]) then None else ParsedBundle(file)
    ensures LoadedPairs(a + b) ==
            if LoadedPairs(a).None? || LoadedPairs(b).None? then None
            else Some(LoadedPairs(a).value + LoadedPairs(b).value)
    ensures LoadedPairs([]) == Some([])
  {
    hide ParsedBundle;
    assert [file][1..] == [];
    if ParsedBundle(file).Some? {
      assert ParsedBundle(file).value + [] == ParsedBundle(file).value;
    }
    if a == [] {
      assert a + b == b;
      if LoadedPairs(b).Some? { assert [] + LoadedPairs(b).value == LoadedPairs(b).value; }
    } else {
      assert (a + b)[0] == a[0] && (a + b)[1..] == a[1..] + b;
      LoadedExact(file, a[1..], b);
      if LoadedPairs(a).Some? && LoadedPairs(b).Some? {
        var p, q, r := ParsedBundle(a[0]).value, LoadedPairs(a[1..]).value, LoadedPairs(b).value;
        assert p + (q + r) == (p + q) + r;
      }
    }
  }

  /** `EchKeySet::load` once the files are read. */
  method LoadKeySet(files: seq<string>) returns (r: Option<seq<EchKeyPair>>)
    ensures r.Some? <==> LoadedPairs(files).Some? && DistinctIds(LoadedPairs(files).value)
    ensures r.Some? ==> r == LoadedPairs(files)
  {
    hide ParsedBundle;
    var pairs: seq<EchKeyPair> := [];
    var i := 0;
    assert files[0..] == files;
    PrefixedTwice(pairs, pairs, LoadedPairs(files));
    while i < |files|
      invariant 0 <= i <= |files|
      invariant LoadedPairs(files) == Prefixed(pairs, LoadedPairs(files[i..]))
    {
      var filePairs := ParsePemBundle(files[i]);
      if filePairs.None? || filePairs.value == [] { return None; }
      assert files[i..][1..] == files[i + 1..];
      PrefixedTwice(pairs, filePairs.value, LoadedPairs(files[i + 1..]));
      pairs := pairs + filePairs.value;
      i := i + 1;
    }
    assert files[i..] == [] && pairs + [] == pairs;
    var dup := FindDuplicateId(pairs);
    r := if dup.None? then Some(pairs) else None;
  }
}
