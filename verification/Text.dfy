/** The string operations of the standard library that the program leans on. */
module Text {
  import opened Common

  /** `str::find` for a character: the first position holding `c`. */
  function Find(s: string, c: char): (r: Option<nat>)
    ensures r.Some? ==> r.value < |s| && s[r.value] == c && c !in s[..r.value]
    ensures r.None? <==> c !in s
  {
    if s == "" then None
    else if s[0] == c then Some(0)
    else match Find(s[1..], c)
      case None => None
      case Some(i) => Some(i + 1)
  }

  /** `str::split_once` for a character. */
  function SplitOnce(s: string, c: char): (r: Option<(string, string)>)
    ensures r.Some? ==> s == r.value.0 + [c] + r.value.1 && c !in r.value.0
    ensures r.None? <==> c !in s
  {
    if s == "" then None
    else if s[0] == c then Some(("", s[1..]))
    else match SplitOnce(s[1..], c)
      case None => None
      case Some((a, b)) => Some(([s[0]] + a, b))
  }

  /** `str::rsplit_once` for a character. */
  function RSplitOnce(s: string, c: char): (r: Option<(string, string)>)
    ensures r.Some? ==> s == r.value.0 + [c] + r.value.1 && c !in r.value.1
    ensures r.None? <==> c !in s
  {
    if s == "" then None
    else if s[|s| - 1] == c then Some((s[..|s| - 1], ""))
    else match RSplitOnce(s[..|s| - 1], c)
      case None => None
      case Some((a, b)) => Some((a, b + [s[|s| - 1]]))
  }

  /** `str::strip_prefix`. */
  function StripPrefix(s: string, p: string): (r: Option<string>)
    ensures r.Some? ==> s == p + r.value
  {
    if p <= s then Some(s[|p|..]) else None
  }

  /** `str::strip_suffix`. */
  function StripSuffix(s: string, p: string): (r: Option<string>)
    ensures r.Some? ==> s == r.value + p
  {
    if |p| <= |s| && s[|s| - |p|..] == p then Some(s[..|s| - |p|]) else None
  }

  /** The Unicode White_Space property, as `str::trim` uses it. */
  predicate IsWhitespace(c: char) {
    var x := c as int;
    9 <= x <= 13 || x == 0x20 || x == 0x85 || x == 0xA0 || x == 0x1680 || 0x2000 <= x <= 0x200A ||
    x == 0x2028 || x == 0x2029 || x == 0x202F || x == 0x205F || x == 0x3000
  }

  ghost predicate Blank(s: string) { forall c :: c in s ==> IsWhitespace(c) }

  /** Not blank, and nothing to trim at either end. */
  predicate Trimmed(s: string) { s != "" && !IsWhitespace(s[0]) && !IsWhitespace(s[|s| - 1]) }

  function TrimStart(s: string): string {
    if s != "" && IsWhitespace(s[0]) then TrimStart(s[1..]) else s
  }

  function TrimEnd(s: string): string {
    if s != "" && IsWhitespace(s[|s| - 1]) then TrimEnd(s[..|s| - 1]) else s
  }

  function Trim(s: string): string { TrimEnd(TrimStart(s)) }

  lemma {:induction false} TrimBlank(w: string)
    requires Blank(w)
    ensures Trim(w) == ""
  {
    if w != "" {
      TrimBlank(w[1..]);
    }
  }

  /** Leading blanks do not change what a trimmed text trims to. */
  lemma {:induction false} TrimLeading(w: string, s: string)
    requires Blank(w) && Trimmed(s)
    ensures Trim(w + s) == s
  {
    if w == "" {
      assert w + s == s;
    } else {
      TrimLeading(w[1..], s);
      assert (w + s)[1..] == w[1..] + s;
    }
  }

  lemma {:induction false} TrimStartExact(s: string) returns (a: string)
    ensures Blank(a) && s == a + TrimStart(s)
    ensures TrimStart(s) != "" ==> !IsWhitespace(TrimStart(s)[0])
  {
    hide IsWhitespace;
    if s != "" && IsWhitespace(s[0]) {
      a := TrimStartExact(s[1..]);
      a := [s[0]] + a;
      assert s == [s[0]] + s[1..];
    } else {
      a := "";
    }
  }

  lemma {:induction false} TrimEndExact(s: string) returns (b: string)
    ensures Blank(b) && s == TrimEnd(s) + b
    ensures TrimEnd(s) != "" ==> !IsWhitespace(TrimEnd(s)[|TrimEnd(s)| - 1])
  {
    hide IsWhitespace;
    if s != "" && IsWhitespace(s[|s| - 1]) {
      b := TrimEndExact(s[..|s| - 1]);
      b := b + [s[|s| - 1]];
      assert s == s[..|s| - 1] + [s[|s| - 1]];
    } else {
      b := "";
    }
  }

  /** Trimming takes off blanks at both ends, and all of them. */
  lemma TrimExact(s: string)
    ensures exists a, b :: Blank(a) && Blank(b) && s == a + Trim(s) + b
    ensures Trim(s) == "" || Trimmed(Trim(s))
  {
    hide IsWhitespace, TrimStart, TrimEnd;
    var a := TrimStartExact(s);
    var b := TrimEndExact(TrimStart(s));
    assert s == a + Trim(s) + b;
    if Trim(s) != "" {
      assert Trim(s)[0] == TrimStart(s)[0];
    }
  }

  function StripCr(s: string): string {
    if s != "" && s[|s| - 1] == '\r' then s[..|s| - 1] else s
  }

  /** `str::lines`: split at each newline, dropping one carriage return before it. */
  function Lines(text: string): seq<string>
    decreases |text|
  {
    if text == "" then []
    else match Find(text, '\n')
      case None => [text]
      case Some(i) => [StripCr(text[..i])] + Lines(text[i + 1..])
  }

  lemma {:induction false} FindAt(s: string, c: char, i: nat)
    requires i < |s| && s[i] == c && c !in s[..i]
    ensures Find(s, c) == Some(i)
  {
    if i > 0 {
      assert s[0] in s[..i];
      assert s[..i][1..] == s[1..][..i - 1];
      FindAt(s[1..], c, i - 1);
    }
  }

  /** A newline ends a line whatever comes after it; what follows the last newline is a line if not empty. */
  lemma LinesCons(line: string, rest: string)
    requires '\n' !in line
    ensures Lines(line + "\n" + rest) == [StripCr(line)] + Lines(rest)
    ensures Lines(line) == if line == "" then [] else [line]
  {
    var t := line + "\n" + rest;
    assert t[..|line|] == line;
    FindAt(t, '\n', |line|);
    assert t[|line| + 1..] == rest;
  }
}
