/** The endpoint both sides agree on: `https://authority/path`. */
module Endpoints {
  import opened Common
  import opened Text

  datatype Endpoint = Endpoint(authority: string, path: string)

  /** The text after the first `://`. */
  function AfterScheme(raw: string): (r: Option<string>)
    ensures r.Some? ==> |r.value| + 3 <= |raw| && raw[|raw| - |r.value|..] == r.value
  {
    if |raw| < 3 then None
    else if raw[..3] == "://" then Some(raw[3..])
    else AfterScheme(raw[1..])
  }

  predicate SeparatorAt(raw: string, k: nat) {
    k + 3 <= |raw| && raw[k] == ':' && raw[k + 1] == '/' && raw[k + 2] == '/'
  }

  /** The first `://` of `raw` is at position `n`. */
  predicate FirstSeparator(raw: string, n: nat) {
    n + 3 <= |raw| && SeparatorAt(raw, n) && forall k :: 0 <= k < n ==> !SeparatorAt(raw, k)
  }

  /** The scheme ends at the first `://`, and only there. */
  lemma {:induction false} AfterSchemeExact(raw: string, rest: string)
    ensures AfterScheme(raw) == Some(rest) <==>
            |rest| + 3 <= |raw| && rest == raw[|raw| - |rest|..] && FirstSeparator(raw, |raw| - |rest| - 3)
  {
    hide FirstSeparator;
    if |raw| >= 3 {
      var n := |raw| - |rest| - 3;
      if n >= 0 {
        SeparatorShift(raw, n);
        assert n == 0 ==> raw[|raw| - |rest|..] == raw[3..];
        assert n > 0 ==> raw[1..][|raw| - 1 - |rest|..] == raw[|raw| - |rest|..];
      }
      if raw[..3] != "://" {
        AfterSchemeExact(raw[1..], rest);
      }
    }
  }

  lemma SeparatorShift(raw: string, n: nat)
    requires |raw| >= 3 && n <= |raw| - 3
    ensures raw[..3] == "://" ==> (FirstSeparator(raw, n) <==> n == 0)
    ensures raw[..3] != "://" ==> (FirstSeparator(raw, n) <==> n > 0 && FirstSeparator(raw[1..], n - 1))
  {
    assert SeparatorAt(raw, 0) <==> raw[..3] == "://";
    forall k: nat | k > 0 ensures SeparatorAt(raw, k) <==> SeparatorAt(raw[1..], k - 1) {}
    if n > 0 && FirstSeparator(raw, n) {
      forall k | 0 <= k < n - 1 ensures !SeparatorAt(raw[1..], k) {
        assert !SeparatorAt(raw, k + 1);
      }
    }
  }

  /** The authority runs to the first `/`; a missing path is `/`. */
  function ParseRest(rest: string): (r: Option<Endpoint>)
    ensures r.None? <==> rest == "" || rest[0] == '/'
    ensures r.Some? ==> '/' !in r.value.authority && "/" <= r.value.path
    ensures r.Some? ==> rest == r.value.authority + r.value.path || (rest == r.value.authority && r.value.path == "/")
  {
    match Find(rest, '/')
    case None => if rest == "" then None else Some(Endpoint(rest, "/"))
    case Some(i) =>
      assert rest == rest[..i] + rest[i..];
      if i == 0 then None else Some(Endpoint(rest[..i], rest[i..]))
  }

  /** Rejected exactly when there is no `://` or nothing between it and the path. */
  function ParseEndpoint(raw: string): (r: Option<Endpoint>)
    ensures r.None? <==> AfterScheme(raw).None? || AfterScheme(raw).value == "" || AfterScheme(raw).value[0] == '/'
    ensures r.Some? ==> r.value.authority != "" && '/' !in r.value.authority && "/" <= r.value.path
  {
    match AfterScheme(raw)
    case None => None
    case Some(rest) => ParseRest(rest)
  }

  lemma ParseRestInverse(authority: string, path: string)
    requires authority != "" && '/' !in authority && (path == "" || path[0] == '/')
    ensures ParseRest(authority + path) == Some(Endpoint(authority, if path == "" then "/" else path))
  {
    var rest := authority + path;
    if path == "" {
      assert rest == authority;
    } else {
      assert rest[..|authority|] == authority && rest[|authority|..] == path;
      FindAt(rest, '/', |authority|);
    }
  }

  /**
   * `raw` is a text up to its first `://`, a non-empty authority without a slash, and a path that
   * is missing, and then `/`, or starts with a slash.
   */
  ghost predicate Written(raw: string, n: nat, path: string, e: Endpoint) {
    && FirstSeparator(raw, n) && raw[n + 3..] == e.authority + path
    && e.authority != "" && '/' !in e.authority
    && (if path == "" then e.path == "/" else path[0] == '/' && e.path == path)
  }

  lemma WrittenParses(raw: string, n: nat, path: string, e: Endpoint)
    requires Written(raw, n, path, e)
    ensures ParseEndpoint(raw) == Some(e)
  {
    hide AfterScheme, ParseRest, SeparatorAt;
    AfterSchemeExact(raw, raw[n + 3..]);
    ParseRestInverse(e.authority, path);
  }

  /** The accepted endpoints are exactly the written ones. */
  lemma EndpointExact(raw: string, e: Endpoint)
    ensures ParseEndpoint(raw) == Some(e) <==> exists n: nat, path: string :: Written(raw, n, path, e)
  {
    hide AfterScheme, ParseRest, SeparatorAt;
    if ParseEndpoint(raw) == Some(e) {
      var rest := AfterScheme(raw).value;
      AfterSchemeExact(raw, rest);
      var path := if rest == e.authority + e.path then e.path else "";
      assert e.authority + "" == e.authority;
      assert Written(raw, |raw| - |rest| - 3, path, e);
    }
    if n: nat, path: string :| Written(raw, n, path, e) {
      WrittenParses(raw, n, path, e);
    }
  }

  /** The path component: everything before `?`. */
  function PathOnly(p: string): string {
    match SplitOnce(p, '?') case Some((path, _)) => path case None => p
  }

  predicate Matches(e: Endpoint, path: string) { PathOnly(path) == PathOnly(e.path) }

  /** Path `p` is `base`, with or without a query. */
  predicate OnPath(base: string, p: string) { '?' !in base && (p == base || base + "?" <= p) }

  lemma PathOnlyExact(base: string, p: string)
    ensures PathOnly(p) == base <==> OnPath(base, p)
  {
    if base + "?" <= p {
      assert p[|base|] == '?' && p[..|base|] == base;
      if '?' !in base { FindAt(p, '?', |base|); }
    }
    if '?' in p {
      var (a, q) := SplitOnce(p, '?').value;
      assert p[..|a|] == a && p[|a|] == '?' && a + "?" <= p;
      FindAt(p, '?', |a|);
    }
  }

  /** Two paths match when they are the same path up to a query. */
  lemma MatchesExact(e: Endpoint, path: string)
    ensures Matches(e, path) <==> exists base :: OnPath(base, path) && OnPath(base, e.path)
  {
    hide PathOnly, OnPath;
    PathOnlyExact(PathOnly(path), path);
    PathOnlyExact(PathOnly(path), e.path);
    if base :| OnPath(base, path) && OnPath(base, e.path) {
      PathOnlyExact(base, path);
      PathOnlyExact(base, e.path);
    }
  }

  lemma {:induction false} PathOnlyIgnoresQuery(p: string, q: string)
    ensures PathOnly(p + "?" + q) == PathOnly(p)
  {
    var s := p + "?" + q;
    if p == "" {
      assert s[0] == '?';
    } else {
      assert s[1..] == p[1..] + "?" + q;
      if p[0] != '?' {
        PathOnlyIgnoresQuery(p[1..], q);
        assert p == [p[0]] + p[1..];
      }
    }
  }
}

/** The server's rule table, and the TLS server-name guard derived from it. */
module Rules {
  import opened Common
  import opened Text
  import opened Endpoints

  datatype RuleSpec = RuleSpec(endpoint: string, target: Option<SocketAddr>, transparent: bool, fwmark: Option<nat>,
                               idleTimeout: nat)

  datatype Rule = Rule(endpoint: Endpoint, target: SocketAddr, transparent: bool, fwmark: Option<nat>,
                       idleTimeout: Option<nat>)

  datatype RuleMatch = RuleMatch(target: SocketAddr, transparent: bool, fwmark: Option<nat>, idleTimeout: Option<nat>)

  // ---------- loading ----------

  ghost predicate Loadable(s: RuleSpec) { ParseEndpoint(s.endpoint).Some? && s.target.Some? }

  /** Rule `r` says what its specification says; a timeout of zero switches the timeout off. */
  ghost predicate RuleFor(s: RuleSpec, r: Rule) {
    && ParseEndpoint(s.endpoint) == Some(r.endpoint) && s.target == Some(r.target)
    && r.transparent == s.transparent && r.fwmark == s.fwmark
    && (r.idleTimeout.None? <==> s.idleTimeout == 0) && (r.idleTimeout.Some? ==> r.idleTimeout.value == s.idleTimeout)
  }

  /** The spec-to-rule loop of `RuleTable::load`, after JSON parsing and name resolution. */
  method Load(specs: seq<RuleSpec>) returns (r: Option<seq<Rule>>)
    ensures r.Some? <==> specs != [] && forall s :: s in specs ==> Loadable(s)
    ensures r.Some? ==> |r.value| == |specs| && forall i :: 0 <= i < |specs| ==> RuleFor(specs[i], r.value[i])
  {
    hide AfterScheme, ParseEndpoint;
    if specs == [] {
      return None;
    }
    var rules: seq<Rule> := [];
    var i := 0;
    while i < |specs|
      invariant 0 <= i <= |specs| && |rules| == i
      invariant forall k :: 0 <= k < i ==> RuleFor(specs[k], rules[k])
      invariant forall k :: 0 <= k < i ==> Loadable(specs[k])
    {
      var spec := specs[i];
      assert spec in specs;
      var endpoint := ParseEndpoint(spec.endpoint);
      if endpoint.None? { return None; }
      if spec.target.None? { return None; }
      var timeout := if spec.idleTimeout != 0 then Some(spec.idleTimeout) else None;
      rules := rules + [Rule(endpoint.value, spec.target.value, spec.transparent, spec.fwmark, timeout)];
      i := i + 1;
    }
    r := Some(rules);
  }

  // ---------- matching ----------

  predicate Accepts(r: Rule, authority: string, path: string) {
    r.endpoint.authority == authority && Matches(r.endpoint, path)
  }

  /**
   * Rule `r` is for this authority and path, said of the strings: the authority is the rule's own,
   * and both paths are the same text without `?`, each with or without a query after it.
   */
  ghost predicate Serves(r: Rule, authority: string, path: string) {
    && authority == r.endpoint.authority
    && exists base :: '?' !in base && (path == base || base + "?" <= path) &&
                      (r.endpoint.path == base || base + "?" <= r.endpoint.path)
  }

  lemma AcceptsExact(r: Rule, authority: string, path: string)
    ensures Accepts(r, authority, path) <==> Serves(r, authority, path)
  {
    hide Matches;
    MatchesExact(r.endpoint, path);
    if base :| OnPath(base, path) && OnPath(base, r.endpoint.path) {
      assert '?' !in base;
    }
    if base :| '?' !in base && (path == base || base + "?" <= path) &&
               (r.endpoint.path == base || base + "?" <= r.endpoint.path)
    {
      assert OnPath(base, path) && OnPath(base, r.endpoint.path);
    }
  }

  function MatchTarget(rules: seq<Rule>, authority: string, path: string): Option<RuleMatch> {
    if rules == [] then None
    else
      var r := rules[0];
      if Accepts(r, authority, path) then Some(RuleMatch(r.target, r.transparent, r.fwmark, r.idleTimeout))
      else MatchTarget(rules[1..], authority, path)
  }

  /** Rule `i` is the first one for the request. */
  ghost predicate FirstServing(rules: seq<Rule>, authority: string, path: string, i: nat) {
    && i < |rules| && Serves(rules[i], authority, path)
    && forall k :: 0 <= k < i ==> !Serves(rules[k], authority, path)
  }

  /** The decision is the first serving rule's, field by field; there is none exactly when no rule serves. */
  lemma {:induction false} MatchTargetIsFirst(rules: seq<Rule>, authority: string, path: string)
    ensures forall i: nat :: FirstServing(rules, authority, path, i) ==>
            MatchTarget(rules, authority, path) ==
            Some(RuleMatch(rules[i].target, rules[i].transparent, rules[i].fwmark, rules[i].idleTimeout))
    ensures MatchTarget(rules, authority, path).Some? <==> exists i: nat :: FirstServing(rules, authority, path, i)
    ensures MatchTarget(rules, authority, path).None? <==>
            forall i :: 0 <= i < |rules| ==> !Serves(rules[i], authority, path)
  {
    hide Accepts, Serves;
    if rules != [] {
      var rest := rules[1..];
      AcceptsExact(rules[0], authority, path);
      MatchTargetIsFirst(rest, authority, path);
      if Serves(rules[0], authority, path) {
        assert FirstServing(rules, authority, path, 0);
      } else {
        forall i: nat | FirstServing(rules, authority, path, i)
          ensures i > 0 && FirstServing(rest, authority, path, i - 1)
        {
          assert rest[i - 1] == rules[i];
        }
        forall i: nat | FirstServing(rest, authority, path, i)
          ensures FirstServing(rules, authority, path, i + 1)
        {
          assert forall k :: 0 < k < i + 1 ==> rules[k] == rest[k - 1];
        }
        assert forall i :: 0 < i < |rules| ==> rules[i] == rest[i - 1];
      }
    }
  }

  /** A request's query string never changes the forwarding decision. */
  lemma {:induction false} MatchIgnoresQuery(rules: seq<Rule>, authority: string, path: string, query: string)
    ensures MatchTarget(rules, authority, path + "?" + query) == MatchTarget(rules, authority, path)
  {
    PathOnlyIgnoresQuery(path, query);
    if rules != [] {
      MatchIgnoresQuery(rules[1..], authority, path, query);
    }
  }

  // ---------- host names ----------

  /** The client's host extraction, by position of the closing bracket. */
  function HostOf(authority: string): string {
    match StripPrefix(authority, "[")
    case Some(rest) =>
      (match Find(rest, ']')
       case Some(end) => rest[..end]
       case None => HostBeforePort(authority))
    case None => HostBeforePort(authority)
  }

  /** The server's host extraction, by splitting at the closing bracket. */
  function HostOfAuthority(authority: string): string {
    match StripPrefix(authority, "[")
    case Some(rest) =>
      (match SplitOnce(rest, ']')
       case Some((host, _)) => host
       case None => HostBeforePort(authority))
    case None => HostBeforePort(authority)
  }

  function HostBeforePort(authority: string): string {
    match RSplitOnce(authority, ':') case Some((h, _)) => h case None => authority
  }

  /** Two prefixes of `s` that end right before its first `c` are the same. */
  lemma SplitAtFind(s: string, c: char)
    requires c in s
    ensures SplitOnce(s, c).value.0 == s[..Find(s, c).value]
  {
    var (a, b) := SplitOnce(s, c).value;
    assert s[|a|] == c;
    assert s[..|a|] == a;
    FindAt(s, c, |a|);
  }

  lemma HostsAgree(authority: string)
    ensures HostOf(authority) == HostOfAuthority(authority)
  {
    var rest := StripPrefix(authority, "[");
    if rest.Some? && ']' in rest.value {
      SplitAtFind(rest.value, ']');
    }
  }

  /**
   * The host of every authority: what brackets enclose at its front, else what stands before the
   * last colon, else all of it.
   */
  lemma HostShapes(h: string, tail: string)
    ensures ']' !in h ==> HostOf("[" + h + "]" + tail) == h
    ensures ':' !in tail && !Bracketed(h + ":" + tail) ==> HostOf(h + ":" + tail) == h
    ensures ':' !in h && !Bracketed(h) ==> HostOf(h) == h
  {
    if ']' !in h {
      var a, rest := "[" + h + "]" + tail, h + "]" + tail;
      assert a[1..] == rest;
      assert rest[..|h|] == h;
      FindAt(rest, ']', |h|);
    }
    Unbracketed(h);
    Unbracketed(h + ":" + tail);
    if ':' !in tail {
      LastColon(h, tail);
    }
  }

  predicate Bracketed(a: string) { "[" <= a && ']' in a }

  lemma Unbracketed(a: string)
    ensures !Bracketed(a) ==> HostOf(a) == HostBeforePort(a)
  {
    if "[" <= a && ']' !in a {
      assert ']' !in a[1..];
    }
  }

  lemma LastColon(h: string, tail: string)
    requires ':' !in tail
    ensures HostBeforePort(h + ":" + tail) == h
  {
    var a := h + ":" + tail;
    RSplitAt(a, ':', |h|);
    assert a[..|h|] == h;
  }

  /** Splitting from the right looks at the last character first. */
  lemma RSplitStep(s: string, c: char)
    requires s != ""
    ensures var n := |s| - 1;
            if s[n] == c then RSplitOnce(s, c) == Some((s[..n], ""))
            else RSplitOnce(s, c).Some? == RSplitOnce(s[..n], c).Some?
                 && (RSplitOnce(s, c).Some? ==> RSplitOnce(s, c).value.0 == RSplitOnce(s[..n], c).value.0)
  {
  }

  lemma {:induction false} RSplitAt(s: string, c: char, i: nat)
    requires i < |s| && s[i] == c && c !in s[i + 1..]
    ensures RSplitOnce(s, c).Some? && RSplitOnce(s, c).value.0 == s[..i]
  {
    hide RSplitOnce;
    RSplitStep(s, c);
    var n := |s| - 1;
    if i < n {
      assert s[n] in s[i + 1..];
      assert s[..n][i + 1..] == s[i + 1..][..n - i - 1];
      RSplitAt(s[..n], c, i);
      assert s[..n][..i] == s[..i];
    }
  }

  function LowerChar(c: char): char { if 'A' <= c <= 'Z' then c - 'A' + 'a' else c }

  /** `to_ascii_lowercase`. */
  function Lower(s: string): (r: string)
    ensures |r| == |s| && forall i :: 0 <= i < |s| ==> r[i] == LowerChar(s[i])
  {
    seq(|s|, i requires 0 <= i < |s| => LowerChar(s[i]))
  }

  /** The same letter, or the two cases of one ASCII letter. */
  predicate SameLetter(a: char, b: char) {
    a == b || ('A' <= a <= 'Z' && b as int == a as int + 32) || ('A' <= b <= 'Z' && a as int == b as int + 32)
  }

  /** The same name, letter for letter, ignoring ASCII case. */
  predicate SameName(s: string, t: string) {
    |s| == |t| && forall i :: 0 <= i < |s| ==> SameLetter(s[i], t[i])
  }

  lemma LowerExact(s: string, t: string)
    ensures Lower(s) == Lower(t) <==> SameName(s, t)
    ensures Lower(Lower(s)) == Lower(s)
  {
    forall i | 0 <= i < |s| && i < |t| ensures SameLetter(s[i], t[i]) <==> Lower(s)[i] == Lower(t)[i] {}
    if Lower(s) == Lower(t) {
      forall i | 0 <= i < |s| ensures SameLetter(s[i], t[i]) {
        assert Lower(s)[i] == Lower(t)[i];
      }
    }
  }

  function RuleHost(r: Rule): string { Lower(HostOfAuthority(r.endpoint.authority)) }

  /** The hosts in order of first appearance. */
  function SniHosts(rules: seq<Rule>): seq<string> {
    if rules == [] then []
    else
      var n := |rules| - 1;
      var front := SniHosts(rules[..n]);
      if RuleHost(rules[n]) in front then front else front + [RuleHost(rules[n])]
  }

  method AllowedSniHosts(rules: seq<Rule>) returns (hosts: seq<string>)
    ensures hosts == SniHosts(rules)
  {
    hosts := [];
    var i := 0;
    while i < |rules|
      invariant 0 <= i <= |rules|
      invariant hosts == SniHosts(rules[..i])
    {
      var host := RuleHost(rules[i]);
      assert rules[..i + 1][..i] == rules[..i];
      if host !in hosts {
        hosts := hosts + [host];
      }
      i := i + 1;
    }
    assert rules[..i] == rules;
  }

  /** The allow-list holds each rule host once and nothing else. */
  lemma {:induction false} SniHostsExact(rules: seq<Rule>)
    ensures forall h :: h in SniHosts(rules) <==> exists r :: r in rules && RuleHost(r) == h
    ensures forall i, j :: 0 <= i < j < |SniHosts(rules)| ==> SniHosts(rules)[i] != SniHosts(rules)[j]
  {
    hide RuleHost;
    if rules != [] {
      var n := |rules| - 1;
      SniHostsExact(rules[..n]);
      assert rules == rules[..n] + [rules[n]];
    }
  }

  /** Later rules only add hosts behind those of the earlier ones. */
  lemma {:induction false} SniHostsOrder(rules: seq<Rule>, more: seq<Rule>)
    ensures SniHosts(rules) <= SniHosts(rules + more)
    decreases |more|
  {
    hide RuleHost;
    if more == [] {
      assert rules + more == rules;
    } else {
      var all, n := rules + more, |more| - 1;
      assert all[..|all| - 1] == rules + more[..n];
      SniHostsOrder(rules, more[..n]);
    }
  }

  /** The guard run on every ClientHello: a server name must be present and listed, ignoring ASCII case. */
  predicate SniGuard(hosts: seq<string>, sni: Option<string>) {
    sni.Some? && exists h :: h in hosts && Lower(h) == Lower(sni.value)
  }

  /** The guard lets a name through exactly when it is the host of some rule, ignoring ASCII case. */
  lemma GuardExact(rules: seq<Rule>, sni: Option<string>)
    ensures SniGuard(SniHosts(rules), sni) <==>
            sni.Some? && exists r :: r in rules && SameName(HostOfAuthority(r.endpoint.authority), sni.value)
  {
    hide HostOfAuthority, SniHosts, Lower, SameName;
    SniHostsExact(rules);
    if sni.Some? {
      forall r | r in rules
        ensures RuleHost(r) in SniHosts(rules)
        ensures Lower(RuleHost(r)) == Lower(sni.value) <==> SameName(HostOfAuthority(r.endpoint.authority), sni.value)
      {
        LowerExact(HostOfAuthority(r.endpoint.authority), sni.value);
      }
      if SniGuard(SniHosts(rules), sni) {
        var h :| h in SniHosts(rules) && Lower(h) == Lower(sni.value);
        var r :| r in rules && RuleHost(r) == h;
        assert SameName(HostOfAuthority(r.endpoint.authority), sni.value);
      }
    }
  }
}

/** CONNECT-UDP requests: the client's headers and the server's reading of them. */
module Request {
  import opened Common
  import opened Endpoints
  import Rules

  /** A header value: its text, or bytes that are not valid UTF-8. */
  datatype Value = Text(text: string) | Binary(raw: bytes)

  datatype Header = Header(name: string, value: Value)

  /** A readable request, or the HTTP status to refuse it with. */
  datatype Reading = Readable(authority: string, path: string) | Refused(status: nat)

  function ConnectHeaders(authority: string, path: string): seq<Header> {
    [Header(":method", Text("CONNECT")), Header(":protocol", Text("connect-udp")), Header(":scheme", Text("https")),
     Header(":authority", Text(authority)), Header(":path", Text(path)), Header("capsule-protocol", Text("?1"))]
  }

  /** The value of the last header called `name`. */
  function LastValue(headers: seq<Header>, name: string): Option<Value> {
    if headers == [] then None
    else
      var n := |headers| - 1;
      if headers[n].name == name then Some(headers[n].value) else LastValue(headers[..n], name)
  }

  function Verdict(method_: Option<Value>, protocol: Option<Value>, authority: Option<Value>,
                   path: Option<Value>): Reading {
    if method_ != Some(Text("CONNECT")) then Refused(405)
    else if protocol != Some(Text("connect-udp")) then Refused(501)
    else if authority.None? || authority.value.Binary? then Refused(400)
    else if path.None? || path.value.Binary? then Refused(400)
    else Readable(authority.value.text, path.value.text)
  }

  function Read(headers: seq<Header>): Reading {
    Verdict(LastValue(headers, ":method"), LastValue(headers, ":protocol"), LastValue(headers, ":authority"),
            LastValue(headers, ":path"))
  }

  /** Header `i` is the last one called `name` and has value `v`. */
  ghost predicate LastAt(headers: seq<Header>, i: nat, name: string, v: Value) {
    && i < |headers| && headers[i] == Header(name, v)
    && forall j :: i < j < |headers| ==> headers[j].name != name
  }

  /** The last header called `name` has value `v`. */
  ghost predicate Carries(headers: seq<Header>, name: string, v: Value) {
    exists i: nat :: LastAt(headers, i, name, v)
  }

  lemma {:induction false} LastValueExact(headers: seq<Header>, name: string, v: Value)
    ensures LastValue(headers, name) == Some(v) <==> Carries(headers, name, v)
  {
    if headers != [] {
      var n := |headers| - 1;
      LastValueExact(headers[..n], name, v);
      if headers[n].name != name {
        forall i: nat ensures LastAt(headers, i, name, v) <==> LastAt(headers[..n], i, name, v) {}
      } else {
        forall i: nat ensures LastAt(headers, i, name, v) <==> i == n && headers[n].value == v {}
        assert LastAt(headers, n, name, headers[n].value);
      }
    }
  }

  /** Each refusal by the header that causes it, and what is read otherwise. */
  lemma ReadExact(headers: seq<Header>)
    ensures var connect := Carries(headers, ":method", Text("CONNECT"));
            var udp := Carries(headers, ":protocol", Text("connect-udp"));
            && (Read(headers) == Refused(405) <==> !connect)
            && (Read(headers) == Refused(501) <==> connect && !udp)
            && (Read(headers) == Refused(400) <==>
                  && connect && udp
                  && !exists a, p :: Carries(headers, ":authority", Text(a)) && Carries(headers, ":path", Text(p)))
            && (forall a, p :: Read(headers) == Readable(a, p) <==>
                  connect && udp && Carries(headers, ":authority", Text(a)) && Carries(headers, ":path", Text(p)))
  {
    hide LastValue, Carries;
    LastValueExact(headers, ":method", Text("CONNECT"));
    LastValueExact(headers, ":protocol", Text("connect-udp"));
    forall a: string
      ensures LastValue(headers, ":authority") == Some(Text(a)) <==> Carries(headers, ":authority", Text(a))
      ensures LastValue(headers, ":path") == Some(Text(a)) <==> Carries(headers, ":path", Text(a))
    {
      LastValueExact(headers, ":authority", Text(a));
      LastValueExact(headers, ":path", Text(a));
    }
  }

  /** `ConnectRequest::parse`. */
  method Parse(headers: seq<Header>) returns (r: Reading)
    ensures r == Read(headers)
  {
    var method_: Option<Value>, protocol: Option<Value> := None, None;
    var authority: Option<Value>, path: Option<Value> := None, None;
    var i := 0;
    while i < |headers|
      invariant 0 <= i <= |headers|
      invariant method_ == LastValue(headers[..i], ":method") && protocol == LastValue(headers[..i], ":protocol")
      invariant authority == LastValue(headers[..i], ":authority") && path == LastValue(headers[..i], ":path")
    {
      var h := headers[i];
      assert headers[..i + 1][..i] == headers[..i];
      if h.name == ":method" {
        method_ := Some(h.value);
      } else if h.name == ":protocol" {
        protocol := Some(h.value);
      } else if h.name == ":authority" {
        authority := Some(h.value);
      } else if h.name == ":path" {
        path := Some(h.value);
      }
      i := i + 1;
    }
    assert headers[..i] == headers;
    if method_ != Some(Text("CONNECT")) { return Refused(405); }
    if protocol != Some(Text("connect-udp")) { return Refused(501); }
    if authority.None? || authority.value.Binary? { return Refused(400); }
    if path.None? || path.value.Binary? { return Refused(400); }
    return Readable(authority.value.text, path.value.text);
  }

  /** The server reads from the client's own headers the authority and path put into them. */
  lemma ConnectHeadersRead(authority: string, path: string)
    ensures Read(ConnectHeaders(authority, path)) == Readable(authority, path)
    ensures var h := ConnectHeaders(authority, path);
            |h| == 6 && Carries(h, ":scheme", Text("https")) && Carries(h, "capsule-protocol", Text("?1"))
  {
    hide LastValue, Carries;
    var h := ConnectHeaders(authority, path);
    LastOfSix(h, ":scheme");
    LastOfSix(h, "capsule-protocol");
    LastValueExact(h, ":scheme", Text("https"));
    LastValueExact(h, "capsule-protocol", Text("?1"));
    assert ":scheme"[1] != ":method"[1];
    LastOfSix(h, ":method");
    LastOfSix(h, ":protocol");
    LastOfSix(h, ":authority");
    LastOfSix(h, ":path");
  }

  lemma LastOfSix(h: seq<Header>, name: string)
    requires |h| == 6
    ensures LastValue(h, name) ==
            if h[5].name == name then Some(h[5].value) else if h[4].name == name then Some(h[4].value)
            else if h[3].name == name then Some(h[3].value) else if h[2].name == name then Some(h[2].value)
            else if h[1].name == name then Some(h[1].value) else if h[0].name == name then Some(h[0].value) else None
  {
    hide LastValue;
    assert h[..6] == h && h[..0] == [];
    LastOfNext(h, 1, name);
    LastOfNext(h, 2, name);
    LastOfNext(h, 3, name);
    LastOfNext(h, 4, name);
    LastOfNext(h, 5, name);
    LastOfNext(h, 6, name);
  }

  lemma LastOfNext(h: seq<Header>, n: nat, name: string)
    requires 0 < n <= |h|
    ensures LastValue(h[..n], name) ==
            if h[n - 1].name == name then Some(h[n - 1].value) else LastValue(h[..n - 1], name)
    ensures LastValue([], name) == None
  {
    assert h[..n][..n - 1] == h[..n - 1];
  }

  /**
   * Admission: a client given the endpoint of any rule of any table names a host the guard lets
   * through, and its request is granted by the first rule with that authority and path.
   */
  lemma Admission(specs: seq<Rules.RuleSpec>, rules: seq<Rules.Rule>, i: nat)
    requires i < |specs| == |rules| && forall k :: 0 <= k < |specs| ==> Rules.RuleFor(specs[k], rules[k])
    ensures var e := rules[i].endpoint;
            && ParseEndpoint(specs[i].endpoint) == Some(e)
            && Rules.SniGuard(Rules.SniHosts(rules), Some(Rules.HostOf(e.authority)))
            && Read(ConnectHeaders(e.authority, e.path)) == Readable(e.authority, e.path)
            && var m := Rules.MatchTarget(rules, e.authority, e.path);
               m.Some? && exists j: nat :: j <= i && Rules.FirstServing(rules, e.authority, e.path, j) &&
                                           m.value.target == rules[j].target
  {
    hide Rules.SniHosts, Rules.SniGuard, Rules.MatchTarget, Rules.HostOf, Rules.HostOfAuthority, Read, ParseEndpoint;
    hide Rules.Serves;
    assert Rules.RuleFor(specs[i], rules[i]);
    var e := rules[i].endpoint;
    Rules.HostsAgree(e.authority);
    assert rules[i] in rules && Rules.SameName(Rules.HostOf(e.authority), Rules.HostOf(e.authority));
    Rules.GuardExact(rules, Some(Rules.HostOf(e.authority)));
    ConnectHeadersRead(e.authority, e.path);
    Rules.AcceptsExact(rules[i], e.authority, e.path);
    var j := FirstIndex(rules, e.authority, e.path, i);
    Rules.MatchTargetIsFirst(rules, e.authority, e.path);
  }

  lemma {:induction false} FirstIndex(rules: seq<Rules.Rule>, authority: string, path: string, i: nat) returns (j: nat)
    requires i < |rules| && Rules.Serves(rules[i], authority, path)
    ensures j <= i && Rules.FirstServing(rules, authority, path, j)
  {
    hide Rules.Serves;
    j := 0;
    while !Rules.Serves(rules[j], authority, path)
      invariant j <= i && forall k :: 0 <= k < j ==> !Rules.Serves(rules[k], authority, path)
      decreases i - j
    {
      j := j + 1;
    }
  }
}

/** Hot reload: the TLS configuration and the rule table are replaced together or not at all. */
module Reload {
  import opened Common
  import Pem
  import Rules

  /** What a rebuilt TLS configuration carries that the model speaks of. */
  datatype Tls = Tls(ech: Option<seq<Pem.EchKeyPair>>, sniHosts: seq<string>)

  /** The files at the reload paths: key texts, rule specifications, and whether the certificate loads. */
  datatype Files = Files(echKeys: Option<seq<string>>, specs: seq<Rules.RuleSpec>, certLoads: bool)

  ghost predicate Derived(tls: Tls, rules: seq<Rules.Rule>) { tls.sniHosts == Rules.SniHosts(rules) }

  /**
   * Every part of the new configuration is usable: keys with distinct ids, a non-empty table of loadable
   * rules, a certificate.
   */
  ghost predicate Rebuildable(files: Files) {
    && (files.echKeys.Some? ==>
          Pem.LoadedPairs(files.echKeys.value).Some? && Pem.DistinctIds(Pem.LoadedPairs(files.echKeys.value).value))
    && files.specs != [] && (forall s :: s in files.specs ==> Rules.Loadable(s))
    && files.certLoads
  }

  method Rebuild(files: Files) returns (r: Option<(Tls, seq<Rules.Rule>)>)
    ensures r.Some? <==> Rebuildable(files)
    ensures r.Some? ==> Derived(r.value.0, r.value.1) && |r.value.1| == |files.specs|
    ensures r.Some? ==> forall i :: 0 <= i < |files.specs| ==> Rules.RuleFor(files.specs[i], r.value.1[i])
    ensures r.Some? ==> r.value.0.ech == if files.echKeys.Some? then Pem.LoadedPairs(files.echKeys.value) else None
  {
    hide Pem.LoadedPairs, Pem.DistinctIds, Rules.Loadable;
    var ech: Option<seq<Pem.EchKeyPair>> := None;
    if files.echKeys.Some? {
      ech := Pem.LoadKeySet(files.echKeys.value);
      if ech.None? { return None; }
    }
    var rules := Rules.Load(files.specs);
    if rules.None? { return None; }
    var hosts := Rules.AllowedSniHosts(rules.value);
    if !files.certLoads { return None; }
    r := Some((Tls(ech, hosts), rules.value));
  }

  class ServerConfig {
    var tls: Tls
    var rules: seq<Rules.Rule>

    /** The installed allow-list is the one the current rules define. */
    ghost predicate Valid() reads this { Derived(tls, rules) }

    constructor (tls: Tls, rules: seq<Rules.Rule>)
      requires Derived(tls, rules)
      ensures Valid() && this.tls == tls && this.rules == rules
    {
      this.tls := tls;
      this.rules := rules;
    }

    /** One turn of the reload loop, after a SIGHUP was read. */
    method OnSighup(files: Files) returns (reloaded: bool)
      requires Valid()
      modifies this
      ensures Valid()
      ensures reloaded <==> Rebuildable(files)
      ensures !reloaded ==> tls == old(tls) && rules == old(rules)
      ensures reloaded ==> tls.ech == if files.echKeys.Some? then Pem.LoadedPairs(files.echKeys.value) else None
      ensures reloaded ==> |rules| == |files.specs|
      ensures reloaded ==> forall i :: 0 <= i < |rules| ==> Rules.RuleFor(files.specs[i], rules[i])
    {
      var rebuilt := Rebuild(files);
      if rebuilt.Some? {
        tls := rebuilt.value.0;
        rules := rebuilt.value.1;
      }
      reloaded := rebuilt.Some?;
    }
  }
}
