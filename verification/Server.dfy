/**
 * The proxy server: connections by server-chosen id, routes from the clients' first ids, flows
 * with idle timestamps, and the rule table swapped by reloads.
 *
 * Part one is the server as a machine over events from arbitrary peers, with the past recorded
 * beside it. Part two is the program's object, whose methods carry out those events.
 */
module Server {
  import opened Common
  import Dgram
  import Varint
  import Rules
  import Request
  import Reload

  const LOCAL_CONN_ID_LEN: nat := 16

  /** A server-chosen connection id; always 16 bytes. */
  type Scid = s: bytes | |s| == LOCAL_CONN_ID_LEN witness seq(LOCAL_CONN_ID_LEN, _ => 0)

  /** A flow: the target socket its channel feeds, and its idle bookkeeping. */
  datatype Flow = Flow(socket: nat, lastActivity: nat, idleTimeout: Option<nat>)

  type Flows = map<nat, Flow>

  datatype Server = Server(clients: map<Scid, Flows>, routes: map<bytes, Scid>)

  // ---------- routing ----------

  /** The connection a packet belongs to: by our id, else by the client's first id. */
  function RouteTo(s: Server, dcid: bytes): Option<Scid> {
    if |dcid| == LOCAL_CONN_ID_LEN && dcid in s.clients then Some(dcid)
    else if dcid in s.routes then Some(s.routes[dcid])
    else None
  }

  /** A live connection's own id names it; any other id names what it was first used for; else nothing. */
  lemma RouteExact(s: Server, dcid: bytes)
    ensures forall c: Scid :: c in s.clients && c == dcid ==> RouteTo(s, dcid) == Some(c)
    ensures (forall c: Scid :: c in s.clients ==> c != dcid) ==>
            RouteTo(s, dcid) == if dcid in s.routes then Some(s.routes[dcid]) else None
  {
  }

  function Accept(s: Server, dcid: bytes, scid: Scid): Server {
    Server(s.clients[scid := map[]], s.routes[dcid := scid])
  }

  function Reap(s: Server, closed: set<Scid>): Server {
    Server(s.clients - closed, map d | d in s.routes && s.routes[d] !in closed :: s.routes[d])
  }

  /** No route leads to a connection that is gone. */
  ghost predicate NoDangling(s: Server) { forall d :: d in s.routes ==> s.routes[d] in s.clients }

  /** Routes pair the clients' first ids one to one with the live connections. */
  ghost predicate Bijective(s: Server) {
    && NoDangling(s)
    && (forall d, e :: d in s.routes && e in s.routes && s.routes[d] == s.routes[e] ==> d == e)
    && (forall c :: c in s.clients ==> exists d :: d in s.routes && s.routes[d] == c)
  }

  /** Whatever id is drawn, accepting leaves no dangling route; the pairing survives exactly when the id is unused. */
  lemma AcceptRoutes(s: Server, dcid: bytes, scid: Scid)
    requires dcid !in s.routes
    ensures NoDangling(s) ==> NoDangling(Accept(s, dcid, scid))
    ensures Bijective(s) ==> (Bijective(Accept(s, dcid, scid)) <==> scid !in s.clients)
  {
    var s' := Accept(s, dcid, scid);
    if Bijective(s) && scid in s.clients {
      var d :| d in s.routes && s.routes[d] == scid;
      assert s'.routes[d] == s'.routes[dcid] && d != dcid;
    }
    if Bijective(s) && scid !in s.clients {
      forall c | c in s'.clients
        ensures exists d :: d in s'.routes && s'.routes[d] == c
      {
        if c == scid {
          assert s'.routes[dcid] == c;
        } else {
          var d :| d in s.routes && s.routes[d] == c;
          assert s'.routes[d] == c;
        }
      }
    }
  }

  /** Accepting adds one connection without flows and one route to it, and leaves the others as they were. */
  lemma AcceptFrame(s: Server, dcid: bytes, scid: Scid)
    ensures var s' := Accept(s, dcid, scid);
            && s'.clients.Keys == s.clients.Keys + {scid} && s'.clients[scid] == map[]
            && (forall c :: c in s.clients && c != scid ==> s'.clients[c] == s.clients[c])
            && s'.routes.Keys == s.routes.Keys + {dcid} && s'.routes[dcid] == scid
            && (forall d :: d in s.routes && d != dcid ==> s'.routes[d] == s.routes[d])
  {
  }

  /** Reaping removes the closed connections and exactly the routes that led to them. */
  lemma ReapRoutes(s: Server, closed: set<Scid>)
    ensures NoDangling(s) ==> NoDangling(Reap(s, closed))
    ensures Bijective(s) ==> Bijective(Reap(s, closed))
    ensures var s' := Reap(s, closed);
            && (forall d :: d in s'.routes <==> d in s.routes && s.routes[d] !in closed)
            && (forall d :: d in s'.routes ==> s'.routes[d] == s.routes[d])
            && (forall c :: c in s'.clients <==> c in s.clients && c !in closed)
            && (forall c :: c in s'.clients ==> s'.clients[c] == s.clients[c])
  {
    var s' := Reap(s, closed);
    if Bijective(s) {
      forall c | c in s'.clients
        ensures exists d :: d in s'.routes && s'.routes[d] == c
      {
        var d :| d in s.routes && s.routes[d] == c;
        assert s'.routes[d] == c;
      }
    }
  }

  // ---------- one connection ----------

  /** What handling a request did: the flows after it and the status sent, if sending worked. */
  datatype Handled = Handled(flows: Flows, status: Option<nat>)

  /** `handle_connect_request`; opening the target socket and sending the response may fail. */
  function HandleConnect(flows: Flows, rules: seq<Rules.Rule>, stream: nat, headers: seq<Request.Header>,
                         bindOk: bool, respondOk: bool, socket: nat, now: nat): Handled {
    var answer := (status: nat) => if respondOk then Some(status) else None;
    match Request.Read(headers)
    case Refused(status) => Handled(flows, answer(status))
    case Readable(authority, path) =>
      match Rules.MatchTarget(rules, authority, path)
      case None => Handled(flows, answer(404))
      case Some(rule) =>
        if !bindOk then Handled(flows, answer(502))
        else if !respondOk then Handled(flows - {stream / 4}, None)
        else Handled(flows[stream / 4 := Flow(socket, now, rule.idleTimeout)], Some(200))
  }

  /** A client datagram that reaches a live flow: the flow and the payload for its target. */
  function ToTarget(flows: Flows, wire: bytes): Option<(nat, bytes)> {
    match Dgram.Decode(wire)
    case None => None
    case Some(p) =>
      if p.contextId == Dgram.CONTEXT_ID_UDP && p.flowId in flows then Some((p.flowId, p.payload)) else None
  }

  /**
   * A datagram reaches a target exactly when it is two varints, minimal or not, for a live flow of
   * its own connection and for context 0, and a payload.
   */
  lemma ToTargetExact(flows: Flows, wire: bytes, f: nat, payload: bytes)
    ensures ToTarget(flows, wire) == Some((f, payload)) <==>
            f in flows && exists a, b :: Varint.Encodes(a, f) && Varint.Encodes(b, Dgram.CONTEXT_ID_UDP) &&
                                         wire == a + b + payload
  {
    hide Dgram.Decode, Varint.Encodes;
    Dgram.DecodeExact(wire, f, Dgram.CONTEXT_ID_UDP, payload);
  }

  /**
   * What a request gets. If the response can be sent: 200 and a flow exactly when it is readable,
   * some rule is for it and the target socket opens, the flow with the timeout of the first such
   * rule; 404 exactly when no rule is for it; and no refusal touches any flow. If it cannot be
   * sent, the request leaves no flow on its stream when one was opened for it, and else changes nothing.
   */
  lemma RequestOutcome(flows: Flows, rules: seq<Rules.Rule>, stream: nat, headers: seq<Request.Header>, bindOk: bool,
                       respondOk: bool, socket: nat, now: nat)
    ensures var h := HandleConnect(flows, rules, stream, headers, bindOk, respondOk, socket, now);
            var r := Request.Read(headers);
            var matched := r.Readable? && exists i :: 0 <= i < |rules| && Rules.Serves(rules[i], r.authority, r.path);
            && (h.status.Some? <==> respondOk)
            && (respondOk ==>
                  && (h.status.value == 200 <==> matched && bindOk)
                  && (h.status.value == 502 <==> matched && !bindOk)
                  && (h.status.value == 404 <==> r.Readable? && !matched)
                  && (r.Refused? <==> h.status.value in {400, 405, 501}) && (r.Refused? ==> h.status.value == r.status))
            && (!(matched && bindOk) ==> h.flows == flows)
            && (matched && bindOk ==> h.flows - {stream / 4} == flows - {stream / 4})
            && (matched && bindOk && !respondOk ==> stream / 4 !in h.flows)
            && (matched && bindOk && respondOk ==>
                  && stream / 4 in h.flows
                  && exists i: nat :: Rules.FirstServing(rules, r.authority, r.path, i) &&
                                      h.flows[stream / 4] == Flow(socket, now, rules[i].idleTimeout))
  {
    hide Rules.Serves, Rules.MatchTarget, Request.LastValue;
    var r := Request.Read(headers);
    if r.Readable? {
      Rules.MatchTargetIsFirst(rules, r.authority, r.path);
      if i :| 0 <= i < |rules| && Rules.Serves(rules[i], r.authority, r.path) {
        var j := Request.FirstIndex(rules, r.authority, r.path, i);
      }
    }
  }

  function Touch(flows: Flows, f: nat, now: nat): Flows {
    if f in flows then flows[f := flows[f].(lastActivity := now)] else flows
  }

  /** `duration_since` saturates at zero. */
  function Elapsed(now: nat, then_: nat): nat { if now >= then_ then now - then_ else 0 }

  predicate Expired(fl: Flow, now: nat) {
    fl.idleTimeout.Some? && Elapsed(now, fl.lastActivity) >= fl.idleTimeout.value
  }

  function ExpiredIn(flows: Flows, now: nat): set<nat> { set f | f in flows && Expired(flows[f], now) }

  // ---------- the server as a machine ----------

  datatype Event =
    | Accepted(dcid: bytes, scid: Scid)
    | Asked(scid: Scid, stream: nat, headers: seq<Request.Header>, bindOk: bool, respondOk: bool, socket: nat, now: nat)
    | StreamEnded(scid: Scid, stream: nat)
    | FromClient(scid: Scid, wire: bytes, now: nat)
    | FromTarget(scid: Scid, flow: nat, now: nat)
    | Swept(now: nat)
    | Reaped(closed: set<Scid>)
    | Reloaded(rules: seq<Rules.Rule>)

  /** A response sent, and a payload given to a target socket with the connection it came over. */
  datatype Answer = Answer(scid: Scid, stream: nat, status: nat)

  datatype Given = Given(socket: nat, payload: bytes, from: Scid)

  /** The server after an event, with the responses sent and the payloads given to targets. */
  datatype Effect = Effect(server: Server, answers: seq<Answer>, given: seq<Given>)

  function FlowsOf(s: Server, c: Scid): Flows { if c in s.clients then s.clients[c] else map[] }

  function WithFlows(s: Server, c: Scid, flows: Flows): Server {
    if c in s.clients then s.(clients := s.clients[c := flows]) else s
  }

  function SweepAll(clients: map<Scid, Flows>, now: nat): map<Scid, Flows> {
    map c | c in clients :: clients[c] - ExpiredIn(clients[c], now)
  }

  function OnAsked(s: Server, rules: seq<Rules.Rule>, c: Scid, stream: nat, headers: seq<Request.Header>, bindOk: bool,
                   respondOk: bool, socket: nat, now: nat): Effect {
    if c !in s.clients then Effect(s, [], [])
    else
      var h := HandleConnect(s.clients[c], rules, stream, headers, bindOk, respondOk, socket, now);
      Effect(WithFlows(s, c, h.flows), if h.status.Some? then [Answer(c, stream, h.status.value)] else [], [])
  }

  function OnDatagram(s: Server, c: Scid, wire: bytes, now: nat): Effect {
    var flows := FlowsOf(s, c);
    match ToTarget(flows, wire)
    case Some((f, payload)) =>
      Effect(WithFlows(s, c, Touch(flows, f, now)), [], if f in flows then [Given(flows[f].socket, payload, c)] else [])
    case None => Effect(s, [], [])
  }

  function Step(s: Server, rules: seq<Rules.Rule>, e: Event): Effect {
    match e
    case Accepted(dcid, scid) => Effect(Accept(s, dcid, scid), [], [])
    case Asked(c, stream, headers, bindOk, respondOk, socket, now) =>
      OnAsked(s, rules, c, stream, headers, bindOk, respondOk, socket, now)
    case StreamEnded(c, stream) => Effect(WithFlows(s, c, FlowsOf(s, c) - {stream / 4}), [], [])
    case FromClient(c, wire, now) => OnDatagram(s, c, wire, now)
    case FromTarget(c, f, now) => Effect(WithFlows(s, c, Touch(FlowsOf(s, c), f, now)), [], [])
    case Swept(now) => Effect(s.(clients := SweepAll(s.clients, now)), [], [])
    case Reaped(closed) => Effect(Reap(s, closed), [], [])
    case Reloaded(_) => Effect(s, [], [])
  }

  /** The connection an event is about, if it is about one. */
  function About(e: Event): Option<Scid> {
    match e
    case Asked(c, _, _, _, _, _, _) => Some(c)
    case StreamEnded(c, _) => Some(c)
    case FromClient(c, _, _) => Some(c)
    case FromTarget(c, _, _) => Some(c)
    case _ => None
  }

  /**
   * What an event leaves alone: other connections, other flows of its own connection, the set of
   * connections, the routes; a reload leaves everything.
   */
  lemma StepFrame(s: Server, rules: seq<Rules.Rule>, e: Event, c: Scid, f: nat)
    ensures var s' := Step(s, rules, e).server;
            && (e.Reloaded? ==> s' == s)
            && (e.Reaped? ==> forall d :: d in s'.clients <==> d in s.clients && d !in e.closed)
            && (!e.Accepted? && !e.Reaped? ==> s'.routes == s.routes && s'.clients.Keys == s.clients.Keys)
            && (About(e).Some? && About(e) != Some(c) ==> FlowsOf(s', c) == FlowsOf(s, c))
            && ((e.Asked? || e.StreamEnded?) && f != e.stream / 4 ==>
                  && (f in FlowsOf(s', c) <==> f in FlowsOf(s, c))
                  && (f in FlowsOf(s, c) ==> FlowsOf(s', c)[f] == FlowsOf(s, c)[f]))
            && (e.FromClient? || e.FromTarget? ==> FlowsOf(s', c).Keys == FlowsOf(s, c).Keys)
            && ((e.FromClient? || e.FromTarget?) && f in FlowsOf(s, c) ==>
                  FlowsOf(s', c)[f] == FlowsOf(s, c)[f].(lastActivity := FlowsOf(s', c)[f].lastActivity))
  {
    hide Rules.MatchTarget, Request.Read, Dgram.Decode, Accept, ExpiredIn;
  }

  // ---------- the machine with its past ----------

  /** Why a target socket was opened. */
  datatype Grant = Grant(scid: Scid, stream: nat, rules: seq<Rules.Rule>, authority: string, path: string,
                         decision: Rules.RuleMatch)

  /** A datagram, or the request itself, crossing flow `flow` of connection `scid`. */
  datatype Activity = Activity(scid: Scid, flow: nat, at: nat)

  /**
   * The server with its past: the installed rules and server-name list, every target socket ever
   * opened, every id ever used, all activity, and the time of the last event.
   */
  datatype World = World(server: Server, rules: seq<Rules.Rule>, sniHosts: seq<string>,
                         sockets: map<nat, Grant>, used: set<Scid>, activity: seq<Activity>, clock: nat)

  /** The grant a request leads to, if the target socket was opened for it. */
  function GrantFor(w: World, c: Scid, stream: nat, headers: seq<Request.Header>, bindOk: bool): Option<Grant> {
    match Request.Read(headers)
    case Refused(_) => None
    case Readable(authority, path) =>
      match Rules.MatchTarget(w.rules, authority, path)
      case None => None
      case Some(rule) =>
        if bindOk && c in w.server.clients then Some(Grant(c, stream, w.rules, authority, path, rule)) else None
  }

  /** The activity an event is, if it crosses a live flow or opens one. */
  function ActivityOf(w: World, e: Event): Option<Activity> {
    match e
    case Asked(c, stream, headers, bindOk, _, _, now) =>
      if GrantFor(w, c, stream, headers, bindOk).Some? then Some(Activity(c, stream / 4, now)) else None
    case FromClient(c, wire, now) =>
      (match ToTarget(FlowsOf(w.server, c), wire) case Some((f, _)) => Some(Activity(c, f, now)) case None => None)
    case FromTarget(c, f, now) => if f in FlowsOf(w.server, c) then Some(Activity(c, f, now)) else None
    case _ => None
  }

  function SocketsAfter(w: World, e: Event): map<nat, Grant> {
    match e
    case Asked(c, stream, headers, bindOk, _, socket, _) =>
      (match GrantFor(w, c, stream, headers, bindOk) case Some(g) => w.sockets[socket := g] case None => w.sockets)
    case _ => w.sockets
  }

  function TimeOf(e: Event): Option<nat> {
    match e
    case Asked(_, _, _, _, _, _, now) => Some(now)
    case FromClient(_, _, now) => Some(now)
    case FromTarget(_, _, now) => Some(now)
    case Swept(now) => Some(now)
    case _ => None
  }

  function Next(w: World, e: Event): World {
    var activity := match ActivityOf(w, e) case Some(a) => w.activity + [a] case None => w.activity;
    World(Step(w.server, w.rules, e).server,
          if e.Reloaded? then e.rules else w.rules,
          if e.Reloaded? then Rules.SniHosts(e.rules) else w.sniHosts,
          SocketsAfter(w, e),
          if e.Accepted? then w.used + {e.scid} else w.used,
          activity,
          if TimeOf(e).Some? then TimeOf(e).value else w.clock)
  }

  /**
   * What the environment guarantees: time does not run backwards, connection ids and socket
   * handles are fresh, requests come on client-initiated bidirectional streams (section 2.1 of
   * RFC 9000), and a connection is accepted only for a packet that routes nowhere.
   */
  ghost predicate Possible(w: World, e: Event) {
    && (e.Accepted? ==> RouteTo(w.server, e.dcid).None? && e.scid !in w.used)
    && (e.Asked? ==> e.stream % 4 == 0 && e.socket !in w.sockets)
    && (TimeOf(e).Some? ==> TimeOf(e).value >= w.clock)
  }

  function Boot(rules: seq<Rules.Rule>): World {
    World(Server(map[], map[]), rules, Rules.SniHosts(rules), map[], {}, [], 0)
  }

  function Run(rules: seq<Rules.Rule>, es: seq<Event>): World {
    if es == [] then Boot(rules) else Next(Run(rules, es[..|es| - 1]), es[|es| - 1])
  }

  ghost predicate Legal(rules: seq<Rules.Rule>, es: seq<Event>) {
    es == [] || (Legal(rules, es[..|es| - 1]) && Possible(Run(rules, es[..|es| - 1]), es[|es| - 1]))
  }

  // ---------- invariant over every run ----------

  /** The time of the last recorded activity on a flow. */
  function Last(acts: seq<Activity>, c: Scid, f: nat): Option<nat> {
    if acts == [] then None
    else
      var n := |acts| - 1;
      if acts[n].scid == c && acts[n].flow == f then Some(acts[n].at) else Last(acts[..n], c, f)
  }

  /**
   * A live flow's socket was granted to it by the first matching rule of the table of that moment,
   * and its timestamp is that of its last activity.
   */
  ghost predicate GoodFlow(w: World, c: Scid, f: nat) {
    c in w.server.clients && f in w.server.clients[c] ==>
      var fl := w.server.clients[c][f];
      && fl.socket in w.sockets
      && w.sockets[fl.socket].scid == c && w.sockets[fl.socket].stream == 4 * f
      && fl.idleTimeout == w.sockets[fl.socket].decision.idleTimeout
      && Last(w.activity, c, f) == Some(fl.lastActivity)
  }

  ghost predicate GoodGrant(g: Grant) {
    Rules.MatchTarget(g.rules, g.authority, g.path) == Some(g.decision) && g.stream % 4 == 0
  }

  ghost predicate GoodSocket(w: World, k: nat) {
    k in w.sockets ==> GoodGrant(w.sockets[k]) && w.sockets[k].scid in w.used
  }

  ghost predicate TimesOrdered(w: World) {
    && (forall i, j :: 0 <= i <= j < |w.activity| ==> w.activity[i].at <= w.activity[j].at)
    && (forall i :: 0 <= i < |w.activity| ==> w.activity[i].at <= w.clock)
  }

  ghost predicate Inv(w: World) {
    && Bijective(w.server)
    && w.server.clients.Keys <= w.used
    && w.sniHosts == Rules.SniHosts(w.rules)
    && TimesOrdered(w)
    && (forall c, f :: GoodFlow(w, c, f))
    && (forall k :: GoodSocket(w, k))
  }

  lemma LastOfAppend(acts: seq<Activity>, a: Activity, c: Scid, f: nat)
    ensures Last(acts + [a], c, f) == if a.scid == c && a.flow == f then Some(a.at) else Last(acts, c, f)
  {
    var all := acts + [a];
    assert all[..|all| - 1] == acts;
  }

  lemma {:induction false} LastIsLatest(w: World, acts: seq<Activity>, c: Scid, f: nat)
    requires acts <= w.activity && TimesOrdered(w)
    ensures forall i :: 0 <= i < |acts| && acts[i].scid == c && acts[i].flow == f ==>
            Last(acts, c, f).Some? && acts[i].at <= Last(acts, c, f).value
    ensures Last(acts, c, f).Some? ==> exists i :: 0 <= i < |acts| && acts[i] == Activity(c, f, Last(acts, c, f).value)
  {
    if acts != [] {
      var n := |acts| - 1;
      LastIsLatest(w, acts[..n], c, f);
      assert acts[n] == w.activity[n];
      if !(acts[n].scid == c && acts[n].flow == f) && Last(acts, c, f).Some? {
        var i :| 0 <= i < n && acts[..n][i] == Activity(c, f, Last(acts, c, f).value);
        assert acts[i] == acts[..n][i];
      }
    }
  }

  /** Changing one connection's flows touches nothing else that the routes speak of. */
  lemma WithFlowsRoutes(s: Server, c: Scid, flows: Flows)
    requires Bijective(s)
    ensures Bijective(WithFlows(s, c, flows))
    ensures WithFlows(s, c, flows).clients.Keys == s.clients.Keys
  {
  }

  lemma WithFlowsSame(s: Server, c: Scid)
    ensures WithFlows(s, c, FlowsOf(s, c)) == s
  {
    if c in s.clients {
      assert s.clients[c := s.clients[c]] == s.clients;
    }
  }

  lemma AcceptedKeepsInv(w: World, e: Event)
    requires Inv(w) && Possible(w, e) && e.Accepted?
    ensures Inv(Next(w, e))
  {
    hide Bijective, Last, TimesOrdered, Rules.SniHosts, GoodGrant;
    var w' := Next(w, e);
    AcceptRoutes(w.server, e.dcid, e.scid);
    SameTimes(w, w');
    forall c, f: nat ensures GoodFlow(w', c, f) { assert GoodFlow(w, c, f); }
    forall k: nat ensures GoodSocket(w', k) { assert GoodSocket(w, k); }
  }

  lemma SameTimes(w: World, w': World)
    requires TimesOrdered(w) && w'.activity == w.activity && w'.clock >= w.clock
    ensures TimesOrdered(w')
  {
  }

  lemma MoreTimes(w: World, w': World, a: Activity)
    requires TimesOrdered(w) && w'.activity == w.activity + [a] && a.at == w'.clock >= w.clock
    ensures TimesOrdered(w')
  {
  }

  /** Nothing but closing connections and flows. */
  ghost predicate Shrunk(s: Server, s': Server) {
    && s'.clients.Keys <= s.clients.Keys
    && forall c, f :: c in s'.clients && f in s'.clients[c] ==> f in s.clients[c] && s'.clients[c][f] == s.clients[c][f]
  }

  lemma ShrinkKeepsInv(w: World, w': World)
    requires Inv(w) && w'.clock >= w.clock && w' == w.(server := w'.server, clock := w'.clock)
    requires Bijective(w'.server) && Shrunk(w.server, w'.server)
    ensures Inv(w')
  {
    hide Bijective, Last, TimesOrdered, Rules.SniHosts, GoodGrant;
    SameTimes(w, w');
    forall c, f: nat ensures GoodFlow(w', c, f) { assert GoodFlow(w, c, f); }
    forall k: nat ensures GoodSocket(w', k) { assert GoodSocket(w, k); }
  }

  lemma ClockKeepsInv(w: World, now: nat)
    requires Inv(w) && now >= w.clock
    ensures Inv(w.(clock := now))
  {
    hide Bijective, GoodSocket, TimesOrdered;
    ShrinkKeepsInv(w, w.(clock := now));
  }

  /** A granted request: its socket is recorded, and the flow is in place unless the response failed. */
  function Granted(w: World, f: nat, g: Grant, socket: nat, now: nat, kept: bool): World {
    var flows := FlowsOf(w.server, g.scid);
    var flows' := if kept then flows[f := Flow(socket, now, g.decision.idleTimeout)] else flows - {f};
    w.(server := WithFlows(w.server, g.scid, flows'), sockets := w.sockets[socket := g],
       activity := w.activity + [Activity(g.scid, f, now)], clock := now)
  }

  lemma GrantedKeepsInv(w: World, f: nat, g: Grant, socket: nat, now: nat, kept: bool)
    requires Inv(w) && g.scid in w.server.clients && socket !in w.sockets && now >= w.clock
    requires GoodGrant(g) && g.stream == 4 * f
    ensures Inv(Granted(w, f, g, socket, now, kept))
  {
    hide Bijective, Last, TimesOrdered, Rules.SniHosts, GoodGrant;
    var w' := Granted(w, f, g, socket, now, kept);
    WithFlowsRoutes(w.server, g.scid, w'.server.clients[g.scid]);
    MoreTimes(w, w', Activity(g.scid, f, now));
    forall d, k: nat ensures GoodFlow(w', d, k) {
      assert GoodFlow(w, d, k);
      LastOfAppend(w.activity, Activity(g.scid, f, now), d, k);
    }
    forall k: nat ensures GoodSocket(w', k) { assert GoodSocket(w, k); }
  }

  /** A request grants a socket, or changes nothing but the time. */
  lemma AskedEffect(w: World, e: Event)
    requires e.Asked?
    ensures var g := GrantFor(w, e.scid, e.stream, e.headers, e.bindOk);
            Next(w, e) == if g.Some? then Granted(w, e.stream / 4, g.value, e.socket, e.now, e.respondOk)
                          else w.(clock := e.now)
  {
    hide Rules.MatchTarget, Request.Read, Rules.SniHosts;
    WithFlowsSame(w.server, e.scid);
  }

  lemma AskedKeepsInv(w: World, e: Event)
    requires Inv(w) && Possible(w, e) && e.Asked?
    ensures Inv(Next(w, e))
  {
    hide Inv, Next, Rules.MatchTarget, Request.Read;
    AskedEffect(w, e);
    var g := GrantFor(w, e.scid, e.stream, e.headers, e.bindOk);
    if g.Some? {
      GrantedKeepsInv(w, e.stream / 4, g.value, e.socket, e.now, e.respondOk);
    } else {
      ClockKeepsInv(w, e.now);
    }
  }

  /** A datagram crosses a live flow. */
  function Crossed(w: World, c: Scid, f: nat, now: nat): World {
    w.(server := WithFlows(w.server, c, Touch(FlowsOf(w.server, c), f, now)),
       activity := w.activity + [Activity(c, f, now)], clock := now)
  }

  lemma CrossedKeepsInv(w: World, c: Scid, f: nat, now: nat)
    requires Inv(w) && now >= w.clock && f in FlowsOf(w.server, c)
    ensures Inv(Crossed(w, c, f, now))
  {
    hide Bijective, Last, TimesOrdered, Rules.SniHosts, GoodGrant, NoDangling;
    var w' := Crossed(w, c, f, now);
    WithFlowsRoutes(w.server, c, Touch(FlowsOf(w.server, c), f, now));
    MoreTimes(w, w', Activity(c, f, now));
    forall d, g: nat ensures GoodFlow(w', d, g) {
      assert GoodFlow(w, d, g);
      LastOfAppend(w.activity, Activity(c, f, now), d, g);
    }
    forall k: nat ensures GoodSocket(w', k) { assert GoodSocket(w, k); }
  }

  lemma DatagramKeepsInv(w: World, e: Event)
    requires Inv(w) && Possible(w, e) && (e.FromClient? || e.FromTarget?)
    ensures Inv(Next(w, e))
  {
    hide Inv, Dgram.Decode, Rules.SniHosts;
    WithFlowsSame(w.server, e.scid);
    var a := ActivityOf(w, e);
    if a.Some? {
      CrossedKeepsInv(w, a.value.scid, a.value.flow, a.value.at);
      assert Next(w, e) == Crossed(w, a.value.scid, a.value.flow, a.value.at);
    } else {
      ClockKeepsInv(w, e.now);
      assert Next(w, e) == w.(clock := e.now);
    }
  }

  lemma SweptRoutes(s: Server, now: nat)
    requires Bijective(s)
    ensures Bijective(s.(clients := SweepAll(s.clients, now)))
    ensures Shrunk(s, s.(clients := SweepAll(s.clients, now)))
  {
  }

  lemma ClosingKeepsInv(w: World, e: Event)
    requires Inv(w) && Possible(w, e) && (e.StreamEnded? || e.Swept? || e.Reaped?)
    ensures Inv(Next(w, e))
  {
    hide GoodFlow, GoodSocket, Bijective, TimesOrdered, Rules.SniHosts, SweepAll;
    var w' := Next(w, e);
    match e {
      case StreamEnded(c, stream) => WithFlowsRoutes(w.server, c, FlowsOf(w.server, c) - {stream / 4});
      case Swept(now) => SweptRoutes(w.server, now);
      case Reaped(closed) => ReapRoutes(w.server, closed);
    }
    ShrinkKeepsInv(w, w');
  }

  lemma ReloadedKeepsInv(w: World, e: Event)
    requires Inv(w) && e.Reloaded?
    ensures Inv(Next(w, e))
  {
    hide Bijective, Last, TimesOrdered, Rules.SniHosts, GoodGrant;
    var w' := Next(w, e);
    SameTimes(w, w');
    forall c, f: nat ensures GoodFlow(w', c, f) { assert GoodFlow(w, c, f); }
    forall k: nat ensures GoodSocket(w', k) { assert GoodSocket(w, k); }
  }

  lemma StepKeepsInv(w: World, e: Event)
    requires Inv(w) && Possible(w, e)
    ensures Inv(Next(w, e))
  {
    hide Inv, Next, Possible;
    match e
    case Accepted(_, _) => AcceptedKeepsInv(w, e);
    case Asked(_, _, _, _, _, _, _) => AskedKeepsInv(w, e);
    case FromClient(_, _, _) => DatagramKeepsInv(w, e);
    case FromTarget(_, _, _) => DatagramKeepsInv(w, e);
    case Reloaded(_) => ReloadedKeepsInv(w, e);
    case _ => ClosingKeepsInv(w, e);
  }

  lemma {:induction false} RunKeepsInv(rules: seq<Rules.Rule>, es: seq<Event>)
    requires Legal(rules, es)
    ensures Inv(Run(rules, es))
  {
    hide Inv, Next, Possible;
    if es == [] {
      BootInv(rules);
    } else {
      var n := |es| - 1;
      RunKeepsInv(rules, es[..n]);
      StepKeepsInv(Run(rules, es[..n]), es[n]);
    }
  }

  lemma BootInv(rules: seq<Rules.Rule>)
    ensures Inv(Boot(rules))
  {
  }

  // ---------- what holds in every run ----------

  /**
   * Routing: in every reachable state a routed packet finds its connection, the routes pair one to
   * one with the connections, and the installed server-name list is the current rules' own.
   */
  lemma RoutingHolds(rules: seq<Rules.Rule>, es: seq<Event>, dcid: bytes)
    requires Legal(rules, es)
    ensures var w := Run(rules, es);
            && Bijective(w.server)
            && (RouteTo(w.server, dcid).Some? ==> RouteTo(w.server, dcid).value in w.server.clients)
            && w.sniHosts == Rules.SniHosts(w.rules)
  {
    hide Run, Legal, GoodFlow, GoodSocket, TimesOrdered, Rules.SniHosts;
    RunKeepsInv(rules, es);
  }

  /** A connection id is used once: a live one has been live ever since it was accepted. */
  lemma {:induction false} RouteStays(rules: seq<Rules.Rule>, es: seq<Event>, n: nat)
    requires Legal(rules, es) && n < |es| && es[n].Accepted? && es[n].scid in Run(rules, es).server.clients
    ensures es[n].dcid in Run(rules, es).server.routes && Run(rules, es).server.routes[es[n].dcid] == es[n].scid
  {
    hide Run, Legal, Next, Possible, Inv;
    var m := |es| - 1;
    var w, e, d, c := Run(rules, es[..m]), es[m], es[n].dcid, es[n].scid;
    LastStep(rules, es);
    RunKeepsInv(rules, es[..m]);
    if n < m {
      UsedStays(rules, es[..m], n);
      StepRoutes(w, e, d, c);
      RouteStays(rules, es[..m], n);
    } else {
      StepAccepts(w, e);
    }
  }

  lemma LastStep(rules: seq<Rules.Rule>, es: seq<Event>)
    requires es != [] && Legal(rules, es)
    ensures var m := |es| - 1;
            && Legal(rules, es[..m]) && Run(rules, es) == Next(Run(rules, es[..m]), es[m])
            && Possible(Run(rules, es[..m]), es[m])
  {
    hide Next, Possible;
  }

  lemma StepAccepts(w: World, e: Event)
    requires e.Accepted?
    ensures var w' := Next(w, e); e.dcid in w'.server.routes && w'.server.routes[e.dcid] == e.scid && e.scid in w'.used
  {
    hide ActivityOf, SocketsAfter, Rules.SniHosts;
  }

  /** A used id that is live after a step was live before it, and its route is not touched. */
  lemma StepRoutes(w: World, e: Event, d: bytes, c: Scid)
    requires Inv(w) && Possible(w, e) && c in w.used && c in Next(w, e).server.clients
    ensures c in w.server.clients && c in Next(w, e).used
    ensures d in w.server.routes && w.server.routes[d] == c ==>
            d in Next(w, e).server.routes && Next(w, e).server.routes[d] == c
  {
    hide ActivityOf, SocketsAfter, Rules.SniHosts, Inv, HandleConnect, ToTarget, ExpiredIn;
  }

  lemma {:induction false} UsedStays(rules: seq<Rules.Rule>, es: seq<Event>, n: nat)
    requires n < |es| && es[n].Accepted?
    ensures es[n].scid in Run(rules, es).used
  {
    hide Step, ActivityOf, SocketsAfter, Rules.SniHosts;
    if n < |es| - 1 {
      UsedStays(rules, es[..|es| - 1], n);
    }
  }

  /**
   * Over runs: as long as a connection lives, packets with its own id go to it, and so do packets
   * with the id its client first used, unless that id is the own id of another connection.
   */
  lemma PacketsFind(rules: seq<Rules.Rule>, es: seq<Event>, n: nat)
    requires Legal(rules, es) && n < |es| && es[n].Accepted? && es[n].scid in Run(rules, es).server.clients
    ensures RouteTo(Run(rules, es).server, es[n].scid) == Some(es[n].scid)
    ensures (forall c: Scid :: c in Run(rules, es).server.clients ==> c != es[n].dcid) ==>
            RouteTo(Run(rules, es).server, es[n].dcid) == Some(es[n].scid)
  {
    hide Run, Legal, RouteTo;
    RouteStays(rules, es, n);
    RouteExact(Run(rules, es).server, es[n].scid);
    RouteExact(Run(rules, es).server, es[n].dcid);
  }

  lemma NextRules(w: World, e: Event)
    ensures Next(w, e).rules == if e.Reloaded? then e.rules else w.rules
    ensures Next(w, e).sniHosts == if e.Reloaded? then Rules.SniHosts(e.rules) else w.sniHosts
  {
    hide Step, ActivityOf, SocketsAfter, Rules.SniHosts;
  }

  /** The rules in force, and the server-name list with them, are those of the last reload. */
  lemma {:induction false} RulesInForce(rules: seq<Rules.Rule>, es: seq<Event>, n: nat)
    requires n < |es| && es[n].Reloaded? && forall k :: n < k < |es| ==> !es[k].Reloaded?
    ensures Run(rules, es).rules == es[n].rules && Run(rules, es).sniHosts == Rules.SniHosts(es[n].rules)
  {
    hide Next, Rules.SniHosts;
    var m := |es| - 1;
    NextRules(Run(rules, es[..m]), es[m]);
    if n < m {
      assert !es[m].Reloaded?;
      RulesInForce(rules, es[..m], n);
    }
  }

  /** Before any reload they are the first ones. */
  lemma {:induction false} FirstRules(rules: seq<Rules.Rule>, es: seq<Event>)
    requires forall k :: 0 <= k < |es| ==> !es[k].Reloaded?
    ensures Run(rules, es).rules == rules && Run(rules, es).sniHosts == Rules.SniHosts(rules)
  {
    hide Next, Rules.SniHosts;
    if es != [] {
      var m := |es| - 1;
      NextRules(Run(rules, es[..m]), es[m]);
      FirstRules(rules, es[..m]);
    }
  }

  /** So the request after a reload is decided on the new rules. */
  lemma DecidedOnNewRules(rules: seq<Rules.Rule>, es: seq<Event>, newRules: seq<Rules.Rule>, e: Event)
    requires e.Asked?
    ensures var w := Run(rules, es + [Reloaded(newRules)]);
            && w.server == Run(rules, es).server
            && Step(w.server, w.rules, e) ==
               OnAsked(w.server, newRules, e.scid, e.stream, e.headers, e.bindOk, e.respondOk, e.socket, e.now)
  {
    hide Run, OnAsked, ActivityOf, SocketsAfter, Rules.SniHosts;
    RunNext(rules, es, Reloaded(newRules));
    NextRules(Run(rules, es), Reloaded(newRules));
  }

  /** No request on the stream of flow `f` since event `n`. */
  ghost predicate QuietSince(es: seq<Event>, n: nat, c: Scid, f: nat) {
    forall k :: n < k < |es| ==> !(es[k].Asked? && es[k].scid == c && es[k].stream / 4 == f)
  }

  /**
   * Over runs: when a stream ends its flow goes, and until the next request on that stream it stays
   * away and no datagram for it reaches a target.
   */
  lemma {:induction false} EndedStays(rules: seq<Rules.Rule>, es: seq<Event>, n: nat, c: Scid, f: nat)
    requires n < |es| && es[n].StreamEnded? && es[n].scid == c && es[n].stream / 4 == f && QuietSince(es, n, c, f)
    ensures f !in FlowsOf(Run(rules, es).server, c)
  {
    hide Step, ActivityOf, SocketsAfter, Rules.SniHosts;
    var m := |es| - 1;
    var w := Run(rules, es[..m]);
    if n < m {
      assert forall k :: 0 <= k < m ==> es[..m][k] == es[k];
      EndedStays(rules, es[..m], n, c, f);
    }
    StepAway(w.server, w.rules, es[m], c, f);
  }

  lemma StepAway(s: Server, rules: seq<Rules.Rule>, e: Event, c: Scid, f: nat)
    requires !(e.Asked? && e.scid == c && e.stream / 4 == f)
    ensures f !in FlowsOf(s, c) ==> f !in FlowsOf(Step(s, rules, e).server, c)
    ensures e.StreamEnded? && e.scid == c && e.stream / 4 == f ==> f !in FlowsOf(Step(s, rules, e).server, c)
  {
    hide Rules.MatchTarget, Request.Read, Dgram.Decode, ExpiredIn;
  }

  lemma EndedGetsNothing(rules: seq<Rules.Rule>, es: seq<Event>, n: nat, c: Scid, f: nat, wire: bytes, payload: bytes,
                         now: nat)
    requires n < |es| && es[n].StreamEnded? && es[n].scid == c && es[n].stream / 4 == f && QuietSince(es, n, c, f)
    requires exists a, b :: Varint.Encodes(a, f) && Varint.Encodes(b, Dgram.CONTEXT_ID_UDP) && wire == a + b + payload
    ensures var w := Run(rules, es); Step(w.server, w.rules, FromClient(c, wire, now)) == Effect(w.server, [], [])
  {
    hide Run, Varint.Encodes, Dgram.Decode;
    EndedStays(rules, es, n, c, f);
    var a, b :| Varint.Encodes(a, f) && Varint.Encodes(b, Dgram.CONTEXT_ID_UDP) && wire == a + b + payload;
    Dgram.FramedDecodes(a, b, f, Dgram.CONTEXT_ID_UDP, payload);
  }

  /** Sockets already opened keep their grant whatever comes later, reloads included. */
  lemma GrantsStay(w: World, e: Event, k: nat)
    requires Possible(w, e) && k in w.sockets
    ensures k in Next(w, e).sockets && Next(w, e).sockets[k] == w.sockets[k]
  {
    hide Step, ActivityOf, GrantFor, Rules.SniHosts;
  }

  lemma {:induction false} GrantsStayOverRuns(rules: seq<Rules.Rule>, es: seq<Event>, more: seq<Event>, k: nat)
    requires Legal(rules, es + more) && k in Run(rules, es).sockets
    ensures Legal(rules, es)
    ensures k in Run(rules, es + more).sockets && Run(rules, es + more).sockets[k] == Run(rules, es).sockets[k]
    decreases |more|
  {
    hide Next, Possible;
    if more == [] {
      assert es + more == es;
    } else {
      var n := |more| - 1;
      var all := es + more;
      assert all[..|all| - 1] == es + more[..n];
      GrantsStayOverRuns(rules, es, more[..n], k);
      GrantsStay(Run(rules, es + more[..n]), all[|all| - 1], k);
    }
  }

  /** Event `n` of the run is the request that opened socket `k`, under grant `g`. */
  ghost predicate OpenedBy(rules: seq<Rules.Rule>, es: seq<Event>, n: nat, k: nat, g: Grant) {
    && n < |es| && es[n].Asked? && es[n].socket == k && es[n].bindOk && es[n].scid == g.scid && es[n].stream == g.stream
    && Run(rules, es[..n]).rules == g.rules && Request.Read(es[n].headers) == Request.Readable(g.authority, g.path)
  }

  /** Every grant comes from a request of the run and names the table installed at that moment. */
  lemma {:induction false} GrantOrigin(rules: seq<Rules.Rule>, es: seq<Event>, k: nat)
    requires Legal(rules, es) && k in Run(rules, es).sockets
    ensures exists n: nat :: OpenedBy(rules, es, n, k, Run(rules, es).sockets[k])
  {
    hide Step, ActivityOf, Rules.SniHosts, Request.Read, Rules.MatchTarget;
    if es != [] {
      var m := |es| - 1;
      var w := Run(rules, es[..m]);
      if k in w.sockets {
        GrantOrigin(rules, es[..m], k);
        var n: nat :| OpenedBy(rules, es[..m], n, k, w.sockets[k]);
        assert es[..m][..n] == es[..n];
        GrantsStay(w, es[m], k);
        assert OpenedBy(rules, es, n, k, Run(rules, es).sockets[k]);
      } else {
        assert OpenedBy(rules, es, m, k, Run(rules, es).sockets[k]);
      }
    }
  }

  /**
   * Pinned forwarding: in every reachable state, a live flow's socket was opened by a request of the
   * run on the flow's own stream; its target and idle timeout are those of the first rule that
   * accepts the request in the table installed at that moment; no later event of the run changes
   * that record, and no query in the request could have.
   */
  lemma PinnedForwarding(rules: seq<Rules.Rule>, es: seq<Event>, more: seq<Event>, c: Scid, f: nat)
    requires Legal(rules, es + more)
    requires c in Run(rules, es).server.clients && f in Run(rules, es).server.clients[c]
    ensures var w := Run(rules, es);
            var fl := w.server.clients[c][f];
            && fl.socket in w.sockets
            && var g := w.sockets[fl.socket];
               && g.scid == c && g.stream == 4 * f && fl.idleTimeout == g.decision.idleTimeout
               && (exists n: nat :: OpenedBy(rules, es, n, fl.socket, g))
               && (exists i: nat :: Rules.FirstServing(g.rules, g.authority, g.path, i) &&
                                    g.decision.target == g.rules[i].target &&
                                    g.decision.transparent == g.rules[i].transparent &&
                                    g.decision.fwmark == g.rules[i].fwmark &&
                                    g.decision.idleTimeout == g.rules[i].idleTimeout)
               && (forall query :: Rules.MatchTarget(g.rules, g.authority, g.path + "?" + query) == Some(g.decision))
               && fl.socket in Run(rules, es + more).sockets && Run(rules, es + more).sockets[fl.socket] == g
  {
    hide Run, Legal, TimesOrdered, Bijective, Rules.MatchTarget, Last, Rules.FirstServing, OpenedBy;
    var w := Run(rules, es);
    LegalPrefix(rules, es, more);
    RunKeepsInv(rules, es);
    assert GoodFlow(w, c, f);
    var k := w.server.clients[c][f].socket;
    assert GoodSocket(w, k);
    var g := w.sockets[k];
    GrantOrigin(rules, es, k);
    Rules.MatchTargetIsFirst(g.rules, g.authority, g.path);
    var i: nat :| Rules.FirstServing(g.rules, g.authority, g.path, i);
    forall query ensures Rules.MatchTarget(g.rules, g.authority, g.path + "?" + query) == Some(g.decision) {
      Rules.MatchIgnoresQuery(g.rules, g.authority, g.path, query);
    }
    GrantsStayOverRuns(rules, es, more, k);
  }

  lemma {:induction false} LegalPrefix(rules: seq<Rules.Rule>, es: seq<Event>, more: seq<Event>)
    requires Legal(rules, es + more)
    ensures Legal(rules, es)
    decreases |more|
  {
    hide Next, Possible;
    if more == [] {
      assert es + more == es;
    } else {
      var all := es + more;
      assert all[..|all| - 1] == es + more[..|more| - 1];
      LegalPrefix(rules, es, more[..|more| - 1]);
    }
  }

  /**
   * In world `w` event `e` crosses flow `f` of connection `c` at time `t`: a datagram from the client
   * encoding the live flow and context 0, a payload from the live flow's target, or a request on the
   * flow's stream that some rule is for and whose target socket opens.
   */
  ghost predicate Crosses(w: World, e: Event, c: Scid, f: nat, t: nat) {
    match e
    case FromClient(d, wire, now) =>
      d == c && now == t && f in FlowsOf(w.server, c) &&
      exists a, b, payload :: Varint.Encodes(a, f) && Varint.Encodes(b, Dgram.CONTEXT_ID_UDP) && wire == a + b + payload
    case FromTarget(d, g, now) => d == c && now == t && g == f && f in FlowsOf(w.server, c)
    case Asked(d, stream, headers, bindOk, _, _, now) =>
      d == c && now == t && stream / 4 == f && c in w.server.clients && bindOk &&
      var r := Request.Read(headers);
      r.Readable? && exists i :: 0 <= i < |w.rules| && Rules.Serves(w.rules[i], r.authority, r.path)
    case _ => false
  }

  lemma ActivityExact(w: World, e: Event, c: Scid, f: nat, t: nat)
    ensures ActivityOf(w, e) == Some(Activity(c, f, t)) <==> Crosses(w, e, c, f, t)
  {
    hide Rules.Serves, Rules.MatchTarget, Request.Read, Varint.Encodes, ToTarget;
    match e {
      case FromClient(d, wire, now) =>
        var target := ToTarget(FlowsOf(w.server, d), wire);
        if target.Some? {
          ToTargetExact(FlowsOf(w.server, d), wire, target.value.0, target.value.1);
        }
        if Crosses(w, e, c, f, t) {
          var a, b, payload :|
            Varint.Encodes(a, f) && Varint.Encodes(b, Dgram.CONTEXT_ID_UDP) && wire == a + b + payload;
          ToTargetExact(FlowsOf(w.server, d), wire, f, payload);
        }
      case Asked(d, stream, headers, bindOk, _, _, now) =>
        var r := Request.Read(headers);
        if r.Readable? {
          Rules.MatchTargetIsFirst(w.rules, r.authority, r.path);
        }
      case _ =>
    }
  }

  /** Event `n` of the run crossed flow `f` of connection `c` at time `t`. */
  ghost predicate Crossing(rules: seq<Rules.Rule>, es: seq<Event>, n: nat, c: Scid, f: nat, t: nat) {
    n < |es| && Crosses(Run(rules, es[..n]), es[n], c, f, t)
  }

  lemma NextActivity(w: World, e: Event)
    ensures Next(w, e).activity == match ActivityOf(w, e) case Some(a) => w.activity + [a] case None => w.activity
  {
    hide Step, ActivityOf, Rules.SniHosts, SocketsAfter;
  }

  /** The recorded activity is exactly the events that cross flows. */
  lemma {:induction false} ActivityIsEvents(rules: seq<Rules.Rule>, es: seq<Event>, a: Activity)
    ensures a in Run(rules, es).activity <==> exists n: nat :: Crossing(rules, es, n, a.scid, a.flow, a.at)
  {
    hide ActivityOf, Next, Crosses;
    if es != [] {
      var m := |es| - 1;
      var w := Run(rules, es[..m]);
      NextActivity(w, es[m]);
      ActivityExact(w, es[m], a.scid, a.flow, a.at);
      ActivityIsEvents(rules, es[..m], a);
      forall n: nat | n < m
        ensures Crossing(rules, es, n, a.scid, a.flow, a.at) <==> Crossing(rules, es[..m], n, a.scid, a.flow, a.at)
      {
        assert es[..m][..n] == es[..n];
      }
      if a in w.activity {
        var n: nat :| Crossing(rules, es[..m], n, a.scid, a.flow, a.at);
        assert Crossing(rules, es, n, a.scid, a.flow, a.at);
      } else if ActivityOf(w, es[m]) == Some(a) {
        assert Crossing(rules, es, m, a.scid, a.flow, a.at);
      }
    }
  }

  /**
   * Idle sweep: a sweep at `now` closes a live flow if and only if it has a timeout and no event of
   * the run crossed it in either direction after `now` less that timeout; the others stay as they
   * were, nothing expired is left, and the stream shut down is the one that opened the flow.
   */
  lemma SweepExact(rules: seq<Rules.Rule>, es: seq<Event>, now: nat, c: Scid, f: nat)
    requires Legal(rules, es) && now >= Run(rules, es).clock
    requires c in Run(rules, es).server.clients && f in Run(rules, es).server.clients[c]
    ensures var w := Run(rules, es);
            var w' := Next(w, Swept(now));
            var fl := w.server.clients[c][f];
            && c in w'.server.clients
            && (f !in w'.server.clients[c] <==>
                  fl.idleTimeout.Some? &&
                  forall n: nat, t: nat :: Crossing(rules, es, n, c, f, t) ==> t + fl.idleTimeout.value <= now)
            && (f in w'.server.clients[c] ==> w'.server.clients[c][f] == fl && !Expired(fl, now))
            && fl.socket in w.sockets && w.sockets[fl.socket].stream == 4 * f
  {
    hide Run, Legal, Bijective, Rules.SniHosts, TimesOrdered, Last, Crossing;
    var w := Run(rules, es);
    RunKeepsInv(rules, es);
    assert GoodFlow(w, c, f);
    var fl := w.server.clients[c][f];
    LastIsLatest(w, w.activity, c, f);
    assert Activity(c, f, fl.lastActivity) in w.activity;
    ActivityIsEvents(rules, es, Activity(c, f, fl.lastActivity));
    var i :| 0 <= i < |w.activity| && w.activity[i] == Activity(c, f, fl.lastActivity);
    LastNotFuture(w, i);
    forall n: nat, t: nat | Crossing(rules, es, n, c, f, t) ensures t <= fl.lastActivity {
      ActivityIsEvents(rules, es, Activity(c, f, t));
      assert Activity(c, f, t) in w.activity;
    }
  }

  lemma LastNotFuture(w: World, i: nat)
    requires TimesOrdered(w) && i < |w.activity|
    ensures w.activity[i].at <= w.clock
  {
  }

  // ---------- the server object ----------

  /** One more event on top of what has been answered and given before. */
  function Then(x: Effect, rules: seq<Rules.Rule>, e: Event): Effect {
    var y := Step(x.server, rules, e);
    Effect(y.server, x.answers + y.answers, x.given + y.given)
  }

  function Steps(x: Effect, rules: seq<Rules.Rule>, es: seq<Event>): Effect {
    if es == [] then x else Then(Steps(x, rules, es[..|es| - 1]), rules, es[|es| - 1])
  }

  lemma StepsNext(x: Effect, rules: seq<Rules.Rule>, es: seq<Event>, e: Event)
    ensures Steps(x, rules, es + [e]) == Then(Steps(x, rules, es), rules, e)
  {
    hide Then;
    var all := es + [e];
    assert all[..|all| - 1] == es && all[|all| - 1] == e;
  }

  lemma ThenAsked(x: Effect, rules: seq<Rules.Rule>, e: Event)
    requires e.Asked? && e.scid in x.server.clients
    ensures var h := HandleConnect(x.server.clients[e.scid], rules, e.stream, e.headers, e.bindOk, e.respondOk,
                                   e.socket, e.now);
            Then(x, rules, e) ==
            Effect(x.server.(clients := x.server.clients[e.scid := h.flows]),
                   x.answers + (if h.status.Some? then [Answer(e.scid, e.stream, h.status.value)] else []), x.given)
  {
    hide HandleConnect;
    assert x.given + [] == x.given;
  }

  lemma ThenSwept(x: Effect, rules: seq<Rules.Rule>, now: nat)
    ensures Then(x, rules, Swept(now)) == x.(server := x.server.(clients := SweepAll(x.server.clients, now)))
  {
    hide SweepAll;
    assert x.given + [] == x.given && x.answers + [] == x.answers;
  }

  lemma {:induction false} StepsConcat(x: Effect, rules: seq<Rules.Rule>, a: seq<Event>, b: seq<Event>)
    ensures Steps(x, rules, a + b) == Steps(Steps(x, rules, a), rules, b)
  {
    hide Then;
    if b == [] {
      assert a + b == a;
    } else {
      var all := a + b;
      assert all[..|all| - 1] == a + b[..|b| - 1];
      StepsConcat(x, rules, a, b[..|b| - 1]);
    }
  }

  /** What the header of a received packet says. */
  datatype Packet = Packet(dcid: bytes, initial: bool, versionSupported: bool)

  /** An HTTP/3 event on one connection, with the outcomes of the system calls it leads to. */
  datatype H3Event =
    | Headers(stream: nat, headers: seq<Request.Header>, bindOk: bool, respondOk: bool, socket: nat, now: nat)
    | Ended(stream: nat)
    | Other

  /** The environment of one received packet. */
  datatype Env = Env(scid: Scid, acceptOk: bool, recvOk: bool, ready: bool, polled: seq<H3Event>, wires: seq<bytes>,
                     now: nat)

  function EventOf(c: Scid, e: H3Event): seq<Event> {
    match e
    case Headers(stream, headers, bindOk, respondOk, socket, now) =>
      [Asked(c, stream, headers, bindOk, respondOk, socket, now)]
    case Ended(stream) => [StreamEnded(c, stream)]
    case Other => []
  }

  function PolledEvents(c: Scid, es: seq<H3Event>): seq<Event> {
    if es == [] then [] else PolledEvents(c, es[..|es| - 1]) + EventOf(c, es[|es| - 1])
  }

  function DrainEvents(c: Scid, wires: seq<bytes>, now: nat): (es: seq<Event>)
    ensures |es| == |wires| && forall i :: 0 <= i < |wires| ==> es[i] == FromClient(c, wires[i], now)
  {
    seq(|wires|, i requires 0 <= i < |wires| => FromClient(c, wires[i], now))
  }

  function ProcessEvents(c: Scid, env: Env): seq<Event> {
    if env.recvOk && env.ready then PolledEvents(c, env.polled) + DrainEvents(c, env.wires, env.now) else []
  }

  /** A packet that routes nowhere opens a connection only as a supported Initial. */
  predicate Admissible(pkt: Packet, env: Env) { pkt.initial && pkt.versionSupported && env.acceptOk }

  /** Polled events in order, all of them but the ones without meaning here. */
  lemma {:induction false} PolledConcat(c: Scid, a: seq<H3Event>, b: seq<H3Event>)
    ensures PolledEvents(c, a + b) == PolledEvents(c, a) + PolledEvents(c, b)
    ensures forall e :: PolledEvents(c, [e]) == EventOf(c, e)
  {
    forall e ensures PolledEvents(c, [e]) == EventOf(c, e) {
      assert [e][..0] == [];
      assert PolledEvents(c, [e][..0]) == [];
    }
    if b == [] {
      assert a + b == a;
    } else {
      var n := |b| - 1;
      assert (a + b)[..|a + b| - 1] == a + b[..n] && (a + b)[|a + b| - 1] == b[n];
      PolledConcat(c, a, b[..n]);
    }
  }

  lemma NonePolled(c: Scid) ensures PolledEvents(c, []) == [] {}

  lemma PolledNext(c: Scid, es: seq<H3Event>, i: nat)
    requires i < |es|
    ensures PolledEvents(c, es[..i + 1]) == PolledEvents(c, es[..i]) + EventOf(c, es[i])
  {
    assert es[..i + 1][..i] == es[..i];
  }

  lemma ThenEnded(x: Effect, rules: seq<Rules.Rule>, c: Scid, stream: nat)
    requires c in x.server.clients
    ensures var flows := x.server.clients[c] - {stream / 4};
            Then(x, rules, StreamEnded(c, stream)) == x.(server := x.server.(clients := x.server.clients[c := flows]))
  {
    assert x.answers + [] == x.answers && x.given + [] == x.given;
  }

  lemma EndedPolled(x: Effect, rules: seq<Rules.Rule>, c: Scid, es: seq<H3Event>)
    requires c in x.server.clients
    ensures |es| == 1 && es[0].Ended? ==>
            var flows := x.server.clients[c] - {es[0].stream / 4};
            Steps(x, rules, PolledEvents(c, es)) == x.(server := x.server.(clients := x.server.clients[c := flows]))
  {
    hide Steps, Then, PolledEvents;
    if |es| == 1 && es[0].Ended? {
      NoSteps(x, rules);
      NonePolled(c);
      assert es[..0] == [] && [] + EventOf(c, es[0]) == EventOf(c, es[0]);
      PolledNext(c, es, 0);
      assert es[..1] == es;
      var e := StreamEnded(c, es[0].stream);
      StepsNext(x, rules, [], e);
      assert [] + [e] == [e];
      ThenEnded(x, rules, c, es[0].stream);
    }
  }

  /** The payloads that datagrams of connection `c` with these flows give to targets. */
  function Relayed(flows: Flows, c: Scid, wires: seq<bytes>): seq<Given> {
    if wires == [] then []
    else
      var n := |wires| - 1;
      Relayed(flows, c, wires[..n]) +
      (match ToTarget(flows, wires[n])
       case Some((f, payload)) => (if f in flows then [Given(flows[f].socket, payload, c)] else [])
       case None => [])
  }

  /** Datagrams are relayed one by one, in order. */
  lemma {:induction false} RelayedConcat(flows: Flows, c: Scid, a: seq<bytes>, b: seq<bytes>)
    ensures Relayed(flows, c, a + b) == Relayed(flows, c, a) + Relayed(flows, c, b)
    ensures Relayed(flows, c, []) == []
  {
    hide ToTarget;
    if b == [] {
      assert a + b == a;
    } else {
      var n := |b| - 1;
      assert (a + b)[..|a + b| - 1] == a + b[..n] && (a + b)[|a + b| - 1] == b[n];
      RelayedConcat(flows, c, a, b[..n]);
    }
  }

  /** One datagram gives its payload to the socket of the live flow it encodes with context 0, or nothing. */
  lemma RelayedOne(flows: Flows, c: Scid, wire: bytes, socket: nat, payload: bytes)
    ensures |Relayed(flows, c, [wire])| <= 1
    ensures Relayed(flows, c, [wire]) == [Given(socket, payload, c)] <==>
            exists f, a, b :: f in flows && flows[f].socket == socket && Varint.Encodes(a, f) &&
                              Varint.Encodes(b, Dgram.CONTEXT_ID_UDP) && wire == a + b + payload
  {
    hide ToTarget, Varint.Encodes;
    assert [wire][..0] == [];
    assert Relayed(flows, c, [wire][..0]) == [];
    var t := ToTarget(flows, wire);
    if t.Some? {
      ToTargetExact(flows, wire, t.value.0, t.value.1);
      var g, h := Given(flows[t.value.0].socket, t.value.1, c), Given(socket, payload, c);
      assert Relayed(flows, c, [wire]) == [g] && [g][0] == g && [h][0] == h;
    } else {
      assert Relayed(flows, c, [wire]) == [];
    }
    if f, a, b :| f in flows && flows[f].socket == socket && Varint.Encodes(a, f) &&
                  Varint.Encodes(b, Dgram.CONTEXT_ID_UDP) && wire == a + b + payload
    {
      ToTargetExact(flows, wire, f, payload);
    }
  }

  /** Draining gives exactly those payloads, and leaves every flow its socket. */
  lemma {:induction false} DrainGives(x: Effect, rules: seq<Rules.Rule>, c: Scid, wires: seq<bytes>, now: nat)
    ensures var y := Steps(x, rules, DrainEvents(c, wires, now));
            && y.given == x.given + Relayed(FlowsOf(x.server, c), c, wires) && y.answers == x.answers
            && SameSockets(FlowsOf(x.server, c), FlowsOf(y.server, c))
  {
    hide ToTarget;
    if wires == [] {
      assert x.given + [] == x.given;
    } else {
      var n := |wires| - 1;
      var es := DrainEvents(c, wires, now);
      assert es[..n] == DrainEvents(c, wires[..n], now);
      DrainGives(x, rules, c, wires[..n], now);
      var y := Steps(x, rules, es[..n]);
      OneDatagram(y, rules, c, wires[n], now);
      SameTarget(FlowsOf(x.server, c), FlowsOf(y.server, c), wires[n]);
      hide Then;
      var all, front := Relayed(FlowsOf(x.server, c), c, wires), Relayed(FlowsOf(x.server, c), c, wires[..n]);
      var last := all[|front|..];
      assert x.given + (front + last) == (x.given + front) + last;
    }
  }

  ghost predicate SameSockets(a: Flows, b: Flows) {
    a.Keys == b.Keys && forall f :: f in a ==> a[f].socket == b[f].socket
  }

  lemma SameTarget(a: Flows, b: Flows, wire: bytes)
    requires SameSockets(a, b)
    ensures ToTarget(a, wire) == ToTarget(b, wire)
    ensures ToTarget(a, wire).Some? ==> ToTarget(a, wire).value.0 in a
  {
    hide Dgram.Decode;
  }

  lemma OneDatagram(x: Effect, rules: seq<Rules.Rule>, c: Scid, wire: bytes, now: nat)
    ensures var y := Then(x, rules, FromClient(c, wire, now));
            var flows := FlowsOf(x.server, c);
            && y.answers == x.answers && SameSockets(flows, FlowsOf(y.server, c))
            && y.given == x.given +
               (match ToTarget(flows, wire)
                case Some((f, payload)) => (if f in flows then [Given(flows[f].socket, payload, c)] else [])
                case None => [])
  {
    hide ToTarget;
    assert x.answers + [] == x.answers;
  }

  lemma {:induction false} PolledGivesNothing(x: Effect, rules: seq<Rules.Rule>, c: Scid, polled: seq<H3Event>)
    ensures Steps(x, rules, PolledEvents(c, polled)).given == x.given
  {
    hide Then, Steps;
    NoSteps(x, rules);
    if polled != [] {
      var n := |polled| - 1;
      PolledGivesNothing(x, rules, c, polled[..n]);
      var before, e := PolledEvents(c, polled[..n]), EventOf(c, polled[n]);
      if e == [] {
        assert before + e == before;
      } else {
        assert before + e == before + [e[0]];
        StepsNext(x, rules, before, e[0]);
        GivesNothing(Steps(x, rules, before), rules, e[0]);
      }
    }
  }

  lemma GivesNothing(x: Effect, rules: seq<Rules.Rule>, e: Event)
    ensures e.Asked? || e.StreamEnded? ==> Then(x, rules, e).given == x.given
  {
    hide HandleConnect;
    assert x.given + [] == x.given;
  }

  /** The machine's events behind one received packet; one that does not parse is dropped. */
  function PacketEvents(s: Server, pkt: Option<Packet>, env: Env): seq<Event> {
    if pkt.None? then []
    else match RouteTo(s, pkt.value.dcid)
      case Some(c) => ProcessEvents(c, env)
      case None =>
        if Admissible(pkt.value, env) then [Accepted(pkt.value.dcid, env.scid)] + ProcessEvents(env.scid, env) else []
  }

  /** The proxy server; each method carries out events of the machine, whatever the environment does. */
  class ProxyServer {
    const config: Reload.ServerConfig
    var clients: map<Scid, Flows>
    var routes: map<bytes, Scid>
    /** Responses, target payloads, tunnel datagrams and stream shutdowns, in the order they were made. */
    var answers: seq<Answer>
    var given: seq<Given>
    var tunnel: seq<(Scid, bytes)>
    var shut: seq<(Scid, nat)>

    ghost function State(): Server reads this { Server(clients, routes) }

    ghost function View(): Effect reads this { Effect(State(), answers, given) }

    ghost predicate Valid() reads this { NoDangling(State()) }

    constructor (config: Reload.ServerConfig)
      ensures Valid() && View() == Effect(Server(map[], map[]), [], []) && this.config == config
    {
      this.config := config;
      clients, routes, answers, given, tunnel, shut := map[], map[], [], [], [], [];
    }

    /** Route, or accept, then receive and process; the connection looked up after routing is always there. */
    method OnPacket(pkt: Option<Packet>, env: Env)
      requires Valid()
      modifies this`clients, this`routes, this`answers, this`given
      ensures Valid() && View() == Steps(old(View()), config.rules, PacketEvents(old(State()), pkt, env))
      ensures Bijective(old(State())) && env.scid !in old(clients) ==> Bijective(State())
      ensures pkt.None? || !env.recvOk || !env.ready ==> answers == old(answers) && given == old(given)
      ensures pkt.Some? && RouteTo(old(State()), pkt.value.dcid).Some? && env.recvOk && env.ready ==>
                var c := RouteTo(old(State()), pkt.value.dcid).value;
                var polled := Steps(old(View()), config.rules, PolledEvents(c, env.polled));
                answers == polled.answers && given == old(given) + Relayed(FlowsOf(polled.server, c), c, env.wires)
    {
      hide Steps, PolledEvents, DrainEvents, Bijective, NoDangling, RouteTo, Relayed;
      NoSteps(View(), config.rules);
      if pkt.None? { return; }
      ghost var s := State();
      var key := RoutePacket(pkt.value, env);
      ghost var accepts := RouteTo(s, pkt.value.dcid).None? && key.Some?;
      ghost var first := if accepts then [Accepted(pkt.value.dcid, env.scid)] else [];
      ghost var rest := if key.Some? then ProcessEvents(key.value, env) else [];
      assert first + rest == PacketEvents(s, pkt, env);
      StepsConcat(old(View()), config.rules, first, rest);
      NoSteps(View(), config.rules);
      if key.None? { return; }
      if !env.recvOk { return; }
      ghost var admitted := State();
      ProcessClient(key.value, env);
      SameKeysRoutes(admitted, State());
    }

    /** Find the packet's connection, or accept one for it. */
    method RoutePacket(pkt: Packet, env: Env) returns (key: Option<Scid>)
      requires Valid()
      modifies this`clients, this`routes
      ensures Valid() && (key.Some? ==> key.value in clients)
      ensures forall c: Scid :: c in old(clients) && c == pkt.dcid ==> key == Some(c) && State() == old(State())
      ensures (forall c: Scid :: c in old(clients) ==> c != pkt.dcid) ==>
                if pkt.dcid in old(routes) then key == Some(old(routes)[pkt.dcid]) && State() == old(State())
                else if pkt.initial && pkt.versionSupported && env.acceptOk then
                  && key == Some(env.scid) && clients == old(clients)[env.scid := map[]]
                  && routes == old(routes)[pkt.dcid := env.scid]
                else key == None && State() == old(State())
      ensures RouteTo(old(State()), pkt.dcid).Some? ==>
              key == RouteTo(old(State()), pkt.dcid) && State() == old(State())
      ensures RouteTo(old(State()), pkt.dcid).None? ==>
                && key == (if Admissible(pkt, env) then Some(env.scid) else None)
                && View() == Steps(old(View()), config.rules,
                                   if Admissible(pkt, env) then [Accepted(pkt.dcid, env.scid)] else [])
      ensures Bijective(old(State())) && env.scid !in old(clients) ==> Bijective(State())
    {
      hide Steps, Bijective;
      NoSteps(View(), config.rules);
      StepsNext(View(), config.rules, [], Accepted(pkt.dcid, env.scid));
      assert [] + [Accepted(pkt.dcid, env.scid)] == [Accepted(pkt.dcid, env.scid)];
      var dcid := pkt.dcid;
      if |dcid| == LOCAL_CONN_ID_LEN && dcid in clients {
        return Some(dcid);
      }
      if dcid in routes {
        return Some(routes[dcid]);
      }
      if !pkt.initial { return None; }
      if !pkt.versionSupported { return None; }
      key := AcceptConnection(dcid, env.scid, env.acceptOk);
    }

    method AcceptConnection(dcid: bytes, scid: Scid, ok: bool) returns (r: Option<Scid>)
      requires Valid() && dcid !in routes
      modifies this`clients, this`routes
      ensures Valid()
      ensures ok ==> View() == Then(old(View()), config.rules, Accepted(dcid, scid)) && r == Some(scid)
      ensures ok ==> clients == old(clients)[scid := map[]] && routes == old(routes)[dcid := scid]
      ensures !ok ==> State() == old(State()) && r == None
      ensures ok && Bijective(old(State())) ==> (Bijective(State()) <==> scid !in old(clients))
    {
      if !ok { return None; }
      AcceptRoutes(State(), dcid, scid);
      clients := clients[scid := map[]];
      routes := routes[dcid := scid];
      r := Some(scid);
    }

    method ProcessClient(c: Scid, env: Env)
      requires c in clients && env.recvOk
      modifies this`clients, this`answers, this`given
      ensures View() == Steps(old(View()), config.rules, ProcessEvents(c, env))
      ensures clients.Keys == old(clients).Keys
      ensures !env.ready ==> View() == old(View())
      ensures env.ready ==>
                var polled := Steps(old(View()), config.rules, PolledEvents(c, env.polled));
                answers == polled.answers && given == old(given) + Relayed(FlowsOf(polled.server, c), c, env.wires)
    {
      hide Steps, PolledEvents, DrainEvents, Relayed;
      PolledGivesNothing(View(), config.rules, c, env.polled);
      NoSteps(View(), config.rules);
      if !env.ready { return; }
      StepsConcat(View(), config.rules, PolledEvents(c, env.polled), DrainEvents(c, env.wires, env.now));
      PollEvents(c, env.polled);
      DrainGives(View(), config.rules, c, env.wires, env.now);
      DrainClientDatagrams(c, env.wires, env.now);
    }

    /** The event loop of `process_client`. */
    method PollEvents(c: Scid, es: seq<H3Event>)
      requires c in clients
      modifies this`clients, this`answers
      ensures View() == Steps(old(View()), config.rules, PolledEvents(c, es)) && clients.Keys == old(clients).Keys
      ensures |es| == 1 && es[0].Ended? ==>
                clients == old(clients)[c := old(clients)[c] - {es[0].stream / 4}] && answers == old(answers)
    {
      hide Steps, Then, PolledEvents;
      NoSteps(View(), config.rules);
      NonePolled(c);
      EndedPolled(View(), config.rules, c, es);
      var i := 0;
      assert es[..0] == [];
      while i < |es|
        invariant 0 <= i <= |es|
        invariant View() == Steps(old(View()), config.rules, PolledEvents(c, es[..i]))
        invariant clients.Keys == old(clients).Keys
      {
        PolledNext(c, es, i);
        ghost var before := PolledEvents(c, es[..i]);
        if es[i].Other? {
          assert before + [] == before;
        } else {
          StepsNext(old(View()), config.rules, before, EventOf(c, es[i])[0]);
          PollOne(c, es[i]);
        }
        i := i + 1;
      }
      assert es[..i] == es;
    }

    method PollOne(c: Scid, e: H3Event)
      requires c in clients && !e.Other?
      modifies this`clients, this`answers
      ensures View() == Then(old(View()), config.rules, EventOf(c, e)[0]) && clients.Keys == old(clients).Keys
      ensures e.Ended? ==> clients == old(clients)[c := old(clients)[c] - {e.stream / 4}] && answers == old(answers)
      ensures e.Headers? ==>
                var h := HandleConnect(old(clients)[c], config.rules, e.stream, e.headers, e.bindOk, e.respondOk,
                                       e.socket, e.now);
                && clients == old(clients)[c := h.flows]
                && answers == old(answers) + (if h.status.Some? then [Answer(c, e.stream, h.status.value)] else [])
    {
      hide HandleConnect;
      if e.Headers? {
        HandleConnectRequest(c, e.stream, e.headers, e.bindOk, e.respondOk, e.socket, e.now);
      } else {
        clients := clients[c := clients[c] - {e.stream / 4}];
      }
    }

    method HandleConnectRequest(c: Scid, stream: nat, headers: seq<Request.Header>, bindOk: bool, respondOk: bool,
                                socket: nat, now: nat)
      requires c in clients
      modifies this`clients, this`answers
      ensures View() == Then(old(View()), config.rules, Asked(c, stream, headers, bindOk, respondOk, socket, now))
      ensures clients.Keys == old(clients).Keys
      ensures var h := HandleConnect(old(clients)[c], config.rules, stream, headers, bindOk, respondOk, socket, now);
              && clients == old(clients)[c := h.flows]
              && answers == old(answers) + (if h.status.Some? then [Answer(c, stream, h.status.value)] else [])
    {
      hide Rules.MatchTarget, Request.Read, Then;
      ThenAsked(View(), config.rules, Asked(c, stream, headers, bindOk, respondOk, socket, now));
      assert clients[c := clients[c]] == clients;
      var req := Request.Parse(headers);
      if req.Refused? {
        RespondStatus(c, stream, req.status, respondOk);
        return;
      }
      var rule := Rules.MatchTarget(config.rules, req.authority, req.path);
      if rule.None? {
        RespondStatus(c, stream, 404, respondOk);
        return;
      }
      if !bindOk {
        RespondStatus(c, stream, 502, respondOk);
        return;
      }
      var f: nat := stream / 4;
      var flows: Flows := clients[c];
      clients := clients[c := flows[f := Flow(socket, now, rule.value.idleTimeout)]];
      if respondOk {
        answers := answers + [Answer(c, stream, 200)];
      } else {
        clients := clients[c := clients[c] - {f}];
        assert clients[c] == flows - {f};
      }
    }

    method RespondStatus(c: Scid, stream: nat, status: nat, respondOk: bool)
      modifies this`answers
      ensures answers == old(answers) + (if respondOk then [Answer(c, stream, status)] else [])
    {
      if respondOk {
        answers := answers + [Answer(c, stream, status)];
      }
    }

    method DrainClientDatagrams(c: Scid, wires: seq<bytes>, now: nat)
      requires c in clients
      modifies this`clients, this`given
      ensures View() == Steps(old(View()), config.rules, DrainEvents(c, wires, now)) &&
              clients.Keys == old(clients).Keys
      ensures given == old(given) + Relayed(old(clients)[c], c, wires)
    {
      hide Steps, Then, Relayed;
      DrainGives(View(), config.rules, c, wires, now);
      NoSteps(View(), config.rules);
      ghost var es := DrainEvents(c, wires, now);
      var i := 0;
      assert es[..0] == [];
      while i < |wires|
        invariant 0 <= i <= |wires|
        invariant View() == Steps(old(View()), config.rules, es[..i]) && clients.Keys == old(clients).Keys
      {
        StepsNext(old(View()), config.rules, es[..i], es[i]);
        assert es[..i] + [es[i]] == es[..i + 1];
        DrainOne(c, wires[i], now);
        i := i + 1;
      }
      assert es[..i] == es;
    }

    method DrainOne(c: Scid, wire: bytes, now: nat)
      requires c in clients
      modifies this`clients, this`given
      ensures View() == Then(old(View()), config.rules, FromClient(c, wire, now)) && clients.Keys == old(clients).Keys
    {
      hide Dgram.Decode;
      var parsed := Dgram.Decode(wire);
      if parsed.Some? && parsed.value.contextId == Dgram.CONTEXT_ID_UDP {
        var f := parsed.value.flowId;
        var flows: Flows := clients[c];
        if f in flows {
          given := given + [Given(flows[f].socket, parsed.value.payload, c)];
          clients := clients[c := flows[f := flows[f].(lastActivity := now)]];
        }
      }
    }

    /** A target's payload goes into the tunnel of its connection, whether its flow still lives or not. */
    method OnTargetPayload(c: Scid, f: Varint.u64, payload: bytes, now: nat)
      modifies this`clients, this`tunnel
      ensures tunnel == if c in old(clients) then old(tunnel) + [(c, Dgram.Encode(f, payload))] else old(tunnel)
      ensures View() == Then(old(View()), config.rules, FromTarget(c, f, now))
    {
      if c in clients {
        tunnel := tunnel + [(c, Dgram.Encode(f, payload))];
        var flows: Flows := clients[c];
        assert clients[c := flows] == clients;
        if f in flows {
          clients := clients[c := flows[f := flows[f].(lastActivity := now)]];
        }
      }
    }

    /** Drop closed connections, in whatever order the map yields them, with the routes to them. */
    method ReapClosed(order: seq<Scid>, closed: set<Scid>)
      requires Valid() && forall c :: c in order <==> c in clients
      modifies this`clients, this`routes
      ensures View() == Then(old(View()), config.rules, Reaped(closed * old(clients).Keys))
      ensures forall c :: c in clients <==> c in old(clients) && c !in closed
      ensures forall c :: c in clients ==> clients[c] == old(clients)[c]
      ensures forall d :: d in routes <==> d in old(routes) && old(routes)[d] !in closed
      ensures forall d :: d in routes ==> routes[d] == old(routes)[d]
      ensures Valid() && (Bijective(old(State())) ==> Bijective(State()))
    {
      hide Bijective, NoDangling, Reap, ClosedIn, RetainRoutes;
      ghost var s0 := State();
      ReapRoutes(s0, closed * clients.Keys);
      var i := 0;
      ReapNone(s0, order, closed);
      while i < |order|
        invariant 0 <= i <= |order|
        invariant State() == Reap(s0, ClosedIn(order[..i], closed))
      {
        var c := order[i];
        ClosedInNext(order, closed, i);
        if c in closed {
          ReapOneMore(s0, ClosedIn(order[..i], closed), c);
          clients := clients - {c};
          routes := RetainRoutes(routes, c);
        }
        i := i + 1;
      }
      assert order[..i] == order;
      ClosedInAll(order, closed, old(clients).Keys);
      RoutesLive(s0);
    }

    /** Close every flow idle past its timeout, on every connection, in whatever order the maps yield them. */
    method SweepIdleFlows(order: seq<Scid>, ids: map<Scid, seq<nat>>, now: nat)
      requires Listing(order, clients.Keys) && ids.Keys == clients.Keys
      requires forall c :: c in clients ==> Listing(ids[c], clients[c].Keys)
      modifies this`clients, this`shut
      ensures View() == Then(old(View()), config.rules, Swept(now))
      ensures clients.Keys == old(clients).Keys
      ensures forall c :: c in clients ==> clients[c] == Unexpired(old(clients)[c], now)
      ensures shut == old(shut) + Shutdowns(old(clients), order, ids, now)
      ensures forall c: Scid, f: nat :: (c, 4 * f) in shut[|old(shut)|..] <==>
                c in old(clients) && f in old(clients)[c] && Expired(old(clients)[c][f], now)
    {
      hide SweepAll, Then, Unexpired, Shutdowns, Expired, Listing;
      ghost var all := clients;
      ThenSwept(View(), config.rules, now);
      SweptEach(all, now);
      AllShut(all, order, ids, now);
      SweepLoop(order, ids, now);
      assert shut[|old(shut)|..] == Shutdowns(all, order, ids, now);
    }

    method SweepLoop(order: seq<Scid>, ids: map<Scid, seq<nat>>, now: nat)
      requires Listing(order, clients.Keys) && ids.Keys == clients.Keys
      requires forall c :: c in clients ==> Listing(ids[c], clients[c].Keys)
      modifies this`clients, this`shut
      ensures clients == SweepAll(old(clients), now)
      ensures shut == old(shut) + Shutdowns(old(clients), order, ids, now)
    {
      hide SweepSome, ExpiredIn, ExpiredList, ShutStreams, SweepAll;
      ghost var all := clients;
      SweepNone(all, now);
      assert order[..0] == [];
      var i := 0;
      while i < |order|
        invariant 0 <= i <= |order|
        invariant clients == SweepSome(all, Elems(order[..i]), now)
        invariant shut == old(shut) + Shutdowns(all, order[..i], ids, now)
      {
        var c := order[i];
        assert order[..i + 1][..i] == order[..i];
        SweepOneMore(all, order, i, now);
        SweepConnection(c, ids[c], now);
        i := i + 1;
      }
      assert order[..i] == order;
      SweptEverywhere(all, order, now);
    }

    /** One connection: collect the expired flows, then remove each and shut its stream down. */
    method SweepConnection(c: Scid, ids: seq<nat>, now: nat)
      requires c in clients && Listing(ids, clients[c].Keys)
      modifies this`clients, this`shut
      ensures clients == old(clients)[c := old(clients)[c] - ExpiredIn(old(clients)[c], now)]
      ensures shut == old(shut) + ShutStreams(c, ExpiredList(old(clients)[c], ids, now))
    {
      var flows: Flows := clients[c];
      var expired: seq<nat> := [];
      var i := 0;
      while i < |ids|
        invariant 0 <= i <= |ids|
        invariant expired == ExpiredList(flows, ids[..i], now)
      {
        assert ids[..i + 1][..i] == ids[..i];
        if ids[i] in flows && Expired(flows[ids[i]], now) {
          expired := expired + [ids[i]];
        }
        i := i + 1;
      }
      assert ids[..i] == ids;
      ExpiredListExact(flows, ids, now);
      RemoveExpired(c, expired);
      assert flows - Elems(expired) == flows - ExpiredIn(flows, now);
    }

    method RemoveExpired(c: Scid, expired: seq<nat>)
      requires c in clients
      modifies this`clients, this`shut
      ensures clients == old(clients)[c := old(clients)[c] - Elems(expired)]
      ensures shut == old(shut) + ShutStreams(c, expired)
    {
      ghost var flows: Flows := clients[c];
      var i := 0;
      assert flows - Elems(expired[..0]) == flows;
      assert clients[c := flows] == clients;
      while i < |expired|
        invariant 0 <= i <= |expired|
        invariant clients == old(clients)[c := flows - Elems(expired[..i])]
        invariant shut == old(shut) + ShutStreams(c, expired)[..i]
      {
        ElemsNext(expired, i);
        assert flows - Elems(expired[..i + 1]) == (flows - Elems(expired[..i])) - {expired[i]};
        clients := clients[c := clients[c] - {expired[i]}];
        shut := shut + [(c, 4 * expired[i])];
        i := i + 1;
      }
      assert expired[..i] == expired;
    }
  }

  /** `order` lists the elements of `keys`, each once. */
  ghost predicate Listing<T(!new)>(order: seq<T>, keys: set<T>) {
    (forall x :: x in order <==> x in keys) && forall i, j :: 0 <= i < j < |order| ==> order[i] != order[j]
  }

  function ExpiredList(flows: Flows, ids: seq<nat>, now: nat): seq<nat> {
    if ids == [] then []
    else
      var n := |ids| - 1;
      ExpiredList(flows, ids[..n], now) + (if ids[n] in flows && Expired(flows[ids[n]], now) then [ids[n]] else [])
  }

  lemma {:induction false} ExpiredListExact(flows: Flows, ids: seq<nat>, now: nat)
    ensures forall f :: f in ExpiredList(flows, ids, now) <==> f in ids && f in ExpiredIn(flows, now)
  {
    if ids != [] {
      var n := |ids| - 1;
      ExpiredListExact(flows, ids[..n], now);
      assert ids == ids[..n] + [ids[n]];
    }
  }

  /** The request streams of flows. */
  function ShutStreams(c: Scid, fs: seq<nat>): (r: seq<(Scid, nat)>)
    ensures |r| == |fs| && forall i :: 0 <= i < |fs| ==> r[i] == (c, 4 * fs[i])
  {
    seq(|fs|, i requires 0 <= i < |fs| => (c, 4 * fs[i]))
  }

  function Shutdowns(clients: map<Scid, Flows>, order: seq<Scid>, ids: map<Scid, seq<nat>>, now: nat)
    : seq<(Scid, nat)>
  {
    if order == [] then []
    else
      var n := |order| - 1;
      Shutdowns(clients, order[..n], ids, now) +
      (if order[n] in clients && order[n] in ids then
         ShutStreams(order[n], ExpiredList(clients[order[n]], ids[order[n]], now))
       else [])
  }

  /** Flow `f` of a listed connection is shut down on its request stream exactly when it is listed and expired. */
  lemma {:induction false} ShutdownsExact(clients: map<Scid, Flows>, order: seq<Scid>, ids: map<Scid, seq<nat>>,
                                          now: nat, c: Scid, f: nat)
    ensures (c, 4 * f) in Shutdowns(clients, order, ids, now) <==>
            c in order && c in clients && c in ids && f in ids[c] && f in ExpiredIn(clients[c], now)
  {
    hide ExpiredIn, ExpiredList, ShutStreams;
    if order != [] {
      var n := |order| - 1;
      ShutdownsExact(clients, order[..n], ids, now, c, f);
      var d := order[n];
      if d in clients && d in ids {
        ExpiredListExact(clients[d], ids[d], now);
        ShutOf(d, ExpiredList(clients[d], ids[d], now), c, f);
      }
      assert c in order <==> c in order[..n] || c == d;
    }
  }

  lemma ShutOf(d: Scid, fs: seq<nat>, c: Scid, f: nat)
    ensures (c, 4 * f) in ShutStreams(d, fs) <==> c == d && f in fs
  {
    if c == d && f in fs {
      var i :| 0 <= i < |fs| && fs[i] == f;
      assert ShutStreams(d, fs)[i] == (c, 4 * f);
    }
  }

  lemma AllShut(clients: map<Scid, Flows>, order: seq<Scid>, ids: map<Scid, seq<nat>>, now: nat)
    requires Listing(order, clients.Keys) && ids.Keys == clients.Keys
    requires forall c :: c in clients ==> Listing(ids[c], clients[c].Keys)
    ensures forall c: Scid, f: nat :: (c, 4 * f) in Shutdowns(clients, order, ids, now) <==>
              c in clients && f in clients[c] && Expired(clients[c][f], now)
  {
    hide Shutdowns, ExpiredIn, Listing;
    forall c: Scid, f: nat
      ensures (c, 4 * f) in Shutdowns(clients, order, ids, now) <==>
              c in clients && f in clients[c] && Expired(clients[c][f], now)
    {
      ShutdownsExact(clients, order, ids, now, c, f);
      ListedExpired(clients, order, ids, now, c, f);
    }
  }

  lemma ListedExpired(clients: map<Scid, Flows>, order: seq<Scid>, ids: map<Scid, seq<nat>>, now: nat, c: Scid, f: nat)
    requires Listing(order, clients.Keys) && ids.Keys == clients.Keys
    requires forall c :: c in clients ==> Listing(ids[c], clients[c].Keys)
    ensures c in order && c in clients && c in ids && f in ids[c] && f in ExpiredIn(clients[c], now) <==>
            c in clients && f in clients[c] && Expired(clients[c][f], now)
  {
    if c in clients {
      assert c in clients.Keys && Listing(ids[c], clients[c].Keys);
      assert f in clients[c] <==> f in clients[c].Keys;
    }
  }

  function Elems<T>(s: seq<T>): set<T> { set x | x in s }

  lemma ElemsNext<T>(s: seq<T>, i: nat)
    requires i < |s|
    ensures Elems(s[..i + 1]) == Elems(s[..i]) + {s[i]}
  {
    assert s[..i + 1] == s[..i] + [s[i]];
  }

  /** A sweep of the connections in `done` only. */
  ghost function SweepSome(clients: map<Scid, Flows>, done: set<Scid>, now: nat): map<Scid, Flows> {
    map c | c in clients :: if c in done then clients[c] - ExpiredIn(clients[c], now) else clients[c]
  }

  lemma SweepNone(clients: map<Scid, Flows>, now: nat)
    ensures SweepSome(clients, Elems([]), now) == clients
  {
    hide ExpiredIn;
  }

  lemma SweepOneMore(clients: map<Scid, Flows>, order: seq<Scid>, i: nat, now: nat)
    requires Listing(order, clients.Keys) && i < |order|
    ensures var t := SweepSome(clients, Elems(order[..i]), now);
            && order[i] in clients && order[i] in t && t[order[i]] == clients[order[i]] && t.Keys == clients.Keys
            && SweepSome(clients, Elems(order[..i + 1]), now) ==
               t[order[i] := clients[order[i]] - ExpiredIn(clients[order[i]], now)]
  {
    hide ExpiredIn;
    ElemsNext(order, i);
    assert order[i] in clients.Keys && order[i] !in order[..i];
  }

  /** The flows without a timeout, and those whose last activity is less than their timeout ago. */
  function Unexpired(flows: Flows, now: nat): Flows {
    map f | f in flows &&
            (flows[f].idleTimeout.None? ||
             (flows[f].idleTimeout.value > 0 && now < flows[f].lastActivity + flows[f].idleTimeout.value)) :: flows[f]
  }

  lemma SweptEach(clients: map<Scid, Flows>, now: nat)
    ensures SweepAll(clients, now).Keys == clients.Keys
    ensures forall c :: c in clients ==> SweepAll(clients, now)[c] == Unexpired(clients[c], now)
  {
    forall c | c in clients ensures SweepAll(clients, now)[c] == Unexpired(clients[c], now) {
      forall f | f in clients[c]
        ensures Expired(clients[c][f], now) <==> f !in Unexpired(clients[c], now)
      {
      }
    }
  }

  lemma SweptEverywhere(clients: map<Scid, Flows>, order: seq<Scid>, now: nat)
    requires Listing(order, clients.Keys)
    ensures SweepSome(clients, Elems(order), now) == SweepAll(clients, now)
  {
    hide ExpiredIn;
  }

  lemma RoutesLive(s: Server)
    requires NoDangling(s)
    ensures forall d :: d in s.routes ==> s.routes[d] in s.clients.Keys
  {
  }

  lemma ReapNone(s: Server, order: seq<Scid>, closed: set<Scid>)
    ensures s == Reap(s, ClosedIn(order[..0], closed))
  {
    assert ClosedIn(order[..0], closed) == {};
    assert s.clients - {} == s.clients;
  }

  lemma ClosedInAll(order: seq<Scid>, closed: set<Scid>, keys: set<Scid>)
    requires forall c :: c in order <==> c in keys
    ensures ClosedIn(order, closed) == closed * keys
  {
  }

  /** Those of `order` that are closed. */
  ghost function ClosedIn(order: seq<Scid>, closed: set<Scid>): set<Scid> { set c | c in order && c in closed }

  lemma ClosedInNext(order: seq<Scid>, closed: set<Scid>, i: nat)
    requires i < |order|
    ensures ClosedIn(order[..i + 1], closed) ==
            if order[i] in closed then ClosedIn(order[..i], closed) + {order[i]} else ClosedIn(order[..i], closed)
  {
    assert order[..i + 1] == order[..i] + [order[i]];
  }

  /** The routes that do not lead to `c`. */
  function RetainRoutes(routes: map<bytes, Scid>, c: Scid): map<bytes, Scid> {
    map d | d in routes && routes[d] != c :: routes[d]
  }

  lemma ReapOneMore(s: Server, gone: set<Scid>, c: Scid)
    ensures var t := Reap(s, gone);
            Reap(s, gone + {c}) == Server(t.clients - {c}, RetainRoutes(t.routes, c))
  {
    var t := Reap(s, gone);
    assert s.clients - (gone + {c}) == t.clients - {c};
  }

  /** Routes only depend on which connections exist. */
  lemma SameKeysRoutes(s: Server, s': Server)
    requires s'.routes == s.routes && s'.clients.Keys == s.clients.Keys
    ensures NoDangling(s) <==> NoDangling(s')
    ensures Bijective(s) <==> Bijective(s')
  {
    assert forall c :: c in s.clients <==> c in s'.clients;
  }

  lemma NoSteps(x: Effect, rules: seq<Rules.Rule>)
    ensures Steps(x, rules, []) == x
  {
  }

  // ---------- what the object does is a run ----------

  lemma RunNext(rules: seq<Rules.Rule>, es: seq<Event>, e: Event)
    ensures Run(rules, es + [e]) == Next(Run(rules, es), e)
    ensures Legal(rules, es) && Possible(Run(rules, es), e) ==> Legal(rules, es + [e])
  {
    hide Next, Possible;
    var all := es + [e];
    assert all[..|all| - 1] == es && all[|all| - 1] == e;
  }

  /** Over events that are not reloads, the machine's run and the object's steps stay together. */
  lemma {:induction false} RunIsSteps(rules: seq<Rules.Rule>, es: seq<Event>, x: Effect, more: seq<Event>)
    requires x.server == Run(rules, es).server && forall e :: e in more ==> !e.Reloaded?
    ensures Run(rules, es + more).rules == Run(rules, es).rules
    ensures Run(rules, es + more).server == Steps(x, Run(rules, es).rules, more).server
    decreases |more|
  {
    hide Run, Step, ActivityOf, SocketsAfter;
    if more == [] {
      assert es + more == es;
    } else {
      var n := |more| - 1;
      assert es + more == es + more[..n] + [more[n]];
      RunIsSteps(rules, es, x, more[..n]);
      RunNext(rules, es + more[..n], more[n]);
    }
  }

  /** What polling tells: requests on client-initiated streams, fresh sockets, times in order up to `limit`. */
  ghost predicate FairPolled(w: World, polled: seq<H3Event>, limit: nat) {
    && w.clock <= limit
    && (forall i :: 0 <= i < |polled| && polled[i].Headers? ==>
          polled[i].stream % 4 == 0 && polled[i].socket !in w.sockets && w.clock <= polled[i].now <= limit)
    && (forall i, j :: 0 <= i < j < |polled| && polled[i].Headers? && polled[j].Headers? ==>
          polled[i].socket != polled[j].socket && polled[i].now <= polled[j].now)
  }

  /** The sockets and the time after some polled events are the old ones or come from those events. */
  ghost predicate PolledSoFar(w: World, w': World, polled: seq<H3Event>) {
    && (forall k :: k in w'.sockets ==>
          k in w.sockets || exists i :: 0 <= i < |polled| && polled[i].Headers? && polled[i].socket == k)
    && (w'.clock == w.clock || exists i :: 0 <= i < |polled| && polled[i].Headers? && polled[i].now == w'.clock)
  }

  lemma {:induction false} PolledLegal(rules: seq<Rules.Rule>, es: seq<Event>, c: Scid, polled: seq<H3Event>,
                                       limit: nat)
    requires Legal(rules, es) && FairPolled(Run(rules, es), polled, limit)
    ensures Legal(rules, es + PolledEvents(c, polled))
    ensures PolledSoFar(Run(rules, es), Run(rules, es + PolledEvents(c, polled)), polled)
  {
    hide Run, Legal, Next;
    if polled == [] {
      assert es + [] == es;
    } else {
      var n := |polled| - 1;
      var front := polled[..n];
      PolledLegal(rules, es, c, front, limit);
      var before := es + PolledEvents(c, front);
      assert es + PolledEvents(c, polled) == before + EventOf(c, polled[n]);
      PolledOne(Run(rules, es), Run(rules, before), c, polled, limit);
      if polled[n] == Other {
        assert before + [] == before;
      } else {
        RunNext(rules, before, EventOf(c, polled[n])[0]);
      }
    }
  }

  lemma PolledOne(w: World, w': World, c: Scid, polled: seq<H3Event>, limit: nat)
    requires polled != [] && FairPolled(w, polled, limit) && PolledSoFar(w, w', polled[..|polled| - 1])
    ensures var e := polled[|polled| - 1];
            if e == Other then PolledSoFar(w, w', polled)
            else Possible(w', EventOf(c, e)[0]) && PolledSoFar(w, Next(w', EventOf(c, e)[0]), polled)
  {
    hide Step, ActivityOf, GrantFor;
    var n := |polled| - 1;
    forall k | k in w'.sockets
      ensures k in w.sockets || exists i :: 0 <= i < n && polled[i].Headers? && polled[i].socket == k
    {
      if k !in w.sockets {
        var i :| 0 <= i < n && polled[..n][i].Headers? && polled[..n][i].socket == k;
        assert polled[i] == polled[..n][i];
      }
    }
    if w'.clock != w.clock {
      var i :| 0 <= i < n && polled[..n][i].Headers? && polled[..n][i].now == w'.clock;
      assert polled[i] == polled[..n][i];
    }
  }

  lemma {:induction false} DrainLegal(rules: seq<Rules.Rule>, es: seq<Event>, c: Scid, wires: seq<bytes>, now: nat)
    requires Legal(rules, es) && Run(rules, es).clock <= now
    ensures Legal(rules, es + DrainEvents(c, wires, now)) && Run(rules, es + DrainEvents(c, wires, now)).clock <= now
  {
    hide Run, Legal, Step, ActivityOf, SocketsAfter;
    if wires == [] {
      assert es + DrainEvents(c, wires, now) == es;
    } else {
      var n := |wires| - 1;
      DrainLegal(rules, es, c, wires[..n], now);
      assert es + DrainEvents(c, wires, now) == es + DrainEvents(c, wires[..n], now) + [FromClient(c, wires[n], now)];
      RunNext(rules, es + DrainEvents(c, wires[..n], now), FromClient(c, wires[n], now));
    }
  }

  lemma ProcessLegal(rules: seq<Rules.Rule>, es: seq<Event>, c: Scid, env: Env)
    requires Legal(rules, es) && FairPolled(Run(rules, es), env.polled, env.now)
    ensures Legal(rules, es + ProcessEvents(c, env))
  {
    hide Run, Legal, PolledEvents, DrainEvents;
    var polled, drained := PolledEvents(c, env.polled), DrainEvents(c, env.wires, env.now);
    if env.recvOk && env.ready {
      PolledLegal(rules, es, c, env.polled, env.now);
      DrainLegal(rules, es + polled, c, env.wires, env.now);
      assert es + polled + drained == es + ProcessEvents(c, env);
    } else {
      assert es + [] == es;
    }
  }

  lemma {:induction false} PolledNoReload(c: Scid, polled: seq<H3Event>)
    ensures forall e :: e in PolledEvents(c, polled) ==> !e.Reloaded?
  {
    if polled != [] {
      PolledNoReload(c, polled[..|polled| - 1]);
    }
  }

  /**
   * Handling a packet continues the run: with a fresh connection id, fresh sockets, client streams
   * and time in order, the events of any packet after any legal run make a legal run, and the
   * object is in its state. So what holds in every run holds of the object.
   */
  lemma PacketIsRun(rules: seq<Rules.Rule>, es: seq<Event>, x: Effect, pkt: Option<Packet>, env: Env)
    requires Legal(rules, es) && x.server == Run(rules, es).server
    requires env.scid !in Run(rules, es).used && FairPolled(Run(rules, es), env.polled, env.now)
    ensures var more := PacketEvents(x.server, pkt, env);
            && Legal(rules, es + more) && Run(rules, es + more).rules == Run(rules, es).rules
            && Run(rules, es + more).server == Steps(x, Run(rules, es).rules, more).server
  {
    hide Run, Legal, PolledEvents, Steps, FairPolled;
    var more := PacketEvents(x.server, pkt, env);
    var route := if pkt.Some? then RouteTo(x.server, pkt.value.dcid) else None;
    var c := if route.Some? then route.value else env.scid;
    PolledNoReload(c, env.polled);
    RunIsSteps(rules, es, x, more);
    assert es + [] == es;
    if pkt.Some? && route.None? && Admissible(pkt.value, env) {
      var e := Accepted(pkt.value.dcid, env.scid);
      RunNext(rules, es, e);
      AcceptedFair(Run(rules, es), e, env.polled, env.now);
      ProcessLegal(rules, es + [e], c, env);
      assert es + [e] + ProcessEvents(c, env) == es + more;
    } else if route.Some? {
      ProcessLegal(rules, es, c, env);
    }
  }

  lemma AcceptedFair(w: World, e: Event, polled: seq<H3Event>, limit: nat)
    requires e.Accepted? && FairPolled(w, polled, limit)
    ensures FairPolled(Next(w, e), polled, limit)
  {
    hide Step, Rules.SniHosts;
  }
}
