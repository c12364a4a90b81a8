/**
 * Clients, network and server composed.
 *
 * Any number of sessions of the modelled client and any number of strangers talk to one server.
 * The network may lose, reorder and repeat datagrams and stream messages, but it does not invent
 * them: a session's datagrams are encodings of what it handed to the tunnel, its requests are on
 * the streams it opened, its answers are ones the server sent. Strangers send what they like.
 * What is in flight is everything sent so far; losing a message is never delivering it.
 */
module Tunnel {
  import opened Common
  import Client
  import Server
  import Dgram
  import Request
  import Rules

  /** Stream ids are below 2^62 (section 2.1 of RFC 9000). */
  const STREAM_LIMIT: nat := 0x4000_0000_0000_0000

  /** One client session: its state and past, every local datagram it got, and its connection once established. */
  datatype Link = Link(hist: Client.History, arrived: set<(SocketAddr, bytes)>, scid: Option<Server.Scid>,
                       authority: string, path: string)

  /** Who is at the other end of an established connection. */
  datatype Party = Peer(session: nat) | Stranger

  /** A target's payload on its way back, tagged by the relay of the socket it came from. */
  datatype Reply = Reply(scid: Server.Scid, flow: nat, payload: bytes, socket: nat)

  /** A payload delivered to a local source, and the target socket it was received on. */
  datatype Delivery = Delivery(session: nat, src: SocketAddr, payload: bytes, socket: nat)

  datatype System = System(
    world: Server.World,
    links: map<nat, Link>,
    party: map<Server.Scid, Party>,
    answers: set<Server.Answer>,
    received: set<(nat, bytes)>,  // what each target socket received
    replies: set<Reply>,          // queued for the server's main loop
    tunnelled: set<Reply>,        // sent into a connection
    given: set<Server.Given>,
    delivered: set<Delivery>)

  datatype Step =
    | Dial(k: nat, authority: string, path: string)
    | Establish(c: Server.Scid, with: Party)
    | ClientSees(k: nat, clientEvent: Client.Event)
    | ServerSees(serverEvent: Server.Event)
    | TargetSends(socket: nat, payload: bytes)
    | ServerForwards(r: Reply, now: nat)
    | ClientGets(k: nat, r: Reply)

  // ---------- steps ----------

  function ClientStep(l: Link, e: Client.Event): Link {
    l.(hist := Client.Next(l.hist, e), arrived := if e.Local? then l.arrived + {(e.src, e.data)} else l.arrived)
  }

  function ServerStep(s: System, e: Server.Event): System {
    var x := Server.Step(s.world.server, s.world.rules, e);
    s.(world := Server.Next(s.world, e), answers := s.answers + Server.Elems(x.answers),
       given := s.given + Server.Elems(x.given))
  }

  /** A relayed datagram as bytes; ids from 2^64 up do not occur. */
  function Wire(flow: nat, payload: bytes): bytes {
    if flow < 0x1_0000_0000_0000_0000 then Dgram.Encode(flow, payload) else []
  }

  function Forward(s: System, r: Reply, now: nat): (s': System)
    ensures s' == s.(world := s'.world, tunnelled := s'.tunnelled)
  {
    var s' := s.(world := Server.Next(s.world, Server.FromTarget(r.scid, r.flow, now)));
    if r.scid in s.world.server.clients then s'.(tunnelled := s.tunnelled + {r}) else s'
  }

  function Deliver(s: System, k: nat, r: Reply): (s': System)
    ensures s' == s.(delivered := s'.delivered)
  {
    if k !in s.links then s
    else match Client.Route(s.links[k].hist.maps.flows, Wire(r.flow, r.payload))
      case Some((src, payload)) => s.(delivered := s.delivered + {Delivery(k, src, payload, r.socket)})
      case None => s
  }

  function Next(s: System, t: Step): System {
    match t
    case Dial(k, authority, path) => s.(links := s.links[k := Link(Client.START, {}, None, authority, path)])
    case Establish(c, with) =>
      var s' := s.(party := s.party[c := with]);
      if with.Peer? && with.session in s.links then
        s'.(links := s.links[with.session := s.links[with.session].(scid := Some(c))])
      else s'
    case ClientSees(k, e) => if k in s.links then s.(links := s.links[k := ClientStep(s.links[k], e)]) else s
    case ServerSees(e) => ServerStep(s, e)
    case TargetSends(socket, payload) =>
      if socket in s.world.sockets then
        var g := s.world.sockets[socket];
        s.(received := s.received + {(socket, payload)},
           replies := s.replies + {Reply(g.scid, g.stream / 4, payload, socket)})
      else s
    case ServerForwards(r, now) => Forward(s, r, now)
    case ClientGets(k, r) => Deliver(s, k, r)
  }

  /** What a session's events come from: fresh streams, and answers the server sent on its connection. */
  ghost predicate ClientMay(s: System, k: nat, e: Client.Event) {
    && k in s.links
    && Client.Possible(s.links[k].hist.maps, s.links[k].hist.owners, e)
    && (e.Opened? ==> e.stream % 4 == 0 && e.stream < STREAM_LIMIT)
    && (e.Headers? ==>
          && s.links[k].scid.Some? && e.status.Some?
          && Server.Answer(s.links[k].scid.value, e.stream, e.status.value) in s.answers)
  }

  /** A datagram handed to the tunnel by the session. */
  ghost predicate Handed(l: Link, x: Client.Send) { x in l.hist.sent }

  /** What the server's events come from: a session's own requests and datagrams, or anything from a stranger. */
  ghost predicate ServerMay(s: System, e: Server.Event) {
    && Server.Possible(s.world, e)
    && !e.FromTarget?
    && (e.Asked? || e.FromClient? ==> e.scid in s.party)
    && (e.Asked? ==> e.stream < STREAM_LIMIT)
    && (e.Asked? && s.party[e.scid].Peer? ==>
          && s.party[e.scid].session in s.links
          && e.stream / 4 in s.links[s.party[e.scid].session].hist.owners
          && e.headers == Request.ConnectHeaders(s.links[s.party[e.scid].session].authority,
                                                 s.links[s.party[e.scid].session].path))
    && (e.FromClient? && s.party[e.scid].Peer? ==>
          && s.party[e.scid].session in s.links
          && exists x :: Handed(s.links[s.party[e.scid].session], x) && e.wire == Wire(x.flow, x.payload))
  }

  ghost predicate May(s: System, t: Step) {
    match t
    case Dial(k, _, _) => k !in s.links
    case Establish(c, with) =>
      c in s.world.used && c !in s.party &&
      (with.Peer? ==> with.session in s.links && s.links[with.session].scid.None?)
    case ClientSees(k, e) => ClientMay(s, k, e)
    case ServerSees(e) => ServerMay(s, e)
    case TargetSends(socket, _) => socket in s.world.sockets
    case ServerForwards(r, now) => r in s.replies && now >= s.world.clock
    case ClientGets(k, r) => k in s.links && r in s.tunnelled && s.links[k].scid == Some(r.scid)
  }

  function Boot(rules: seq<Rules.Rule>): System {
    System(Server.Boot(rules), map[], map[], {}, {}, {}, {}, {}, {})
  }

  function Run(rules: seq<Rules.Rule>, ts: seq<Step>): System {
    if ts == [] then Boot(rules) else Next(Run(rules, ts[..|ts| - 1]), ts[|ts| - 1])
  }

  ghost predicate Legal(rules: seq<Rules.Rule>, ts: seq<Step>) {
    ts == [] || (Legal(rules, ts[..|ts| - 1]) && May(Run(rules, ts[..|ts| - 1]), ts[|ts| - 1]))
  }

  // ---------- one session ----------

  /** Flow `f` has been used: its source forwards, or something was sent on it. */
  ghost predicate Used(h: Client.History, f: nat) {
    || (f in h.maps.flows && Client.StateOf(h.maps, h.maps.flows[f]).established)
    || Client.SentOn(h.sent, f) != []
  }

  /** Everything recorded for a source, or for an ended flow of a source, arrived from that source. */
  ghost predicate OwnArrivals(l: Link, src: SocketAddr) {
    src in l.hist.lives ==> forall p :: p in l.hist.lives[src].arrivals ==> (src, p) in l.arrived
  }

  ghost predicate OwnPast(l: Link, f: nat) {
    f in l.hist.ended && f in l.hist.owners ==>
      forall p :: p in l.hist.ended[f].arrivals ==> (l.hist.owners[f], p) in l.arrived
  }

  ghost predicate LinkInv(l: Link) {
    && Client.Inv(l.hist)
    && (forall src :: OwnArrivals(l, src))
    && (forall f :: OwnPast(l, f))
    && (forall f :: f in l.hist.owners ==> 4 * f < STREAM_LIMIT)
  }

  lemma OwnersOf(h: Client.History, f: nat)
    requires Client.Inv(h)
    ensures Client.GoodSends(h, f)
    ensures f in h.maps.flows ==> Client.GoodFlow(h.maps, f) && Client.GoodLife(h, h.maps.flows[f])
  {
    hide Client.GoodSends, Client.GoodLife, Client.GoodFlow, Client.GoodSource;
    assert Client.GoodSends(h, f);
    assert Client.GoodFlow(h.maps, f);
    if f in h.maps.flows {
      assert Client.GoodLife(h, h.maps.flows[f]);
    }
  }

  lemma LinkStepKeepsInv(l: Link, e: Client.Event)
    requires LinkInv(l) && Client.Possible(l.hist.maps, l.hist.owners, e)
    requires e.Opened? ==> e.stream % 4 == 0 && e.stream < STREAM_LIMIT
    ensures LinkInv(ClientStep(l, e))
  {
    hide Client.Inv, Client.Step;
    var l' := ClientStep(l, e);
    Client.StepKeepsInv(l.hist, e);
    forall src ensures OwnArrivals(l', src) {
      assert OwnArrivals(l, src);
    }
    forall f: nat ensures OwnPast(l', f) {
      assert OwnPast(l, f);
      OwnersOf(l.hist, f);
      if f in l.hist.maps.flows {
        assert OwnArrivals(l, l.hist.maps.flows[f]);
      }
    }
  }

  /** Only an accepting answer brings a flow into use. */
  lemma UseNeedsAcceptance(h: Client.History, e: Client.Event, f: nat)
    requires Client.Inv(h) && Client.Possible(h.maps, h.owners, e)
    requires Used(Client.Next(h, e), f)
    ensures Used(h, f) || (e.Headers? && Client.Accepting(e.status) && e.stream / 4 == f)
  {
    hide Client.Inv, Client.Consistent, Client.SentOn, Client.GoodSends, Client.GoodLife;
    OwnersOf(h, f);
    match e
    case Local(src, data) =>
      SourcesOf(h, src);
      var st := Client.StateOf(h.maps, src);
      if st.established {
        Client.SentOnRelease(h.sent, st.flowId.value, [data], f);
        assert Client.Release(st.flowId.value, [data]) == [Client.Send(st.flowId.value, data)];
        Client.NothingAdded(Client.SentOn(h.sent, f));
      } else {
        assert h.sent + [] == h.sent;
      }
    case Opened(src, stream) =>
      SourcesOf(h, src);
      assert h.sent + [] == h.sent;
    case OpenFailed(src) =>
      assert h.sent + [] == h.sent;
    case Headers(stream, status) =>
      var fid := stream / 4;
      OwnersOf(h, fid);
      assert h.sent + [] == h.sent;
      if Client.Accepting(status) && fid in h.maps.flows && fid != f {
        Client.SentOnRelease(h.sent, fid, h.maps.byAddr[h.maps.flows[fid]].pending, f);
        Client.NothingAdded(Client.SentOn(h.sent, f));
      }
    case Closed(stream) =>
      assert h.sent + [] == h.sent;
  }

  lemma SourcesOf(h: Client.History, src: SocketAddr)
    requires Client.Inv(h)
    ensures Client.GoodSource(h.maps, src)
  {
    hide Client.GoodSends, Client.GoodLife, Client.GoodFlow, Client.GoodSource;
    assert Client.GoodSource(h.maps, src);
  }

  /** Whatever a session hands to the tunnel on a flow arrived from the source the flow was opened for. */
  lemma SentArrived(l: Link, x: Client.Send)
    requires LinkInv(l) && Handed(l, x)
    ensures x.flow in l.hist.owners && (l.hist.owners[x.flow], x.payload) in l.arrived
    ensures Used(l.hist, x.flow)
  {
    hide Client.Inv, Client.SentOn, Client.Expected;
    OwnersOf(l.hist, x.flow);
    InSentOn(l.hist.sent, x);
    var f := x.flow;
    assert OwnPast(l, f);
    if f in l.hist.maps.flows {
      assert OwnArrivals(l, l.hist.maps.flows[f]);
      ExpectedArrived(l.hist.lives[l.hist.maps.flows[f]], x.payload);
    } else {
      ExpectedArrived(l.hist.ended[f], x.payload);
    }
  }

  lemma {:induction false} InSentOn(sent: seq<Client.Send>, x: Client.Send)
    requires x in sent
    ensures x.payload in Client.SentOn(sent, x.flow)
  {
    var n := |sent| - 1;
    if sent[n] != x {
      assert sent == sent[..n] + [sent[n]];
      InSentOn(sent[..n], x);
    }
  }

  lemma ExpectedArrived(l: Client.Life, p: bytes)
    requires p in Client.Expected(l)
    ensures p in l.arrivals
  {
  }

  // ---------- the invariant of the whole system ----------

  ghost predicate GoodLink(s: System, k: nat) {
    k in s.links ==>
      && LinkInv(s.links[k])
      && (s.links[k].scid.Some? ==> s.links[k].scid.value in s.party && s.party[s.links[k].scid.value] == Peer(k))
  }

  ghost predicate GoodParty(s: System, c: Server.Scid) {
    c in s.party && s.party[c].Peer? ==> s.party[c].session in s.links && s.links[s.party[c].session].scid == Some(c)
  }

  /** The grant is for a stream its session had opened, and for the session's own endpoint. */
  ghost predicate OwnGrant(l: Link, g: Server.Grant) {
    g.stream / 4 in l.hist.owners && g.authority == l.authority && g.path == l.path
  }

  /** A target socket was opened for an established connection; for a session, by a request of its own. */
  ghost predicate GoodSocket(s: System, k: nat) {
    k in s.world.sockets ==>
      var g := s.world.sockets[k];
      && g.stream < STREAM_LIMIT && g.stream % 4 == 0 && g.scid in s.party
      && (s.party[g.scid].Peer? ==> s.party[g.scid].session in s.links && OwnGrant(s.links[s.party[g.scid].session], g))
  }

  ghost predicate GoodReply(s: System, r: Reply) {
    r in s.replies ==>
      && r.socket in s.world.sockets && (r.socket, r.payload) in s.received
      && s.world.sockets[r.socket].scid == r.scid && s.world.sockets[r.socket].stream == 4 * r.flow
  }

  /**
   * What a target socket is given came over its own connection and, from a session, from the source
   * whose request opened the socket.
   */
  ghost predicate GoodGiven(s: System, g: Server.Given) {
    g in s.given ==>
      && g.socket in s.world.sockets && s.world.sockets[g.socket].scid == g.from && g.from in s.party
      && (s.party[g.from].Peer? ==>
            && s.party[g.from].session in s.links
            && var l := s.links[s.party[g.from].session];
               var f := s.world.sockets[g.socket].stream / 4;
               f in l.hist.owners && (l.hist.owners[f], g.payload) in l.arrived)
  }

  /**
   * What a local source gets was received on a target socket of its session's connection, opened by a
   * request made for that source.
   */
  ghost predicate GoodDelivery(s: System, d: Delivery) {
    d in s.delivered ==>
      && d.session in s.links && d.socket in s.world.sockets && (d.socket, d.payload) in s.received
      && var l := s.links[d.session];
         var g := s.world.sockets[d.socket];
         l.scid == Some(g.scid) && g.stream / 4 in l.hist.owners && l.hist.owners[g.stream / 4] == d.src
  }

  ghost predicate Inv(s: System) {
    && Server.Inv(s.world)
    && (forall k :: GoodLink(s, k))
    && (forall c :: GoodParty(s, c))
    && (forall k :: GoodSocket(s, k))
    && (forall r :: GoodReply(s, r))
    && s.tunnelled <= s.replies
    && (forall g :: GoodGiven(s, g))
    && (forall d :: GoodDelivery(s, d))
  }

  /** A session keeps its connection, its flow owners and what arrived. */
  ghost predicate LinkGrows(l: Link, l': Link) {
    && (l.scid.Some? ==> l'.scid == l.scid)
    && (forall f :: f in l.hist.owners ==> f in l'.hist.owners && l'.hist.owners[f] == l.hist.owners[f])
    && l.arrived <= l'.arrived && l'.authority == l.authority && l'.path == l.path
  }

  /** The past only grows. */
  ghost predicate Grows(s: System, s': System) {
    && (forall k :: k in s.world.sockets ==> k in s'.world.sockets && s'.world.sockets[k] == s.world.sockets[k])
    && (forall k :: k in s.links ==> k in s'.links && LinkGrows(s.links[k], s'.links[k]))
    && (forall c :: c in s.party ==> c in s'.party && s'.party[c] == s.party[c])
    && s.received <= s'.received
  }

  /** So what was established about any element before stays true of it. */
  lemma PastStays(s: System, s': System)
    requires Inv(s) && Grows(s, s')
    ensures forall r :: r in s.replies ==> GoodReply(s', r)
    ensures forall g :: g in s.given ==> GoodGiven(s', g)
    ensures forall d :: d in s.delivered ==> GoodDelivery(s', d)
  {
    hide LinkInv, Server.Inv;
    forall r | r in s.replies ensures GoodReply(s', r) { assert GoodReply(s, r); }
    forall g | g in s.given ensures GoodGiven(s', g) { assert GoodGiven(s, g); }
    forall d | d in s.delivered ensures GoodDelivery(s', d) { assert GoodDelivery(s, d); }
  }

  lemma DialKeepsInv(s: System, k: nat, authority: string, path: string)
    requires Inv(s) && k !in s.links
    ensures Inv(Next(s, Dial(k, authority, path)))
  {
    hide LinkInv, Server.Inv;
    var s' := Next(s, Dial(k, authority, path));
    PastStays(s, s');
    FreshLink(authority, path);
    forall j ensures GoodLink(s', j) { assert GoodLink(s, j); }
    forall c ensures GoodParty(s', c) { assert GoodParty(s, c); }
    forall j ensures GoodSocket(s', j) { assert GoodSocket(s, j); }
  }

  lemma FreshLink(authority: string, path: string)
    ensures LinkInv(Link(Client.START, {}, None, authority, path))
    ensures forall f: nat :: !Used(Client.START, f)
  {
    Client.StartInv();
  }

  lemma EstablishKeepsInv(s: System, c: Server.Scid, with: Party)
    requires Inv(s) && May(s, Establish(c, with))
    ensures Inv(Next(s, Establish(c, with)))
  {
    hide LinkInv, Server.Inv;
    var s' := Next(s, Establish(c, with));
    PastStays(s, s');
    forall k ensures GoodLink(s', k) {
      assert GoodLink(s, k);
      if k in s.links { SameHistory(s.links[k], s'.links[k]); }
    }
    forall d ensures GoodParty(s', d) { assert GoodParty(s, d); }
    forall k ensures GoodSocket(s', k) { assert GoodSocket(s, k); }
  }

  lemma SameHistory(l: Link, l': Link)
    requires LinkInv(l) && l'.hist == l.hist && l'.arrived == l.arrived
    ensures LinkInv(l')
  {
    hide Client.Inv;
    forall src ensures OwnArrivals(l', src) { assert OwnArrivals(l, src); }
    forall f: nat ensures OwnPast(l', f) { assert OwnPast(l, f); }
  }

  lemma ClientKeepsInv(s: System, k: nat, e: Client.Event)
    requires Inv(s) && ClientMay(s, k, e)
    ensures Inv(Next(s, ClientSees(k, e)))
  {
    hide LinkInv, Server.Inv, Client.Next, Client.Possible;
    var s' := Next(s, ClientSees(k, e));
    assert GoodLink(s, k);
    OwnersStay(s.links[k], e);
    assert LinkGrows(s.links[k], s'.links[k]);
    PastStays(s, s');
    LinkStepKeepsInv(s.links[k], e);
    LinkHistory(s.links[k]);
    forall j ensures GoodLink(s', j) { assert GoodLink(s, j); }
    forall c ensures GoodParty(s', c) { assert GoodParty(s, c); }
    forall j ensures GoodSocket(s', j) { assert GoodSocket(s, j); }
  }

  lemma LinkHistory(l: Link) requires LinkInv(l) ensures Client.Inv(l.hist) {
    hide Client.Inv, OwnArrivals, OwnPast;
  }

  lemma OwnersStay(l: Link, e: Client.Event)
    requires Client.Possible(l.hist.maps, l.hist.owners, e)
    ensures forall f :: f in l.hist.owners ==>
            f in ClientStep(l, e).hist.owners && ClientStep(l, e).hist.owners[f] == l.hist.owners[f]
  {
    hide Client.Step;
  }

  // ---------- server steps ----------

  /** A step opens at most the socket its request asks for, under the grant of that request. */
  lemma NewSocket(w: Server.World, e: Server.Event, k: nat)
    requires k in Server.Next(w, e).sockets && k !in w.sockets
    ensures e.Asked? && k == e.socket
    ensures var g := Server.Next(w, e).sockets[k];
            && g.scid == e.scid && g.stream == e.stream && g.rules == w.rules
            && Request.Read(e.headers) == Request.Readable(g.authority, g.path)
            && Rules.MatchTarget(w.rules, g.authority, g.path) == Some(g.decision)
  {
    hide Server.Step, Server.ActivityOf, Rules.SniHosts, Rules.MatchTarget, Request.Read;
  }

  /** The request, if `e` is one, was made on a stream the peer may use, and by a session for its endpoint. */
  ghost predicate FairRequest(s: System, e: Server.Event) {
    e.Asked? ==>
      && e.scid in s.party && e.stream < STREAM_LIMIT && e.stream % 4 == 0
      && (s.party[e.scid].Peer? ==>
            && s.party[e.scid].session in s.links
            && var l := s.links[s.party[e.scid].session];
               e.stream / 4 in l.hist.owners && e.headers == Request.ConnectHeaders(l.authority, l.path))
  }

  lemma WorldKeepsInv(s: System, e: Server.Event)
    requires Inv(s) && Server.Possible(s.world, e) && FairRequest(s, e)
    ensures Inv(s.(world := Server.Next(s.world, e)))
  {
    hide LinkInv, Server.Inv, Server.Next, Server.Possible, Request.ConnectHeaders, Request.Read, Rules.MatchTarget;
    var s' := s.(world := Server.Next(s.world, e));
    Server.StepKeepsInv(s.world, e);
    ServerGrows(s, e, s');
    PastStays(s, s');
    forall k ensures GoodLink(s', k) { assert GoodLink(s, k); }
    forall c ensures GoodParty(s', c) { assert GoodParty(s, c); }
    forall k: nat ensures GoodSocket(s', k) {
      assert GoodSocket(s, k);
      if k in s'.world.sockets && k !in s.world.sockets {
        NewSocket(s.world, e, k);
        var with := s.party[e.scid];
        if with.Peer? {
          Request.ConnectHeadersRead(s.links[with.session].authority, s.links[with.session].path);
        }
      }
    }
  }

  /** Growing only the logs keeps what is said of sessions, parties, answers and sockets. */
  lemma LogsKeepInv(s: System, s': System)
    requires Inv(s) && s' == s.(answers := s'.answers, received := s'.received, replies := s'.replies,
                                tunnelled := s'.tunnelled, given := s'.given, delivered := s'.delivered)
    requires s.received <= s'.received && s'.tunnelled <= s'.replies
    requires forall r :: r in s'.replies && r !in s.replies ==> GoodReply(s', r)
    requires forall g :: g in s'.given && g !in s.given ==> GoodGiven(s', g)
    requires forall d :: d in s'.delivered && d !in s.delivered ==> GoodDelivery(s', d)
    ensures Inv(s')
  {
    hide LinkInv, Server.Inv;
    PastStays(s, s');
    forall k ensures GoodLink(s', k) { assert GoodLink(s, k); }
    forall c ensures GoodParty(s', c) { assert GoodParty(s, c); }
    forall k ensures GoodSocket(s', k) { assert GoodSocket(s, k); }
  }

  /** A datagram encoded for a flow of a session decodes to that flow and payload. */
  lemma WireRoundTrip(flow: nat, payload: bytes)
    requires 4 * flow < STREAM_LIMIT
    ensures Dgram.Decode(Wire(flow, payload)) == Some(Dgram.Parsed(flow, Dgram.CONTEXT_ID_UDP, payload))
  {
    Dgram.RoundTrip(flow, payload);
  }

  /** A target is given something only by a datagram on a live flow of the target's own connection. */
  lemma GivenFrom(w: Server.World, e: Server.Event, g: Server.Given)
    requires g in Server.Step(w.server, w.rules, e).given
    ensures e.FromClient?
    ensures var flows := Server.FlowsOf(w.server, e.scid);
            var t := Server.ToTarget(flows, e.wire);
            t.Some? && t.value.0 in flows && g == Server.Given(flows[t.value.0].socket, t.value.1, e.scid)
  {
    hide Server.HandleConnect, Server.Accept, Server.Reap, Server.SweepAll, Server.ToTarget, Server.Touch;
  }

  lemma GivenIsGood(s: System, e: Server.Event, g: Server.Given)
    requires Inv(s) && ServerMay(s, e) && g in Server.Step(s.world.server, s.world.rules, e).given
    ensures forall s' :: Grows(s, s') ==> GoodGiven(s', g)
  {
    hide LinkInv, GoodSocket, Dgram.Decode, Wire, Server.Step, Server.Possible;
    GivenFrom(s.world, e, g);
    var c := e.scid;
    var f := Server.ToTarget(Server.FlowsOf(s.world.server, c), e.wire).value.0;
    FlowSocket(s.world, c, f);
    assert GoodParty(s, c);
    if s.party[c].Peer? {
      var k := s.party[c].session;
      var l := s.links[k];
      assert GoodLink(s, k);
      var x :| Handed(l, x) && e.wire == Wire(x.flow, x.payload);
      SentArrived(l, x);
      OwnerBound(l, x.flow);
      WireRoundTrip(x.flow, x.payload);
    }
    forall s' | Grows(s, s') ensures GoodGiven(s', g) {}
  }

  lemma OwnerBound(l: Link, f: nat)
    requires LinkInv(l) && f in l.hist.owners
    ensures 4 * f < STREAM_LIMIT
  {
  }

  lemma FlowSocket(w: Server.World, c: Server.Scid, f: nat)
    requires Server.Inv(w) && f in Server.FlowsOf(w.server, c)
    ensures var fl := Server.FlowsOf(w.server, c)[f];
            fl.socket in w.sockets && w.sockets[fl.socket].scid == c && w.sockets[fl.socket].stream == 4 * f
  {
    hide Server.Bijective, Server.TimesOrdered, Server.GoodSocket, Server.Last;
    assert Server.GoodFlow(w, c, f);
  }

  lemma ServerKeepsInv(s: System, e: Server.Event)
    requires Inv(s) && ServerMay(s, e)
    ensures Inv(ServerStep(s, e))
  {
    hide Inv, Server.Next, Server.Step, Grows, GoodGiven;
    var s1, s' := s.(world := Server.Next(s.world, e)), ServerStep(s, e);
    WorldKeepsInv(s, e);
    ServerGrows(s, e, s');
    forall g | g in s'.given && g !in s.given ensures GoodGiven(s', g) {
      GivenIsGood(s, e, g);
    }
    TunnelledWithin(s);
    LogsKeepInv(s1, s');
  }

  lemma ServerGrows(s: System, e: Server.Event, s': System)
    requires Server.Possible(s.world, e)
    requires s'.world == Server.Next(s.world, e) && s'.links == s.links && s'.party == s.party &&
             s'.received == s.received
    ensures Grows(s, s')
  {
    hide Server.Next, Server.Possible;
    forall k | k in s.world.sockets ensures k in s'.world.sockets && s'.world.sockets[k] == s.world.sockets[k] {
      Server.GrantsStay(s.world, e, k);
    }
  }

  /** Several events of the server in a row. */
  function ServerSteps(s: System, es: seq<Server.Event>): System {
    if es == [] then s else ServerStep(ServerSteps(s, es[..|es| - 1]), es[|es| - 1])
  }

  /**
   * What the server object logs is what the composition sees: over the events of any of its calls,
   * the object's server, answers and given payloads are the system's.
   */
  lemma {:induction false} ObjectLogs(s: System, x: Server.Effect, es: seq<Server.Event>)
    requires x.server == s.world.server && Server.Elems(x.answers) <= s.answers && Server.Elems(x.given) <= s.given
    requires forall e :: e in es ==> !e.Reloaded?
    ensures var s', x' := ServerSteps(s, es), Server.Steps(x, s.world.rules, es);
            && x'.server == s'.world.server && s'.world.rules == s.world.rules
            && s'.answers == s.answers + Server.Elems(x'.answers) && s'.given == s.given + Server.Elems(x'.given)
            && s' == s.(world := s'.world, answers := s'.answers, given := s'.given)
  {
    hide Server.Step, Server.ActivityOf, Server.SocketsAfter;
    if es != [] {
      ObjectLogs(s, x, es[..|es| - 1]);
    }
  }

  // ---------- replies ----------

  lemma TargetKeepsInv(s: System, socket: nat, payload: bytes)
    requires Inv(s) && socket in s.world.sockets
    ensures Inv(Next(s, TargetSends(socket, payload)))
  {
    hide Inv;
    var s' := Next(s, TargetSends(socket, payload));
    TunnelledWithin(s);
    assert GoodSocket(s, socket) by { SocketOf(s, socket); }
    LogsKeepInv(s, s');
  }

  lemma TunnelledWithin(s: System) requires Inv(s) ensures s.tunnelled <= s.replies {
    hide LinkInv, Server.Inv;
  }

  lemma SocketOf(s: System, k: nat) requires Inv(s) ensures GoodSocket(s, k) {
    hide LinkInv, Server.Inv;
  }

  lemma ForwardKeepsInv(s: System, r: Reply, now: nat)
    requires Inv(s) && r in s.replies && now >= s.world.clock
    ensures Inv(Forward(s, r, now))
  {
    hide Inv, Server.Next;
    var e := Server.FromTarget(r.scid, r.flow, now);
    TunnelledWithin(s);
    WorldKeepsInv(s, e);
    LogsKeepInv(s.(world := Server.Next(s.world, e)), Forward(s, r, now));
  }

  lemma DeliverKeepsInv(s: System, k: nat, r: Reply)
    requires Inv(s) && May(s, ClientGets(k, r))
    ensures Inv(Deliver(s, k, r))
  {
    hide Inv, LinkInv, Wire, Dgram.Decode, Client.Inv;
    var s' := Deliver(s, k, r);
    TunnelledWithin(s);
    assert GoodReply(s, r) && GoodLink(s, k) by { ReplyOf(s, r, k); }
    assert GoodSocket(s, r.socket) by { SocketOf(s, r.socket); }
    WireRoundTrip(r.flow, r.payload);
    LinkHistory(s.links[k]);
    OwnersOf(s.links[k].hist, r.flow);
    LogsKeepInv(s, s');
  }

  lemma ReplyOf(s: System, r: Reply, k: nat) requires Inv(s) ensures GoodReply(s, r) && GoodLink(s, k) {
    hide LinkInv, Server.Inv;
  }

  lemma StepKeepsInv(s: System, t: Step)
    requires Inv(s) && May(s, t)
    ensures Inv(Next(s, t))
  {
    hide Inv, ServerStep, Forward, Deliver, ServerMay, ClientMay, ClientStep;
    match t
    case Dial(k, authority, path) => DialKeepsInv(s, k, authority, path);
    case Establish(c, with) => EstablishKeepsInv(s, c, with);
    case ClientSees(k, e) => ClientKeepsInv(s, k, e);
    case ServerSees(e) => ServerKeepsInv(s, e);
    case TargetSends(socket, payload) => TargetKeepsInv(s, socket, payload);
    case ServerForwards(r, now) => ForwardKeepsInv(s, r, now);
    case ClientGets(k, r) => DeliverKeepsInv(s, k, r);
  }

  lemma {:induction false} RunKeepsInv(rules: seq<Rules.Rule>, ts: seq<Step>)
    requires Legal(rules, ts)
    ensures Inv(Run(rules, ts))
  {
    hide Inv, Next, May;
    if ts == [] {
      BootInv(rules);
    } else {
      var n := |ts| - 1;
      RunKeepsInv(rules, ts[..n]);
      StepKeepsInv(Run(rules, ts[..n]), ts[n]);
    }
  }

  lemma BootInv(rules: seq<Rules.Rule>)
    ensures Inv(Boot(rules))
  {
    hide Server.Inv;
    Server.BootInv(rules);
  }

  // ---------- what holds in every run ----------

  /**
   * Isolation downwards: whatever any local source of any session is given was received by a target
   * socket of that session's own connection, opened by the server for a request the session made
   * for that very source; late replies to flows already gone are no exception.
   */
  lemma DeliveryIsolation(rules: seq<Rules.Rule>, ts: seq<Step>, d: Delivery)
    requires Legal(rules, ts) && d in Run(rules, ts).delivered
    ensures var s := Run(rules, ts);
            && d.session in s.links && d.socket in s.world.sockets && (d.socket, d.payload) in s.received
            && var l, g := s.links[d.session], s.world.sockets[d.socket];
               && l.scid == Some(g.scid)
               && g.stream / 4 in l.hist.owners && l.hist.owners[g.stream / 4] == d.src
  {
    hide Run, Legal, LinkInv, Server.Inv;
    RunKeepsInv(rules, ts);
    assert GoodDelivery(Run(rules, ts), d);
  }

  /**
   * Isolation upwards: whatever a target socket is given came over the connection it was opened
   * for; on a session's connection it is a datagram that arrived from the local source whose
   * request opened the socket, whatever strangers on other connections send.
   */
  lemma TargetIsolation(rules: seq<Rules.Rule>, ts: seq<Step>, g: Server.Given)
    requires Legal(rules, ts) && g in Run(rules, ts).given
    ensures var s := Run(rules, ts);
            && g.socket in s.world.sockets && s.world.sockets[g.socket].scid == g.from && g.from in s.party
            && (s.party[g.from].Peer? ==>
                  && s.party[g.from].session in s.links
                  && var l, f := s.links[s.party[g.from].session], s.world.sockets[g.socket].stream / 4;
                     && l.scid == Some(g.from)
                     && f in l.hist.owners && (l.hist.owners[f], g.payload) in l.arrived)
  {
    hide Run, Legal, LinkInv, Server.Inv;
    RunKeepsInv(rules, ts);
    assert GoodGiven(Run(rules, ts), g);
    assert GoodParty(Run(rules, ts), g.from);
  }

  /**
   * So a target socket serves one local source: what it received is delivered to that source alone,
   * and what it was given arrived from that source alone.
   */
  lemma OneSourcePerSocket(rules: seq<Rules.Rule>, ts: seq<Step>, d: Delivery, e: Delivery, g: Server.Given)
    requires Legal(rules, ts) && d in Run(rules, ts).delivered
    ensures e in Run(rules, ts).delivered && e.socket == d.socket ==> e.session == d.session && e.src == d.src
    ensures g in Run(rules, ts).given && g.socket == d.socket ==>
              d.session in Run(rules, ts).links && (d.src, g.payload) in Run(rules, ts).links[d.session].arrived
  {
    hide Run, Legal, LinkInv, Server.Inv;
    var s := Run(rules, ts);
    RunKeepsInv(rules, ts);
    assert GoodDelivery(s, d) && GoodLink(s, d.session);
    if e in s.delivered && e.socket == d.socket {
      assert GoodDelivery(s, e) && GoodLink(s, e.session);
    }
    if g in s.given && g.socket == d.socket {
      assert GoodGiven(s, g);
    }
  }

  // ---------- no overtaking ----------

  /** At some point of the run flow `f` was in the server's table for connection `c`. */
  ghost predicate Created(rules: seq<Rules.Rule>, ts: seq<Step>, c: Server.Scid, f: nat) {
    exists n :: 0 <= n <= |ts| && f in Server.FlowsOf(Run(rules, ts[..n]).world.server, c)
  }

  lemma CreatedStays(rules: seq<Rules.Rule>, ts: seq<Step>, m: nat, c: Server.Scid, f: nat)
    requires m <= |ts| && Created(rules, ts[..m], c, f)
    ensures Created(rules, ts, c, f)
  {
    hide Run;
    var n :| 0 <= n <= m && f in Server.FlowsOf(Run(rules, ts[..m][..n]).world.server, c);
    assert ts[..m][..n] == ts[..n];
  }

  /** An accepting status goes out only with the flow in the server's table. */
  lemma AcceptMeansFlow(w: Server.World, e: Server.Event, a: Server.Answer)
    requires a in Server.Step(w.server, w.rules, e).answers && 200 <= a.status < 300
    ensures e.Asked? && a.stream / 4 in Server.FlowsOf(Server.Next(w, e).server, a.scid)
  {
    hide Rules.MatchTarget, Request.Read, Server.ActivityOf, Server.SocketsAfter, Rules.SniHosts, Server.ToTarget;
    RefusalStatus(e);
  }

  lemma RefusalStatus(e: Server.Event)
    ensures e.Asked? && Request.Read(e.headers).Refused? ==> Request.Read(e.headers).status >= 400
  {
    hide Request.LastValue;
  }

  /** So every accepting answer there is was sent after its flow was created. */
  lemma {:induction false} AnswersCreated(rules: seq<Rules.Rule>, ts: seq<Step>, a: Server.Answer)
    requires a in Run(rules, ts).answers && 200 <= a.status < 300
    ensures Created(rules, ts, a.scid, a.stream / 4)
  {
    hide Server.Step, Server.Next, Created, Deliver, ClientStep;
    if ts != [] {
      var m := |ts| - 1;
      var s, t := Run(rules, ts[..m]), ts[m];
      if a in s.answers {
        AnswersCreated(rules, ts[..m], a);
        CreatedStays(rules, ts, m, a.scid, a.stream / 4);
      } else {
        AcceptMeansFlow(s.world, t.serverEvent, a);
        assert ts[..|ts|] == ts;
        CreatedNow(rules, ts, a.scid, a.stream / 4);
      }
    }
  }

  lemma CreatedNow(rules: seq<Rules.Rule>, ts: seq<Step>, c: Server.Scid, f: nat)
    requires f in Server.FlowsOf(Run(rules, ts).world.server, c)
    ensures Created(rules, ts, c, f)
  {
    hide Run;
    assert ts[..|ts|] == ts;
  }

  /** A session uses a flow only after the server created it. */
  lemma {:induction false} UseCreated(rules: seq<Rules.Rule>, ts: seq<Step>, k: nat, f: nat)
    requires Legal(rules, ts) && k in Run(rules, ts).links && Used(Run(rules, ts).links[k].hist, f)
    ensures Run(rules, ts).links[k].scid.Some? && Created(rules, ts, Run(rules, ts).links[k].scid.value, f)
  {
    hide Used, Created, Client.Next, Client.Possible, Server.Next, Server.Step;
    hide Deliver, Forward, ServerMay, LinkInv, Server.Inv;
    FreshLink("", "");
    if ts != [] {
      var m := |ts| - 1;
      var s, t := Run(rules, ts[..m]), ts[m];
      if k in s.links && Used(s.links[k].hist, f) {
        UseCreated(rules, ts[..m], k, f);
        CreatedStays(rules, ts, m, s.links[k].scid.value, f);
      } else {
        assert t.ClientSees? && t.k == k;
        RunKeepsInv(rules, ts[..m]);
        assert GoodLink(s, k);
        LinkHistory(s.links[k]);
        UseNeedsAcceptance(s.links[k].hist, t.clientEvent, f);
        var a := Server.Answer(s.links[k].scid.value, t.clientEvent.stream, t.clientEvent.status.value);
        AnswersCreated(rules, ts[..m], a);
        CreatedStays(rules, ts, m, a.scid, f);
      }
    }
  }

  /**
   * No overtaking: every datagram a session ever handed to the tunnel, so every one in flight, is
   * for a flow that was in the server's table for that session's connection at this point of the
   * run or an earlier one, and decodes to it.
   */
  lemma NoOvertaking(rules: seq<Rules.Rule>, ts: seq<Step>, k: nat, x: Client.Send)
    requires Legal(rules, ts) && k in Run(rules, ts).links && Handed(Run(rules, ts).links[k], x)
    ensures var l := Run(rules, ts).links[k];
            && l.scid.Some?
            && (exists n :: 0 <= n <= |ts| && x.flow in Server.FlowsOf(Run(rules, ts[..n]).world.server, l.scid.value))
            && Dgram.Decode(Wire(x.flow, x.payload)) == Some(Dgram.Parsed(x.flow, Dgram.CONTEXT_ID_UDP, x.payload))
  {
    hide Run, Legal, LinkInv, Server.Inv, Used;
    var s := Run(rules, ts);
    RunKeepsInv(rules, ts);
    assert GoodLink(s, k);
    SentArrived(s.links[k], x);
    UseCreated(rules, ts, k, x.flow);
    OwnerBound(s.links[k], x.flow);
    WireRoundTrip(x.flow, x.payload);
  }

  // ---------- every session reaches its own targets ----------

  /** Step `n` of the run is the request that opened socket `k` for connection `c`. */
  ghost predicate OpenedBy(rules: seq<Rules.Rule>, ts: seq<Step>, n: nat, k: nat, g: Server.Grant) {
    && n < |ts| && ts[n].ServerSees? && ts[n].serverEvent.Asked? && ts[n].serverEvent.socket == k
    && ts[n].serverEvent.scid == g.scid && ts[n].serverEvent.stream == g.stream
    && Run(rules, ts[..n]).world.rules == g.rules
  }

  lemma {:induction false} GrantOrigin(rules: seq<Rules.Rule>, ts: seq<Step>, k: nat)
    requires Legal(rules, ts) && k in Run(rules, ts).world.sockets
    ensures exists n: nat :: OpenedBy(rules, ts, n, k, Run(rules, ts).world.sockets[k])
  {
    hide Server.Next, Server.Step, Server.Possible, ClientStep, Deliver, ClientMay, Rules.MatchTarget, Request.Read;
    if ts != [] {
      var m := |ts| - 1;
      var s, t := Run(rules, ts[..m]), ts[m];
      var s' := Run(rules, ts);
      if k in s.world.sockets {
        GrantOrigin(rules, ts[..m], k);
        var n: nat :| OpenedBy(rules, ts[..m], n, k, s.world.sockets[k]);
        assert ts[..m][..n] == ts[..n];
        SocketsStay(s, t, k);
        assert OpenedBy(rules, ts, n, k, s'.world.sockets[k]);
      } else {
        var e := if t.ServerSees? then t.serverEvent else Server.FromTarget(t.r.scid, t.r.flow, t.now);
        NewSocket(s.world, e, k);
        assert OpenedBy(rules, ts, m, k, s'.world.sockets[k]);
      }
    }
  }

  lemma SocketsStay(s: System, t: Step, k: nat)
    requires May(s, t) && k in s.world.sockets
    ensures k in Next(s, t).world.sockets && Next(s, t).world.sockets[k] == s.world.sockets[k]
  {
    hide Server.Next, Server.Step, ClientStep, Deliver, ClientMay;
    if t.ServerSees? {
      Server.GrantsStay(s.world, t.serverEvent, k);
    } else if t.ServerForwards? {
      Server.GrantsStay(s.world, Server.FromTarget(t.r.scid, t.r.flow, t.now), k);
    }
  }

  /**
   * In every run, a target socket on a session's connection was opened by a request of that session
   * on a stream it had opened, and its target is that of the first rule that accepts the session's
   * own endpoint in the table installed when the request was handled.
   */
  lemma OwnTargets(rules: seq<Rules.Rule>, ts: seq<Step>, k: nat)
    requires Legal(rules, ts) && k in Run(rules, ts).world.sockets
    ensures var s := Run(rules, ts);
            var g := s.world.sockets[k];
            && (exists n: nat :: OpenedBy(rules, ts, n, k, g))
            && g.scid in s.party
            && (s.party[g.scid].Peer? ==>
                  && s.party[g.scid].session in s.links
                  && var l := s.links[s.party[g.scid].session];
                     && l.scid == Some(g.scid) && g.stream / 4 in l.hist.owners
                     && exists i: nat :: Rules.FirstServing(g.rules, l.authority, l.path, i) &&
                                         g.decision.target == g.rules[i].target)
  {
    hide Run, Legal, LinkInv, OpenedBy, Rules.MatchTarget, Rules.FirstServing;
    hide Server.GoodFlow, Server.Bijective, Server.TimesOrdered;
    var s := Run(rules, ts);
    RunKeepsInv(rules, ts);
    GrantOrigin(rules, ts, k);
    var g := s.world.sockets[k];
    assert GoodSocket(s, k) && GoodParty(s, g.scid) && Server.GoodSocket(s.world, k);
    Rules.MatchTargetIsFirst(g.rules, g.authority, g.path);
    var i: nat :| Rules.FirstServing(g.rules, g.authority, g.path, i);
  }

  // ---------- a datagram can go there and back ----------

  lemma Extend(rules: seq<Rules.Rule>, ts: seq<Step>, t: Step)
    requires Legal(rules, ts) && May(Run(rules, ts), t)
    ensures Legal(rules, ts + [t]) && Run(rules, ts + [t]) == Next(Run(rules, ts), t)
  {
    hide Next, May;
    var all := ts + [t];
    assert all[..|all| - 1] == ts && all[|all| - 1] == t;
  }

  /** An established session `k` with nothing opened yet, on connection `c`, nothing having happened there. */
  ghost predicate Connected(s: System, k: nat, c: Server.Scid, l: Link) {
    && k in s.links && s.links[k] == l && l.hist == Client.START && l.scid == Some(c)
    && c in s.party && s.party[c] == Peer(k)
    && c in s.world.server.clients && s.world.sockets == map[] && s.world.clock == 0
  }

  lemma Connect(rules: seq<Rules.Rule>, k: nat, c: Server.Scid, dcid: bytes, authority: string, path: string)
    returns (ts: seq<Step>)
    ensures Legal(rules, ts) && Connected(Run(rules, ts), k, c, Link(Client.START, {}, Some(c), authority, path)) &&
            Run(rules, ts).world.rules == rules
  {
    hide Run, Rules.SniHosts;
    ts := [];
    assert Legal(rules, ts) && Run(rules, ts) == Boot(rules) by { BootRun(rules); }
    var s0 := Boot(rules);
    Extend(rules, ts, Dial(k, authority, path));
    ts := ts + [Dial(k, authority, path)];
    Extend(rules, ts, ServerSees(Server.Accepted(dcid, c)));
    ts := ts + [ServerSees(Server.Accepted(dcid, c))];
    Extend(rules, ts, Establish(c, Peer(k)));
    ts := ts + [Establish(c, Peer(k))];
  }

  lemma BootRun(rules: seq<Rules.Rule>) ensures Legal(rules, []) && Run(rules, []) == Boot(rules) {}

  /** Session `k` forwards source `src` on flow 0, granted with socket 0, having sent `data` on it. */
  ghost predicate Forwarding(s: System, k: nat, c: Server.Scid, src: SocketAddr, data: bytes) {
    && k in s.links && s.links[k].scid == Some(c) && c in s.party && s.party[c] == Peer(k)
    && 0 in s.links[k].hist.maps.flows && s.links[k].hist.maps.flows[0] == src
    && Handed(s.links[k], Client.Send(0, data))
    && c in s.world.server.clients && 0 in s.world.server.clients[c] && s.world.server.clients[c][0].socket == 0
    && 0 in s.world.sockets && s.world.sockets[0].scid == c && s.world.sockets[0].stream == 0 && s.world.clock == 0
  }

  /** Session `k` has requested flow 0 for source `src`, with `data` waiting. */
  ghost predicate Requested(s: System, k: nat, c: Server.Scid, l: Link, src: SocketAddr, data: bytes) {
    && k in s.links && s.links[k].scid == Some(c) && s.links[k].authority == l.authority && s.links[k].path == l.path
    && c in s.party && s.party[c] == Peer(k)
    && src in s.links[k].hist.maps.byAddr
    && s.links[k].hist.maps.byAddr[src] == Client.FlowState(Some(0), false, [data])
    && 0 in s.links[k].hist.maps.flows && s.links[k].hist.maps.flows[0] == src && 0 in s.links[k].hist.owners
    && c in s.world.server.clients && s.world.sockets == map[] && s.world.clock == 0
  }

  lemma RequestFlow(rules: seq<Rules.Rule>, ts0: seq<Step>, k: nat, c: Server.Scid, l: Link, src: SocketAddr,
                    data: bytes)
    returns (ts: seq<Step>)
    requires Legal(rules, ts0) && Connected(Run(rules, ts0), k, c, l)
    ensures Legal(rules, ts) && Requested(Run(rules, ts), k, c, l, src, data) &&
            Run(rules, ts).world == Run(rules, ts0).world
  {
    hide Run;
    var local, request := ClientSees(k, Client.Local(src, data)), ClientSees(k, Client.Opened(src, 0));
    Extend(rules, ts0, local);
    ts := ts0 + [local];
    assert Run(rules, ts).links[k].hist.maps.byAddr[src] == Client.FlowState(None, false, [data]);
    Extend(rules, ts, request);
    ts := ts + [request];
  }

  lemma OpenFlow(rules: seq<Rules.Rule>, ts0: seq<Step>, k: nat, c: Server.Scid, l: Link, src: SocketAddr,
                 data: bytes)
    returns (ts: seq<Step>)
    requires Legal(rules, ts0) && Requested(Run(rules, ts0), k, c, l, src, data) && Run(rules, ts0).world.rules == rules
    requires Rules.MatchTarget(rules, l.authority, l.path).Some?
    ensures Legal(rules, ts) && Forwarding(Run(rules, ts), k, c, src, data)
  {
    hide Run, Rules.MatchTarget, Request.Read;
    var headers := Request.ConnectHeaders(l.authority, l.path);
    Request.ConnectHeadersRead(l.authority, l.path);
    var asked, accepted :=
        ServerSees(Server.Asked(c, 0, headers, true, true, 0, 0)), ClientSees(k, Client.Headers(0, Some(200)));
    Extend(rules, ts0, asked);
    ts := ts0 + [asked];
    assert Server.Answer(c, 0, 200) in Run(rules, ts).answers;
    Extend(rules, ts, accepted);
    ts := ts + [accepted];
    assert Client.Release(0, [data])[0] == Client.Send(0, data);
  }

  lemma SendUp(rules: seq<Rules.Rule>, ts0: seq<Step>, k: nat, c: Server.Scid, src: SocketAddr, data: bytes)
    returns (ts: seq<Step>)
    requires Legal(rules, ts0) && Forwarding(Run(rules, ts0), k, c, src, data)
    ensures Legal(rules, ts) && Forwarding(Run(rules, ts), k, c, src, data) &&
            Server.Given(0, data, c) in Run(rules, ts).given
  {
    hide Run, Dgram.Decode;
    WireRoundTrip(0, data);
    var up := ServerSees(Server.FromClient(c, Wire(0, data), 0));
    Extend(rules, ts0, up);
    ts := ts0 + [up];
  }

  /** Reply `r` from socket 0 has been sent into the connection of a forwarding session. */
  lemma SendBack(rules: seq<Rules.Rule>, ts0: seq<Step>, k: nat, c: Server.Scid, src: SocketAddr, data: bytes,
                 reply: bytes)
    returns (ts: seq<Step>)
    requires Legal(rules, ts0) && Forwarding(Run(rules, ts0), k, c, src, data)
    ensures Legal(rules, ts) && Run(rules, ts).given == Run(rules, ts0).given
    ensures Run(rules, ts).links == Run(rules, ts0).links && Reply(c, 0, reply, 0) in Run(rules, ts).tunnelled
  {
    hide Run, Legal, Server.Next, Server.Inv;
    var r := Reply(c, 0, reply, 0);
    Extend(rules, ts0, TargetSends(0, reply));
    ts := ts0 + [TargetSends(0, reply)];
    Extend(rules, ts, ServerForwards(r, 0));
    ts := ts + [ServerForwards(r, 0)];
  }

  lemma SendDown(rules: seq<Rules.Rule>, ts0: seq<Step>, k: nat, c: Server.Scid, src: SocketAddr, data: bytes,
                 reply: bytes)
    returns (ts: seq<Step>)
    requires Legal(rules, ts0) && Forwarding(Run(rules, ts0), k, c, src, data)
    ensures Legal(rules, ts) && Run(rules, ts).given == Run(rules, ts0).given &&
            Delivery(k, src, reply, 0) in Run(rules, ts).delivered
  {
    hide Run, Legal, Dgram.Decode, Server.Next;
    WireRoundTrip(0, reply);
    ts := SendBack(rules, ts0, k, c, src, data, reply);
    var r := Reply(c, 0, reply, 0);
    Extend(rules, ts, ClientGets(k, r));
    ts := ts + [ClientGets(k, r)];
  }

  /**
   * The composition is not idle: for every rule table that accepts a session's endpoint, every
   * source, datagram and reply, some run gives the datagram to the flow's target socket and
   * delivers the reply to the source.
   */
  lemma ThereAndBack(rules: seq<Rules.Rule>, k: nat, c: Server.Scid, authority: string, path: string, src: SocketAddr,
                     data: bytes, reply: bytes)
    returns (ts: seq<Step>)
    requires Rules.MatchTarget(rules, authority, path).Some?
    ensures Legal(rules, ts)
    ensures var s := Run(rules, ts);
            exists socket :: Server.Given(socket, data, c) in s.given && Delivery(k, src, reply, socket) in s.delivered
  {
    hide Run, Legal, Rules.MatchTarget, Connected, Requested, Forwarding;
    var l := Link(Client.START, {}, Some(c), authority, path);
    ts := Connect(rules, k, c, [], authority, path);
    ts := RequestFlow(rules, ts, k, c, l, src, data);
    ts := OpenFlow(rules, ts, k, c, l, src, data);
    ts := SendUp(rules, ts, k, c, src, data);
    ts := SendDown(rules, ts, k, c, src, data, reply);
    assert Server.Given(0, data, c) in Run(rules, ts).given && Delivery(k, src, reply, 0) in Run(rules, ts).delivered;
  }
}
