/**
 * The client's session: one CONNECT-UDP flow per local source address.
 *
 * `Step` says what one event does to the two cross-linked maps and which datagrams it hands to
 * the tunnel; the methods of `Session` are the program's loops over such events.
 */
module Client {
  import opened Common
  import Dgram
  import Varint

  const MAX_PENDING: nat := 32

  datatype FlowState = FlowState(flowId: Option<nat>, established: bool, pending: seq<bytes>)

  datatype Maps = Maps(byAddr: map<SocketAddr, FlowState>, flows: map<nat, SocketAddr>)

  /** One call of `send_datagram`. */
  datatype Send = Send(flow: nat, payload: bytes)

  datatype Effect = Effect(maps: Maps, sends: seq<Send>)

  datatype Event =
    | Local(src: SocketAddr, data: bytes)              // a datagram from a local source
    | Opened(src: SocketAddr, stream: nat)             // send_request succeeded for a source without a flow
    | OpenFailed(src: SocketAddr)                      // send_request failed (stream limit or another error)
    | Headers(stream: nat, status: Option<nat>)        // response headers on a stream
    | Closed(stream: nat)                              // the stream finished or was reset

  const INITIAL := Maps(map[], map[])
  const UNOPENED := FlowState(None, false, [])

  function StateOf(m: Maps, src: SocketAddr): FlowState { if src in m.byAddr then m.byAddr[src] else UNOPENED }

  function OnLocal(m: Maps, src: SocketAddr, data: bytes): Effect {
    var st := StateOf(m, src);
    if st.established && st.flowId.Some? then Effect(m.(byAddr := m.byAddr[src := st]), [Send(st.flowId.value, data)])
    else if |st.pending| < MAX_PENDING then
      Effect(m.(byAddr := m.byAddr[src := st.(pending := st.pending + [data])]), [])
    else Effect(m.(byAddr := m.byAddr[src := st]), [])
  }

  function OnOpened(m: Maps, src: SocketAddr, stream: nat): Maps {
    Maps(m.byAddr[src := StateOf(m, src).(flowId := Some(stream / 4))], m.flows[stream / 4 := src])
  }

  /** The sends releasing buffered payloads. */
  function Release(fid: nat, pending: seq<bytes>): (s: seq<Send>)
    ensures |s| == |pending| && forall i :: 0 <= i < |s| ==> s[i] == Send(fid, pending[i])
  {
    seq(|pending|, i requires 0 <= i < |pending| => Send(fid, pending[i]))
  }

  function OnAccepted(m: Maps, fid: nat): Effect {
    if fid in m.flows && m.flows[fid] in m.byAddr then
      var src := m.flows[fid];
      var st := m.byAddr[src];
      Effect(m.(byAddr := m.byAddr[src := st.(established := true, pending := [])]), Release(fid, st.pending))
    else Effect(m, [])
  }

  function Forget(m: Maps, fid: nat): Maps {
    if fid in m.flows then Maps(m.byAddr - {m.flows[fid]}, m.flows - {fid}) else m
  }

  /** Any readable status outside 200..299 drops the flow, interim ones included. */
  predicate Accepting(status: Option<nat>) { status.Some? && 200 <= status.value < 300 }

  function OnHeaders(m: Maps, stream: nat, status: Option<nat>): Effect {
    if Accepting(status) then OnAccepted(m, stream / 4)
    else if status.Some? then Effect(Forget(m, stream / 4), [])
    else Effect(m, [])
  }

  function Step(m: Maps, e: Event): Effect {
    match e
    case Local(src, data) => OnLocal(m, src, data)
    case Opened(src, stream) => Effect(OnOpened(m, src, stream), [])
    case OpenFailed(src) => Effect(m.(byAddr := m.byAddr - {src}), [])
    case Headers(stream, status) => OnHeaders(m, stream, status)
    case Closed(stream) => Effect(Forget(m, stream / 4), [])
  }

  /** The local source and payload a tunnelled datagram is delivered as, if any. */
  function Route(flows: map<nat, SocketAddr>, wire: bytes): Option<(SocketAddr, bytes)> {
    match Dgram.Decode(wire)
    case None => None
    case Some(p) =>
      if p.contextId == Dgram.CONTEXT_ID_UDP && p.flowId in flows then Some((flows[p.flowId], p.payload)) else None
  }

  /**
   * A datagram is delivered exactly when it is two varints, minimal or not, for a live flow and
   * for context 0, and a payload; then the payload goes to that flow's source, unchanged.
   */
  lemma RouteExact(flows: map<nat, SocketAddr>, wire: bytes, src: SocketAddr, payload: bytes)
    ensures Route(flows, wire) == Some((src, payload)) <==>
            exists f, a, b :: f in flows && flows[f] == src && Varint.Encodes(a, f) &&
                              Varint.Encodes(b, Dgram.CONTEXT_ID_UDP) && wire == a + b + payload
  {
    hide Dgram.Decode, Varint.Encodes;
    if Route(flows, wire) == Some((src, payload)) {
      Dgram.DecodeExact(wire, Dgram.Decode(wire).value.flowId, Dgram.CONTEXT_ID_UDP, payload);
    }
    if f, a, b :| f in flows && flows[f] == src && Varint.Encodes(a, f) &&
                  Varint.Encodes(b, Dgram.CONTEXT_ID_UDP) && wire == a + b + payload {
      Dgram.FramedDecodes(a, b, f, Dgram.CONTEXT_ID_UDP, payload);
    }
  }

  /** A source waiting for a flow id. */
  predicate Waiting(m: Maps, src: SocketAddr) { src in m.byAddr && m.byAddr[src].flowId.None? }

  // ---------- map consistency ----------

  /** Flow `f` belongs to a source that knows it. */
  ghost predicate GoodFlow(m: Maps, f: nat) {
    f in m.flows ==> m.flows[f] in m.byAddr && m.byAddr[m.flows[f]].flowId == Some(f)
  }

  /** A source's flow is registered under it, and it buffers exactly until establishment, up to the bound. */
  ghost predicate GoodSource(m: Maps, s: SocketAddr) {
    s in m.byAddr ==>
      var st := m.byAddr[s];
      && (st.flowId.Some? ==> st.flowId.value in m.flows && m.flows[st.flowId.value] == s)
      && (st.established ==> st.flowId.Some?)
      && (st.established <==> st.pending == [])
      && |st.pending| <= MAX_PENDING
  }

  /** Both maps describe the same flows, and buffering follows establishment. */
  ghost predicate Consistent(m: Maps) {
    (forall f :: GoodFlow(m, f)) && (forall s :: GoodSource(m, s))
  }

  /** What the transport guarantees: requests are made for waiting sources and get unused streams. */
  ghost predicate Possible(m: Maps, owners: map<nat, SocketAddr>, e: Event) {
    match e
    case Opened(src, stream) => Waiting(m, src) && stream / 4 !in owners
    case OpenFailed(src) => Waiting(m, src)
    case _ => true
  }

  lemma LocalKeepsConsistent(m: Maps, src: SocketAddr, data: bytes)
    requires Consistent(m)
    ensures Consistent(OnLocal(m, src, data).maps)
  {
    var m' := OnLocal(m, src, data).maps;
    assert GoodSource(m, src);
    forall f: nat ensures GoodFlow(m', f) { assert GoodFlow(m, f); }
    forall s ensures GoodSource(m', s) { assert GoodSource(m, s); }
  }

  lemma OpenedKeepsConsistent(m: Maps, src: SocketAddr, stream: nat)
    requires Consistent(m) && Waiting(m, src) && stream / 4 !in m.flows
    ensures Consistent(OnOpened(m, src, stream))
  {
    var m' := OnOpened(m, src, stream);
    assert GoodSource(m, src);
    forall f: nat ensures GoodFlow(m', f) { assert GoodFlow(m, f); }
    forall s ensures GoodSource(m', s) { assert GoodSource(m, s); }
  }

  lemma FailedKeepsConsistent(m: Maps, src: SocketAddr)
    requires Consistent(m) && Waiting(m, src)
    ensures Consistent(m.(byAddr := m.byAddr - {src}))
  {
    var m' := m.(byAddr := m.byAddr - {src});
    forall f: nat ensures GoodFlow(m', f) { assert GoodFlow(m, f); }
    forall s ensures GoodSource(m', s) { assert GoodSource(m, s); }
  }

  lemma AcceptedKeepsConsistent(m: Maps, fid: nat)
    requires Consistent(m)
    ensures Consistent(OnAccepted(m, fid).maps)
  {
    var m' := OnAccepted(m, fid).maps;
    assert GoodFlow(m, fid);
    forall f: nat ensures GoodFlow(m', f) { assert GoodFlow(m, f); }
    forall s ensures GoodSource(m', s) { assert GoodSource(m, s); }
  }

  lemma ForgetKeepsConsistent(m: Maps, fid: nat)
    requires Consistent(m)
    ensures Consistent(Forget(m, fid))
  {
    var m' := Forget(m, fid);
    assert GoodFlow(m, fid);
    forall f: nat ensures GoodFlow(m', f) { assert GoodFlow(m, f); }
    forall s ensures GoodSource(m', s) { assert GoodSource(m, s); }
  }

  /** Every step keeps the maps consistent, given that live flow ids have been opened before. */
  lemma StepKeepsConsistent(m: Maps, owners: map<nat, SocketAddr>, e: Event)
    requires Consistent(m) && m.flows.Keys <= owners.Keys && Possible(m, owners, e)
    ensures Consistent(Step(m, e).maps)
  {
    hide Consistent, OnLocal, OnOpened, OnAccepted, Forget;
    match e
    case Local(src, data) => LocalKeepsConsistent(m, src, data);
    case Opened(src, stream) => OpenedKeepsConsistent(m, src, stream);
    case OpenFailed(src) => FailedKeepsConsistent(m, src);
    case Headers(stream, status) =>
      AcceptedKeepsConsistent(m, stream / 4);
      ForgetKeepsConsistent(m, stream / 4);
    case Closed(stream) => ForgetKeepsConsistent(m, stream / 4);
  }

  // ---------- what is sent, over whole runs ----------

  /** One lifetime of a source's flow: what arrived, and how much of it before the flow was accepted. */
  datatype Life = Life(arrivals: seq<bytes>, released: Option<nat>)

  /**
   * A session with its past: everything sent, the lifetimes of the current sources, the finished
   * lifetimes by flow id, and the source each flow id was ever opened for.
   */
  datatype History = History(maps: Maps, sent: seq<Send>, lives: map<SocketAddr, Life>, ended: map<nat, Life>,
                             owners: map<nat, SocketAddr>)

  const START := History(INITIAL, [], map[], map[], map[])

  function LifeOf(h: History, src: SocketAddr): Life { if src in h.lives then h.lives[src] else Life([], None) }

  function RecordArrival(h: History, src: SocketAddr, data: bytes): History {
    var l := LifeOf(h, src);
    h.(lives := h.lives[src := l.(arrivals := l.arrivals + [data])])
  }

  function RecordAccept(h: History, fid: nat): History {
    if fid in h.maps.flows then
      var src := h.maps.flows[fid];
      var l := LifeOf(h, src);
      h.(lives := h.lives[src := if l.released.None? then l.(released := Some(|l.arrivals|)) else l])
    else h
  }

  function RecordEnd(h: History, fid: nat): History {
    if fid in h.maps.flows then
      var src := h.maps.flows[fid];
      h.(lives := h.lives - {src}, ended := h.ended[fid := LifeOf(h, src)])
    else h
  }

  /** What an event adds to the past, read off the event and the maps before it. */
  function Record(h: History, e: Event): History {
    match e
    case Local(src, data) => RecordArrival(h, src, data)
    case Opened(src, stream) => h.(owners := h.owners[stream / 4 := src])
    case OpenFailed(src) => h.(lives := h.lives - {src})
    case Headers(stream, status) =>
      if Accepting(status) then RecordAccept(h, stream / 4)
      else if status.Some? then RecordEnd(h, stream / 4) else h
    case Closed(stream) => RecordEnd(h, stream / 4)
  }

  function Next(h: History, e: Event): History {
    var effect := Step(h.maps, e);
    Record(h, e).(maps := effect.maps, sent := h.sent + effect.sends)
  }

  /** The history after a run of events. */
  function Run(es: seq<Event>): History {
    if es == [] then START else Next(Run(es[..|es| - 1]), es[|es| - 1])
  }

  ghost predicate Legal(es: seq<Event>) {
    es == [] || (Legal(es[..|es| - 1]) && var h := Run(es[..|es| - 1]); Possible(h.maps, h.owners, es[|es| - 1]))
  }

  /** The payloads handed to the tunnel on flow `f`, in order. */
  function SentOn(sent: seq<Send>, f: nat): seq<bytes> {
    if sent == [] then []
    else
      var n := |sent| - 1;
      SentOn(sent[..n], f) + (if sent[n].flow == f then [sent[n].payload] else [])
  }

  function FirstPending(a: seq<bytes>): seq<bytes> { if |a| <= MAX_PENDING then a else a[..MAX_PENDING] }

  /** First come, at most 32 of them, then everything after acceptance; nothing before it. */
  function Expected(l: Life): seq<bytes> {
    match l.released
    case None => []
    case Some(k) => if k <= |l.arrivals| then FirstPending(l.arrivals[..k]) + l.arrivals[k..] else []
  }

  /** A source's buffer against its lifetime. */
  ghost predicate GoodLife(h: History, s: SocketAddr) {
    && (s in h.maps.byAddr <==> s in h.lives)
    && (s in h.lives ==>
          var st, l := StateOf(h.maps, s), h.lives[s];
          && (st.established <==> l.released.Some?)
          && (l.released.Some? ==> l.released.value <= |l.arrivals|)
          && (!st.established ==> st.pending == FirstPending(l.arrivals)))
  }

  /** A flow's sends against its lifetime, live or ended; and every flow ever opened is one of the two. */
  ghost predicate GoodSends(h: History, f: nat) {
    && (f in h.maps.flows ==> f in h.owners && h.owners[f] == h.maps.flows[f] && f !in h.ended)
    && (f in h.maps.flows ==> SentOn(h.sent, f) == Expected(LifeOf(h, h.maps.flows[f])))
    && (f in h.ended ==> f in h.owners && SentOn(h.sent, f) == Expected(h.ended[f]))
    && (f in h.owners ==> f in h.maps.flows || f in h.ended)
    && (f !in h.owners ==> SentOn(h.sent, f) == [])
  }

  ghost predicate Inv(h: History) {
    && Consistent(h.maps)
    && (forall s :: GoodLife(h, s))
    && (forall f :: GoodSends(h, f))
  }

  lemma SentOnPush(sent: seq<Send>, s: Send, f: nat)
    ensures SentOn(sent + [s], f) == SentOn(sent, f) + (if s.flow == f then [s.payload] else [])
  {
    assert (sent + [s])[..|sent|] == sent;
  }

  lemma {:induction false} SentOnRelease(sent: seq<Send>, fid: nat, ps: seq<bytes>, f: nat)
    ensures SentOn(sent + Release(fid, ps), f) == SentOn(sent, f) + (if f == fid then ps else [])
  {
    hide SentOn;
    if ps == [] {
      assert sent + Release(fid, ps) == sent;
    } else {
      var n := |ps| - 1;
      var front := sent + Release(fid, ps[..n]);
      SentOnRelease(sent, fid, ps[..n], f);
      SentOnPush(front, Send(fid, ps[n]), f);
      assert sent + Release(fid, ps) == front + [Send(fid, ps[n])];
      assert ps == ps[..n] + [ps[n]];
    }
  }

  lemma ExpectedGrows(l: Life, data: bytes)
    requires l.released.Some? ==> l.released.value <= |l.arrivals|
    ensures Expected(l.(arrivals := l.arrivals + [data])) == Expected(l) + (if l.released.Some? then [data] else [])
  {
    if l.released.Some? {
      var k := l.released.value;
      var a := l.arrivals + [data];
      assert a[..k] == l.arrivals[..k] && a[k..] == l.arrivals[k..] + [data];
    }
  }

  lemma FirstPendingGrows(a: seq<bytes>, data: bytes)
    ensures FirstPending(a + [data]) ==
            if |FirstPending(a)| < MAX_PENDING then FirstPending(a) + [data] else FirstPending(a)
  {
  }

  lemma LocalKeepsInv(h: History, src: SocketAddr, data: bytes)
    requires Inv(h)
    ensures Inv(Next(h, Local(src, data)))
  {
    hide Consistent, Expected, SentOn, FirstPending;
    var h' := Next(h, Local(src, data));
    LocalKeepsConsistent(h.maps, src, data);
    assert GoodSource(h.maps, src) by { SourceOf(h.maps, src); }
    assert GoodLife(h, src);
    var st, l := StateOf(h.maps, src), LifeOf(h, src);
    ExpectedGrows(l, data);
    FirstPendingGrows(l.arrivals, data);
    EmptyPending();
    forall s ensures GoodLife(h', s) { assert GoodLife(h, s); }
    forall f: nat ensures GoodSends(h', f) {
      assert GoodSends(h, f);
      assert GoodFlow(h.maps, f) by { FlowOf(h.maps, f); }
      if st.established {
        SentOnRelease(h.sent, st.flowId.value, [data], f);
        assert Release(st.flowId.value, [data]) == [Send(st.flowId.value, data)];
        assert SentOn(h'.sent, f) == SentOn(h.sent, f) + (if Some(f) == st.flowId then [data] else []);
        NothingAdded(SentOn(h.sent, f));
      } else {
        assert h'.sent == h.sent;
        NothingAdded(Expected(l));
      }
    }
  }

  lemma SourceOf(m: Maps, s: SocketAddr) requires Consistent(m) ensures GoodSource(m, s) {}

  lemma FlowOf(m: Maps, f: nat) requires Consistent(m) ensures GoodFlow(m, f) {}

  lemma NothingAdded(s: seq<bytes>) ensures s + [] == s {}

  lemma EmptyPending() ensures FirstPending([]) == [] {}

  lemma OpenedKeepsInv(h: History, src: SocketAddr, stream: nat)
    requires Inv(h) && Waiting(h.maps, src) && stream / 4 !in h.owners
    ensures Inv(Next(h, Opened(src, stream)))
  {
    hide Consistent, Expected, SentOn, FirstPending;
    var h' := Next(h, Opened(src, stream));
    assert GoodSends(h, stream / 4);
    OpenedKeepsConsistent(h.maps, src, stream);
    assert h'.sent == h.sent;
    forall s ensures GoodLife(h', s) { assert GoodLife(h, s); }
    assert GoodSource(h.maps, src) by { SourceOf(h.maps, src); }
    assert GoodLife(h, src);
    ExpectedUnreleased(LifeOf(h, src));
    forall f: nat ensures GoodSends(h', f) { assert GoodSends(h, f); }
  }

  lemma ExpectedUnreleased(l: Life) ensures l.released.None? ==> Expected(l) == [] {}

  lemma FailedKeepsInv(h: History, src: SocketAddr)
    requires Inv(h) && Waiting(h.maps, src)
    ensures Inv(Next(h, OpenFailed(src)))
  {
    hide Consistent, Expected, SentOn, FirstPending;
    var h' := Next(h, OpenFailed(src));
    FailedKeepsConsistent(h.maps, src);
    assert h'.sent == h.sent;
    forall s ensures GoodLife(h', s) { assert GoodLife(h, s); }
    forall f: nat ensures GoodSends(h', f) {
      assert GoodSends(h, f);
      assert GoodFlow(h.maps, f) by { FlowOf(h.maps, f); }
    }
  }

  lemma AcceptedKeepsInv(h: History, stream: nat, status: Option<nat>)
    requires Inv(h) && Accepting(status)
    ensures Inv(Next(h, Headers(stream, status)))
  {
    hide Consistent, Expected, SentOn, FirstPending;
    var fid := stream / 4;
    var h' := Next(h, Headers(stream, status));
    AcceptedKeepsConsistent(h.maps, fid);
    assert GoodFlow(h.maps, fid) by { FlowOf(h.maps, fid); }
    if fid !in h.maps.flows {
      assert h' == h by { assert h.sent + [] == h.sent; }
    } else {
      var src := h.maps.flows[fid];
      assert GoodSource(h.maps, src) by { SourceOf(h.maps, src); }
      assert GoodLife(h, src) && GoodSends(h, fid);
      var st, l := h.maps.byAddr[src], h.lives[src];
      ExpectedOnRelease(l);
      forall s ensures GoodLife(h', s) { assert GoodLife(h, s); }
      forall f: nat ensures GoodSends(h', f) {
        assert GoodSends(h, f);
        assert GoodFlow(h.maps, f) by { FlowOf(h.maps, f); }
        SentOnRelease(h.sent, fid, st.pending, f);
        NothingAdded(SentOn(h.sent, f));
      }
    }
  }

  lemma ExpectedOnRelease(l: Life)
    ensures l.released.None? ==> Expected(l.(released := Some(|l.arrivals|))) == Expected(l) + FirstPending(l.arrivals)
  {
    assert l.arrivals[..|l.arrivals|] == l.arrivals;
  }

  lemma EndKeepsInv(h: History, fid: nat)
    requires Inv(h)
    ensures Inv(RecordEnd(h, fid).(maps := Forget(h.maps, fid)))
  {
    hide Consistent, Expected, SentOn, FirstPending;
    var h' := RecordEnd(h, fid).(maps := Forget(h.maps, fid));
    ForgetKeepsConsistent(h.maps, fid);
    assert GoodFlow(h.maps, fid) by { FlowOf(h.maps, fid); }
    forall s ensures GoodLife(h', s) { assert GoodLife(h, s); }
    forall f: nat ensures GoodSends(h', f) {
      assert GoodSends(h, f) && GoodSends(h, fid);
      assert GoodFlow(h.maps, f) by { FlowOf(h.maps, f); }
    }
  }

  lemma StepKeepsInv(h: History, e: Event)
    requires Inv(h) && Possible(h.maps, h.owners, e)
    ensures Inv(Next(h, e))
  {
    hide Inv, OnLocal, OnOpened, OnAccepted, Forget, RecordEnd, RecordAccept, RecordArrival;
    match e
    case Local(src, data) => LocalKeepsInv(h, src, data);
    case Opened(src, stream) => OpenedKeepsInv(h, src, stream);
    case OpenFailed(src) => FailedKeepsInv(h, src);
    case Headers(stream, status) =>
      assert h.sent + [] == h.sent;
      if Accepting(status) {
        AcceptedKeepsInv(h, stream, status);
      } else if status.Some? {
        EndKeepsInv(h, stream / 4);
        RecordEndKeepsSent(h, stream / 4);
      } else {
        assert Next(h, e) == h;
      }
    case Closed(stream) =>
      assert h.sent + [] == h.sent;
      EndKeepsInv(h, stream / 4);
      RecordEndKeepsSent(h, stream / 4);
  }

  lemma RecordEndKeepsSent(h: History, fid: nat) ensures RecordEnd(h, fid).sent == h.sent {}

  /** The invariant holds after every legal run. */
  lemma {:induction false} RunKeepsInv(es: seq<Event>)
    requires Legal(es)
    ensures Inv(Run(es))
  {
    hide Next, Inv;
    if es == [] {
      StartInv();
    } else {
      var n := |es| - 1;
      RunKeepsInv(es[..n]);
      StepKeepsInv(Run(es[..n]), es[n]);
    }
  }

  lemma StartInv() ensures Inv(START) {
    forall s ensures GoodSource(INITIAL, s) {}
    forall f: nat ensures GoodFlow(INITIAL, f) {}
    forall s ensures GoodLife(START, s) {}
    forall f: nat ensures GoodSends(START, f) {}
  }

  /**
   * After every run of the session: the two maps agree, buffers respect the bound, and for every
   * flow ever opened, live or ended, the payloads handed to the tunnel are the first 32 (or fewer)
   * that arrived before acceptance followed by all that arrived after it, in arrival order and
   * without repeats; a flow never accepted sent nothing.
   */
  lemma FifoAtMostOnce(es: seq<Event>, f: nat)
    requires Legal(es)
    ensures var h := Run(es);
            && Consistent(h.maps)
            && (f in h.owners ==>
                SentOn(h.sent, f) == Expected(if f in h.ended then h.ended[f] else LifeOf(h, h.owners[f])))
            && (f !in h.owners ==> SentOn(h.sent, f) == [])
  {
    hide Run, Consistent, Legal;
    RunKeepsInv(es);
    assert GoodSends(Run(es), f);
  }

  // ---------- the session object ----------

  /** One more event of a run. */
  lemma RunNext(es: seq<Event>, e: Event)
    ensures Run(es + [e]) == Next(Run(es), e)
    ensures Legal(es) && Possible(Run(es).maps, Run(es).owners, e) ==> Legal(es + [e])
  {
    hide Next, Possible;
    var all := es + [e];
    assert all[..|all| - 1] == es && all[|all| - 1] == e;
  }

  /** The outcome of one CONNECT request. */
  datatype Outcome = Granted(stream: nat) | Blocked | Refused

  function LocalEvents(pkts: seq<(bytes, SocketAddr)>): (es: seq<Event>)
    ensures |es| == |pkts| && forall i :: 0 <= i < |es| ==> es[i] == Local(pkts[i].1, pkts[i].0)
  {
    seq(|pkts|, i requires 0 <= i < |pkts| => Local(pkts[i].1, pkts[i].0))
  }

  /** The request made for one source, if it waits for a flow; a blocked request leaves no trace. */
  function OpenEvent(m: Maps, src: SocketAddr, outcome: map<SocketAddr, Outcome>): seq<Event> {
    if !Waiting(m, src) || src !in outcome then []
    else match outcome[src]
      case Granted(stream) => [Opened(src, stream)]
      case Refused => [OpenFailed(src)]
      case Blocked => []
  }

  function OpenEvents(m: Maps, order: seq<SocketAddr>, outcome: map<SocketAddr, Outcome>): seq<Event> {
    if order == [] then []
    else OpenEvents(m, order[..|order| - 1], outcome) + OpenEvent(m, order[|order| - 1], outcome)
  }

  function Routed(flows: map<nat, SocketAddr>, wires: seq<bytes>): seq<(SocketAddr, bytes)> {
    if wires == [] then []
    else
      var n := |wires| - 1;
      Routed(flows, wires[..n]) + (match Route(flows, wires[n]) case Some(d) => [d] case None => [])
  }

  /** Datagrams are routed one by one, in order. */
  lemma {:induction false} RoutedConcat(flows: map<nat, SocketAddr>, a: seq<bytes>, b: seq<bytes>)
    ensures Routed(flows, a + b) == Routed(flows, a) + Routed(flows, b)
    ensures Routed(flows, []) == []
  {
    hide Route;
    if b == [] {
      assert a + b == a;
    } else {
      var n := |b| - 1;
      assert (a + b)[..|a + b| - 1] == a + b[..n] && (a + b)[|a + b| - 1] == b[n];
      RoutedConcat(flows, a, b[..n]);
    }
  }

  /** One datagram yields one delivery, to the source of the live flow it encodes with context 0, or none. */
  lemma RoutedOne(flows: map<nat, SocketAddr>, wire: bytes, src: SocketAddr, payload: bytes)
    ensures |Routed(flows, [wire])| <= 1
    ensures Routed(flows, [wire]) == [(src, payload)] <==>
            exists f, a, b :: f in flows && flows[f] == src && Varint.Encodes(a, f) &&
                              Varint.Encodes(b, Dgram.CONTEXT_ID_UDP) && wire == a + b + payload
  {
    hide Route, Varint.Encodes;
    RouteExact(flows, wire, src, payload);
    assert [wire][..0] == [];
    assert Routed(flows, [wire][..0]) == [];
    match Route(flows, wire) {
      case Some(d) =>
        assert Routed(flows, [wire]) == [d] && [d][0] == d && [(src, payload)][0] == (src, payload);
      case None =>
        assert Routed(flows, [wire]) == [];
    }
  }

  // ---------- what the requests do to the maps ----------

  /** Source `s` waited in `m` and was granted flow `f`. */
  ghost predicate Gets(m: Maps, outcome: map<SocketAddr, Outcome>, s: SocketAddr, f: nat) {
    Waiting(m, s) && s in outcome && outcome[s].Granted? && outcome[s].stream / 4 == f
  }

  /**
   * A source after the requests for the sources `done`: with a flow already, or blocked, it is as it
   * was; granted, it has its flow and keeps its buffer; refused, it is gone.
   */
  ghost predicate SourceAfter(m: Maps, m': Maps, outcome: map<SocketAddr, Outcome>, done: seq<SocketAddr>,
                              s: SocketAddr) {
    if s !in done || !Waiting(m, s) || s !in outcome || outcome[s].Blocked? then
      (s in m'.byAddr <==> s in m.byAddr) && (s in m.byAddr ==> m'.byAddr[s] == m.byAddr[s])
    else if outcome[s].Granted? then
      s in m'.byAddr && m'.byAddr[s] == m.byAddr[s].(flowId := Some(outcome[s].stream / 4))
    else s !in m'.byAddr
  }

  /** The flows after them: the old ones, and one for each granted source. */
  ghost predicate FlowAfter(m: Maps, m': Maps, outcome: map<SocketAddr, Outcome>, done: seq<SocketAddr>, f: nat) {
    && (f in m.flows ==> f in m'.flows && m'.flows[f] == m.flows[f])
    && (forall s :: s in done && Gets(m, outcome, s, f) ==> f in m'.flows && m'.flows[f] == s)
    && (f in m'.flows && f !in m.flows ==> m'.flows[f] in done && Gets(m, outcome, m'.flows[f], f))
  }

  ghost predicate RequestsDone(m: Maps, m': Maps, outcome: map<SocketAddr, Outcome>, done: seq<SocketAddr>) {
    (forall s :: SourceAfter(m, m', outcome, done, s)) && (forall f: nat :: FlowAfter(m, m', outcome, done, f))
  }

  lemma {:induction false} RequestsExact(past: seq<Event>, done: seq<SocketAddr>, outcome: map<SocketAddr, Outcome>)
    requires DistinctStreams(outcome) && forall i, j :: 0 <= i < j < |done| ==> done[i] != done[j]
    requires forall s :: s in outcome ==> Unused(outcome, s, Run(past).maps.flows)
    ensures RequestsDone(Run(past).maps, Run(past + OpenEvents(Run(past).maps, done, outcome)).maps, outcome, done)
  {
    hide Run, DistinctStreams, Unused, RequestsDone, Next;
    var m := Run(past).maps;
    if done == [] {
      assert past + [] == past;
      NoRequests(m, outcome);
    } else {
      var n := |done| - 1;
      var front, src := done[..n], done[n];
      RequestsExact(past, front, outcome);
      var before := past + OpenEvents(m, front, outcome);
      var e := OpenEvent(m, src, outcome);
      assert past + OpenEvents(m, done, outcome) == before + e && done == front + [src];
      if e == [] {
        assert before + [] == before;
      } else {
        RunNext(before, e[0]);
        NextMaps(Run(before), e[0]);
      }
      OneRequest(m, Run(before).maps, outcome, front, src);
    }
  }

  lemma NextMaps(h: History, e: Event)
    ensures Next(h, e).maps == Step(h.maps, e).maps
  {
  }

  lemma NoRequests(m: Maps, outcome: map<SocketAddr, Outcome>)
    ensures RequestsDone(m, m, outcome, [])
  {
  }

  /** One more source requested. */
  lemma OneRequest(m: Maps, m1: Maps, outcome: map<SocketAddr, Outcome>, front: seq<SocketAddr>, src: SocketAddr)
    requires RequestsDone(m, m1, outcome, front) && src !in front
    requires DistinctStreams(outcome) && forall s :: s in outcome ==> Unused(outcome, s, m.flows)
    ensures var e := OpenEvent(m, src, outcome);
            RequestsDone(m, if e == [] then m1 else Step(m1, e[0]).maps, outcome, front + [src])
  {
    var e := OpenEvent(m, src, outcome);
    var m' := if e == [] then m1 else Step(m1, e[0]).maps;
    var done := front + [src];
    assert SourceAfter(m, m1, outcome, front, src);
    forall s ensures SourceAfter(m, m', outcome, done, s) {
      assert SourceAfter(m, m1, outcome, front, s);
    }
    forall f: nat ensures FlowAfter(m, m', outcome, done, f) {
      assert done[..|done| - 1] == front;
      OneRequestFlow(m, m1, m', outcome, done, f);
    }
  }

  lemma OneRequestFlow(m: Maps, m1: Maps, m': Maps, outcome: map<SocketAddr, Outcome>, done: seq<SocketAddr>, f: nat)
    requires done != [] && DistinctStreams(outcome) && FlowAfter(m, m1, outcome, done[..|done| - 1], f)
    requires forall s :: s in outcome ==> Unused(outcome, s, m.flows)
    requires var src := done[|done| - 1];
             m'.flows == if Waiting(m, src) && src in outcome && outcome[src].Granted?
                         then m1.flows[outcome[src].stream / 4 := src] else m1.flows
    ensures FlowAfter(m, m', outcome, done, f)
  {
    hide Waiting;
    var front, src := done[..|done| - 1], done[|done| - 1];
    assert forall s :: s in done <==> s in front || s == src;
    assert src in outcome ==> Unused(outcome, src, m.flows);
  }

  /** A stream event as polling reports it; the model's other events have no effect. */
  predicate Polled(e: Event) { e.Headers? || e.Closed? }

  /**
   * The client's session. Whatever calls are made on it, its state is that of a legal run, the run
   * of its `past`.
   */
  class Session {
    var byAddr: map<SocketAddr, FlowState>
    var flows: map<nat, SocketAddr>
    /** The calls of `send_datagram`, in order. */
    var sent: seq<Send>
    /** The datagrams given to the local socket, in order. */
    var delivered: seq<(SocketAddr, bytes)>
    ghost var past: seq<Event>

    ghost predicate Valid() reads this {
      Legal(past) && Run(past).maps == Maps(byAddr, flows) && Run(past).sent == sent
    }

    constructor ()
      ensures Valid() && past == [] && delivered == []
    {
      byAddr, flows, sent, delivered, past := map[], map[], [], [], [];
    }

    /** Forward each datagram of an established flow; buffer the others up to the bound. */
    method QueueLocal(pkts: seq<(bytes, SocketAddr)>)
      requires Valid()
      modifies this
      ensures Valid() && past == old(past) + LocalEvents(pkts) && delivered == old(delivered)
    {
      hide Run, Legal, LocalEvents;
      ghost var es := LocalEvents(pkts);
      var i := 0;
      while i < |pkts|
        invariant 0 <= i <= |pkts|
        invariant Valid() && past == old(past) + es[..i] && delivered == old(delivered)
      {
        QueueOne(pkts[i].0, pkts[i].1);
        assert es[..i] + [es[i]] == es[..i + 1];
        i := i + 1;
      }
      assert es[..i] == es;
    }

    method QueueOne(data: bytes, src: SocketAddr)
      requires Valid()
      modifies this
      ensures Valid() && past == old(past) + [Local(src, data)] && delivered == old(delivered)
    {
      hide Run, Legal;
      RunNext(past, Local(src, data));
      past := past + [Local(src, data)];
      if src !in byAddr {
        byAddr := byAddr[src := UNOPENED];
      }
      var st := byAddr[src];
      if st.established && st.flowId.Some? {
        sent := sent + [Send(st.flowId.value, data)];
      } else if |st.pending| < MAX_PENDING {
        byAddr := byAddr[src := st.(pending := st.pending + [data])];
      }
    }

    /**
     * Request a flow for every waiting source, in whatever order the map yields them; refused
     * sources are dropped after the loop, which is the same as dropping them at once.
     */
    method OpenPendingFlows(order: seq<SocketAddr>, outcome: map<SocketAddr, Outcome>)
      requires Valid() && Plan(order, outcome, byAddr.Keys)
      requires forall s :: s in outcome ==> Unused(outcome, s, Run(past).owners)
      modifies this
      ensures Valid() && past == old(past) + OpenEvents(Run(old(past)).maps, order, outcome)
      ensures delivered == old(delivered) && sent == old(sent)
      ensures RequestsDone(old(Maps(byAddr, flows)), Maps(byAddr, flows), outcome, order)
    {
      hide Opening, Run, Legal, OpenEvents, RequestsDone;
      ghost var o := OpenLoop(Run(past).maps, order, outcome, 0, byAddr, flows, {}, Run(past));
      var dropped: set<SocketAddr> := {};
      var i := 0;
      OpeningStart(o);
      assert past + OpenEvents(o.m0, order[..0], outcome) == past;
      while i < |order|
        invariant 0 <= i <= |order| && delivered == old(delivered) && sent == old(sent)
        invariant Within(o, dropped) && o.m0 == Run(old(past)).maps
        invariant o.order == order && o.outcome == outcome && o.i == i
        invariant past == old(past) + OpenEvents(o.m0, order[..i], outcome)
      {
        OpenEventsNext(o.m0, order, outcome, i);
        OpeningUntouched(o);
        ghost var es, e := OpenEvents(o.m0, order[..i], outcome), OpenEvent(o.m0, order[i], outcome);
        assert old(past) + es + e == old(past) + (es + e);
        dropped, o := OpenOne(order[i], outcome[order[i]], dropped, o);
        i := i + 1;
      }
      assert order[..i] == order;
      OpeningEnd(o);
      byAddr := byAddr - dropped;
      FlowsOwned(old(past));
      RequestsExact(old(past), order, outcome);
    }

    /** The session half way through its requests. */
    ghost predicate Within(o: OpenLoop, dropped: set<SocketAddr>) reads this {
      && Opening(o) && Legal(past) && sent == Run(past).sent
      && o == OpenLoop(o.m0, o.order, o.outcome, o.i, byAddr, flows, dropped, Run(past))
    }

    method OpenOne(src: SocketAddr, result: Outcome, dropped0: set<SocketAddr>, ghost o: OpenLoop)
      returns (dropped: set<SocketAddr>, ghost o': OpenLoop)
      requires Within(o, dropped0) && o.i < |o.order| && src == o.order[o.i]
      requires src in o.outcome && o.outcome[src] == result && Untouched(o, src)
      modifies this
      ensures Within(o', dropped) && delivered == old(delivered) && sent == old(sent)
      ensures o'.m0 == o.m0 && o'.order == o.order && o'.outcome == o.outcome && o'.i == o.i + 1
      ensures past == old(past) + OpenEvent(o.m0, src, o.outcome)
    {
      hide Opening, Run, Legal, Next;
      dropped := dropped0;
      if byAddr[src].flowId.Some? || result.Blocked? {
        OpeningSkip(o);
        assert past + [] == past;
      } else if result.Granted? {
        OpeningGranted(o, result.stream);
        RunNext(past, Opened(src, result.stream));
        NextOpened(Run(past), src, result.stream);
        byAddr := byAddr[src := byAddr[src].(flowId := Some(result.stream / 4))];
        flows := flows[result.stream / 4 := src];
        past := past + [Opened(src, result.stream)];
      } else {
        OpeningRefused(o);
        RunNext(past, OpenFailed(src));
        NextFailed(Run(past), src);
        dropped := dropped + {src};
        past := past + [OpenFailed(src)];
      }
      o' := OpenLoop(o.m0, o.order, o.outcome, o.i + 1, byAddr, flows, dropped, Run(past));
    }

    /** Consume responses and stream ends. */
    method PollResponses(es: seq<Event>)
      requires Valid()
      requires forall e :: e in es ==> Polled(e)
      modifies this
      ensures Valid() && past == old(past) + es && delivered == old(delivered)
    {
      hide Run, Legal;
      var i := 0;
      while i < |es|
        invariant 0 <= i <= |es|
        invariant Valid() && past == old(past) + es[..i] && delivered == old(delivered)
      {
        assert es[i] in es;
        PollOne(es[i]);
        assert es[..i] + [es[i]] == es[..i + 1];
        i := i + 1;
      }
      assert es[..i] == es;
    }

    /** One polled event: release the buffer on acceptance, forget the flow on refusal or close. */
    method PollOne(e: Event)
      requires Valid() && Polled(e)
      modifies this
      ensures Valid() && past == old(past) + [e] && delivered == old(delivered)
      ensures var f := e.stream / 4;
              if e.Headers? && (e.status.None? || (200 <= e.status.value < 300 && f !in old(flows))) then
                flows == old(flows) && byAddr == old(byAddr) && sent == old(sent)
              else if e.Headers? && 200 <= e.status.value < 300 then
                var src, st := old(flows)[f], StateOf(old(Maps(byAddr, flows)), old(flows)[f]);
                && flows == old(flows) && sent == old(sent) + Release(f, st.pending)
                && byAddr == old(byAddr)[src := st.(established := true, pending := [])]
              else
                && flows == old(flows) - {f} && sent == old(sent)
                && byAddr == if f in old(flows) then old(byAddr) - {old(flows)[f]} else old(byAddr)
    {
      hide Run, Legal;
      FlowsKnown(past);
      ghost var m := Maps(byAddr, flows);
      RunNext(past, e);
      past := past + [e];
      var fid := e.stream / 4;
      if e.Headers? && e.status.Some? && 200 <= e.status.value < 300 {
        if fid in flows && flows[fid] in byAddr {
          var src := flows[fid];
          var pending := byAddr[src].pending;
          byAddr := byAddr[src := byAddr[src].(established := true, pending := [])];
          var i := 0;
          while i < |pending|
            invariant 0 <= i <= |pending|
            invariant sent == old(sent) + Release(fid, pending)[..i]
            invariant Maps(byAddr, flows) == OnAccepted(m, fid).maps
            invariant past == old(past) + [e] && delivered == old(delivered)
          {
            sent := sent + [Send(fid, pending[i])];
            i := i + 1;
          }
          assert Release(fid, pending)[..i] == Release(fid, pending);
        }
      } else if e.Closed? || e.status.Some? {
        if fid in flows {
          var src := flows[fid];
          flows := flows - {fid};
          byAddr := byAddr - {src};
        }
      }
    }

    /** Deliver tunnelled datagrams to the local source of their flow; drop all others. */
    method RouteTunnelDatagrams(wires: seq<bytes>)
      modifies this`delivered
      ensures delivered == old(delivered) + Routed(flows, wires)
    {
      hide Route;
      var i := 0;
      while i < |wires|
        invariant 0 <= i <= |wires|
        invariant delivered == old(delivered) + Routed(flows, wires[..i])
      {
        assert wires[..i + 1][..i] == wires[..i];
        var r := Route(flows, wires[i]);
        if r.Some? {
          delivered := delivered + [r.value];
        }
        i := i + 1;
      }
      assert wires[..i] == wires;
    }
  }

  /** So after any calls a session's maps agree, and on every flow it has sent what the run theorem says. */
  lemma SessionFifo(session: Session, f: nat)
    requires session.Valid()
    ensures Consistent(Maps(session.byAddr, session.flows))
    ensures var h := Run(session.past);
            SentOn(session.sent, f) ==
            if f in h.owners then Expected(if f in h.ended then h.ended[f] else LifeOf(h, h.owners[f])) else []
  {
    hide Run, Consistent, Legal, SentOn, Expected;
    FifoAtMostOnce(session.past, f);
  }

  /** Every live flow's source is known. */
  lemma FlowsKnown(es: seq<Event>)
    requires Legal(es)
    ensures forall f :: f in Run(es).maps.flows ==> Run(es).maps.flows[f] in Run(es).maps.byAddr
  {
    hide Run, Legal, GoodLife, GoodSends;
    RunKeepsInv(es);
    forall f | f in Run(es).maps.flows ensures Run(es).maps.flows[f] in Run(es).maps.byAddr {
      assert GoodFlow(Run(es).maps, f);
    }
  }

  // ---------- the request loop ----------

  /**
   * The loop over the waiting sources: the maps it started from, the visiting order, the outcomes,
   * how many sources are done, the session's own maps, the refused sources still in them, and the
   * run so far, in which those are dropped at once.
   */
  datatype OpenLoop = OpenLoop(m0: Maps, order: seq<SocketAddr>, outcome: map<SocketAddr, Outcome>, i: nat,
                               byAddr: map<SocketAddr, FlowState>, flows: map<nat, SocketAddr>,
                               dropped: set<SocketAddr>, h: History)

  ghost predicate Opening(o: OpenLoop) {
    && o.i <= |o.order| && o.byAddr.Keys == o.m0.byAddr.Keys
    && Plan(o.order, o.outcome, o.m0.byAddr.Keys)
    && o.h.maps == Maps(o.byAddr - o.dropped, o.flows)
    && forall k :: Ahead(o, k)
  }

  /** Every source is visited once and has an outcome; granted requests get streams of their own. */
  ghost predicate Plan(order: seq<SocketAddr>, outcome: map<SocketAddr, Outcome>, sources: set<SocketAddr>) {
    && outcome.Keys == sources && (forall s :: s in order <==> s in sources)
    && (forall k, l :: 0 <= k < l < |order| ==> order[k] != order[l])
    && DistinctStreams(outcome)
  }

  ghost predicate Ahead(o: OpenLoop, k: nat) {
    o.i <= k < |o.order| ==> Untouched(o, o.order[k]) && Unused(o.outcome, o.order[k], o.h.owners)
  }

  /** A source the loop has not come to yet. */
  ghost predicate Untouched(o: OpenLoop, s: SocketAddr) {
    s !in o.dropped && s in o.byAddr && s in o.m0.byAddr && o.byAddr[s] == o.m0.byAddr[s]
  }

  ghost predicate Unused(outcome: map<SocketAddr, Outcome>, s: SocketAddr, owners: map<nat, SocketAddr>) {
    s in outcome && outcome[s].Granted? ==> outcome[s].stream / 4 !in owners
  }

  ghost predicate DistinctStreams(outcome: map<SocketAddr, Outcome>) {
    forall s, t :: s in outcome && t in outcome && s != t && outcome[s].Granted? && outcome[t].Granted?
                   ==> outcome[s].stream / 4 != outcome[t].stream / 4
  }

  lemma OpeningStart(o: OpenLoop)
    requires o.i == 0 && o.dropped == {} && o.m0 == o.h.maps == Maps(o.byAddr, o.flows)
    requires Plan(o.order, o.outcome, o.byAddr.Keys)
    requires forall s :: s in o.outcome ==> Unused(o.outcome, s, o.h.owners)
    ensures Opening(o)
    ensures OpenEvents(o.m0, o.order[..0], o.outcome) == []
  {
    hide DistinctStreams, Unused;
    assert o.byAddr - {} == o.byAddr;
    forall k: nat ensures Ahead(o, k) {}
  }

  lemma OpenEventsNext(m: Maps, order: seq<SocketAddr>, outcome: map<SocketAddr, Outcome>, i: nat)
    requires i < |order|
    ensures OpenEvents(m, order[..i + 1], outcome) ==
            OpenEvents(m, order[..i], outcome) + OpenEvent(m, order[i], outcome)
  {
    assert order[..i + 1][..i] == order[..i];
  }

  lemma OpeningUntouched(o: OpenLoop)
    requires Opening(o) && o.i < |o.order|
    ensures Untouched(o, o.order[o.i]) && o.order[o.i] in o.outcome
  {
    hide Unused, DistinctStreams;
    assert Ahead(o, o.i);
  }

  lemma OpeningSkip(o: OpenLoop)
    requires Opening(o) && o.i < |o.order|
    ensures Opening(o.(i := o.i + 1))
  {
    hide Unused, Plan;
    var o' := o.(i := o.i + 1);
    forall k: nat ensures Ahead(o', k) { assert Ahead(o, k); }
  }

  lemma NextOpened(h: History, src: SocketAddr, stream: nat)
    ensures Next(h, Opened(src, stream)) ==
            h.(maps := OnOpened(h.maps, src, stream), owners := h.owners[stream / 4 := src])
  {
    assert h.sent + [] == h.sent;
  }

  lemma NextFailed(h: History, src: SocketAddr)
    ensures Next(h, OpenFailed(src)).maps == h.maps.(byAddr := h.maps.byAddr - {src})
    ensures Next(h, OpenFailed(src)).owners == h.owners && Next(h, OpenFailed(src)).sent == h.sent
  {
    assert h.sent + [] == h.sent;
  }

  lemma OpeningGranted(o: OpenLoop, stream: nat)
    requires Opening(o) && o.i < |o.order|
    requires var src := o.order[o.i];
             src in o.byAddr && o.byAddr[src].flowId.None? && src in o.outcome && o.outcome[src] == Granted(stream)
    ensures var src := o.order[o.i];
            && Possible(o.h.maps, o.h.owners, Opened(src, stream))
            && Opening(o.(i := o.i + 1, byAddr := o.byAddr[src := o.byAddr[src].(flowId := Some(stream / 4))],
                          flows := o.flows[stream / 4 := src], h := Next(o.h, Opened(src, stream))))
  {
    hide Next, Plan;
    var src := o.order[o.i];
    NextOpened(o.h, src, stream);
    assert Ahead(o, o.i);
    var byAddr := o.byAddr[src := o.byAddr[src].(flowId := Some(stream / 4))];
    var o' := o.(i := o.i + 1, byAddr := byAddr, flows := o.flows[stream / 4 := src],
                 h := Next(o.h, Opened(src, stream)));
    assert byAddr - o.dropped == (o.byAddr - o.dropped)[src := byAddr[src]];
    forall k: nat ensures Ahead(o', k) {
      assert Ahead(o, k);
      if o'.i <= k < |o.order| { PlanDistinct(o, k); }
    }
  }

  lemma PlanDistinct(o: OpenLoop, k: nat)
    requires Plan(o.order, o.outcome, o.m0.byAddr.Keys) && o.i < k < |o.order|
    requires o.order[o.i] in o.outcome && o.outcome[o.order[o.i]].Granted?
    ensures o.order[k] != o.order[o.i]
    ensures o.order[k] in o.outcome && o.outcome[o.order[k]].Granted? ==>
              o.outcome[o.order[k]].stream / 4 != o.outcome[o.order[o.i]].stream / 4
  {
  }

  lemma OpeningRefused(o: OpenLoop)
    requires Opening(o) && o.i < |o.order|
    requires o.order[o.i] in o.byAddr && o.byAddr[o.order[o.i]].flowId.None?
    ensures var src := o.order[o.i];
            && Possible(o.h.maps, o.h.owners, OpenFailed(src))
            && Opening(o.(i := o.i + 1, dropped := o.dropped + {src}, h := Next(o.h, OpenFailed(src))))
  {
    hide Unused, Plan, Next;
    var src := o.order[o.i];
    NextFailed(o.h, src);
    assert Ahead(o, o.i);
    var o' := o.(i := o.i + 1, dropped := o.dropped + {src}, h := Next(o.h, OpenFailed(src)));
    assert o.byAddr - (o.dropped + {src}) == (o.byAddr - o.dropped) - {src};
    forall k: nat ensures Ahead(o', k) {
      assert Ahead(o, k);
      if o'.i <= k < |o.order| { PlanOrder(o, k); }
    }
  }

  lemma PlanOrder(o: OpenLoop, k: nat)
    requires Plan(o.order, o.outcome, o.m0.byAddr.Keys) && o.i < k < |o.order|
    ensures o.order[k] != o.order[o.i]
  {
  }

  /** Live flows have been opened before. */
  lemma FlowsOwned(es: seq<Event>)
    requires Legal(es)
    ensures Run(es).maps.flows.Keys <= Run(es).owners.Keys
  {
    hide Run, Legal, Consistent, GoodLife;
    RunKeepsInv(es);
    forall f | f in Run(es).maps.flows ensures f in Run(es).owners {
      assert GoodSends(Run(es), f);
    }
  }

  lemma OpeningEnd(o: OpenLoop)
    requires Opening(o)
    ensures o.h.maps == Maps(o.byAddr - o.dropped, o.flows)
  {
    hide Ahead, Plan;
  }
}
