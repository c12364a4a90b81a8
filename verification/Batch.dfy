/**
 * Segmented UDP sends and receives.
 *
 * The kernel's side of generic segmentation offload (GSO) is `KernelDatagrams`: a payload sent
 * with a segment size leaves as one datagram per `size` bytes. Everything here is about the
 * fast path putting on the wire what one send per packet would.
 */
module Batch {
  import opened Common

  const SEND_BATCH: nat := 32
  const MAX_DATAGRAM_SIZE: nat := 1400

  datatype Datagram = Datagram(to: SocketAddr, payload: bytes)

  function Concat(ps: seq<bytes>): bytes {
    if ps == [] then [] else ps[0] + Concat(ps[1..])
  }

  /** `slice::chunks`: pieces of `size` bytes, the last one possibly shorter. */
  function Chunks(s: bytes, size: nat): (r: seq<bytes>)
    requires size > 0
    ensures s != [] ==> r != []
    decreases |s|
  {
    if s == [] then []
    else if |s| <= size then [s]
    else [s[..size]] + Chunks(s[size..], size)
  }

  function Tagged(to: SocketAddr, ps: seq<bytes>): (r: seq<Datagram>)
    ensures |r| == |ps| && forall i :: 0 <= i < |ps| ==> r[i] == Datagram(to, ps[i])
  {
    seq(|ps|, i requires 0 <= i < |ps| => Datagram(to, ps[i]))
  }

  /** Non-empty packets, all of size `s` except that the last may be shorter. */
  ghost predicate Segmented(ps: seq<bytes>, s: nat) {
    && ps != []
    && (forall i :: 0 <= i < |ps| ==> 0 < |ps[i]| <= s)
    && (forall i :: 0 <= i < |ps| - 1 ==> |ps[i]| == s)
  }

  lemma ConcatSplit(ps: seq<bytes>)
    requires ps != []
    ensures Concat(ps) == ps[0] + Concat(ps[1..])
    ensures |ps| == 1 ==> Concat(ps) == ps[0]
  {
    if |ps| == 1 {
      assert ps[1..] == [] && ps[0] + [] == ps[0];
    }
  }

  lemma ChunksStep(s: bytes, size: nat)
    requires size > 0
    ensures 0 < |s| <= size ==> Chunks(s, size) == [s]
    ensures |s| > size ==> Chunks(s, size) == [s[..size]] + Chunks(s[size..], size)
  {
  }

  /** Cutting the merged bytes every `s` bytes gives the packets back. */
  lemma {:induction false} SplitInvertsMerge(ps: seq<bytes>, s: nat)
    requires Segmented(ps, s)
    ensures Chunks(Concat(ps), s) == ps
    ensures |ps| > 1 <==> |Concat(ps)| > s
    ensures Concat(ps) != []
  {
    hide Concat, Chunks;
    ConcatSplit(ps);
    var all := Concat(ps);
    ChunksStep(all, s);
    if |ps| == 1 {
      assert ps == [ps[0]];
    } else {
      assert |ps[0]| == s;
      SplitInvertsMerge(ps[1..], s);
      assert all[..s] == ps[0] && all[s..] == Concat(ps[1..]);
      assert ps == [ps[0]] + ps[1..];
    }
  }

  lemma {:induction false} MergeInvertsSplit(s: bytes, size: nat)
    requires size > 0
    ensures Concat(Chunks(s, size)) == s
    ensures s != [] ==> Segmented(Chunks(s, size), size)
    decreases |s|
  {
    if s == [] {
    } else if |s| <= size {
      assert Concat([s]) == s + [] == s;
    } else {
      MergeInvertsSplit(s[size..], size);
      var r := Chunks(s, size);
      assert r[1..] == Chunks(s[size..], size);
      assert s == s[..size] + s[size..];
    }
  }

  lemma {:induction false} MergedLength(ps: seq<bytes>, s: nat)
    requires forall i :: 0 <= i < |ps| ==> |ps[i]| <= s
    ensures |Concat(ps)| <= |ps| * s
  {
    if ps != [] {
      MergedLength(ps[1..], s);
      assert |ps| * s == s + (|ps| - 1) * s;
    }
  }

  // ---------- receiving ----------

  /** What one receive with the kernel's segment-size note yields. */
  function GroSplit(buf: bytes, size: Option<nat>): seq<bytes> {
    if size.Some? && 0 < size.value < |buf| then Chunks(buf, size.value) else [buf]
  }

  /** The splitting half of `recv_udp_segments`. */
  method SplitReceived(buf: bytes, from: SocketAddr, size: Option<nat>) returns (out: seq<(bytes, SocketAddr)>)
    ensures |out| == |GroSplit(buf, size)|
    ensures forall i :: 0 <= i < |out| ==> out[i] == (GroSplit(buf, size)[i], from)
  {
    if size.None? || size.value == 0 || size.value >= |buf| {
      return [(buf, from)];
    }
    var s := size.value;
    ghost var all := Chunks(buf, s);
    out := [];
    var pos := 0;
    while pos < |buf|
      invariant 0 <= pos <= |buf|
      invariant |out| + |Chunks(buf[pos..], s)| == |all|
      invariant all[|out|..] == Chunks(buf[pos..], s)
      invariant forall i :: 0 <= i < |out| ==> out[i] == (all[i], from)
    {
      var end := if pos + s < |buf| then pos + s else |buf|;
      assert buf[pos..][..end - pos] == buf[pos..end];
      assert buf[pos..][end - pos..] == buf[end..];
      ghost var n := |out|;
      assert all[n] == buf[pos..end];
      out := out + [(buf[pos..end], from)];
      pos := end;
      assert all[n + 1..] == all[n..][1..];
    }
  }

  /** Receiving undoes the kernel's merge, one packet alone included. */
  lemma GroInvertsMerge(ps: seq<bytes>, s: nat)
    requires Segmented(ps, s)
    ensures GroSplit(Concat(ps), Some(s)) == ps
  {
    hide Concat, Chunks;
    SplitInvertsMerge(ps, s);
    ConcatSplit(ps);
  }

  /**
   * What comes out of a receive: with a size below the length, the one cut into pieces of that size
   * with a last one no larger; otherwise the datagram in one piece.
   */
  lemma GroExact(buf: bytes, size: Option<nat>, ps: seq<bytes>)
    ensures GroSplit(buf, size) == ps <==>
            if size.Some? && 0 < size.value < |buf| then Segmented(ps, size.value) && Concat(ps) == buf else ps == [buf]
  {
    hide Concat, Chunks, Segmented;
    if size.Some? && 0 < size.value < |buf| {
      MergeInvertsSplit(buf, size.value);
      if Segmented(ps, size.value) && Concat(ps) == buf {
        SplitInvertsMerge(ps, size.value);
      }
    }
  }

  /** Whatever size the kernel reports, no byte is lost, added or moved. */
  lemma GroKeepsBytes(buf: bytes, size: Option<nat>)
    ensures Concat(GroSplit(buf, size)) == buf
  {
    if size.Some? && 0 < size.value < |buf| {
      MergeInvertsSplit(buf, size.value);
    } else {
      assert Concat([buf]) == buf + [] == buf;
    }
  }

  // ---------- the socket ----------

  /** The outcome of one `sendmsg`; `gsoKind` marks the errors that mean "no GSO here". */
  datatype Fate = Sent | Failed(gsoKind: bool)

  datatype Call = Call(to: SocketAddr, payload: bytes, gso: Option<nat>)

  /** The segment size crosses to the kernel as a `u16`; zero there means no segmentation. */
  function KernelDatagrams(payload: bytes, gso: Option<nat>): seq<bytes> {
    match gso
    case None => [payload]
    case Some(s) => if s % 0x1_0000 == 0 then [payload] else Chunks(payload, s % 0x1_0000)
  }

  /** A call within the bounds of a batch: exact `u16` size, at most 32 segments of at most 1400 bytes. */
  predicate InBounds(c: Call) {
    match c.gso
    case None => |c.payload| <= MAX_DATAGRAM_SIZE
    case Some(s) => 0 < s <= MAX_DATAGRAM_SIZE && s < |c.payload| <= SEND_BATCH * s
  }

  /** A UDP socket: what it has put on the wire, and the calls made to it. */
  class UdpSocket {
    /** Linux, where the GSO path is compiled in. */
    const linux: bool
    /** The outcome of each call, chosen by the environment. */
    const fate: nat -> Fate
    var wire: seq<Datagram>
    var calls: seq<Call>

    constructor (linux: bool, fate: nat -> Fate)
      ensures this.linux == linux && this.fate == fate && wire == [] && calls == []
    {
      this.linux := linux;
      this.fate := fate;
      wire := [];
      calls := [];
    }

    method SendPayload(to: SocketAddr, payload: bytes, gso: Option<nat>) returns (r: Fate)
      modifies this
      ensures r == fate(|old(calls)|)
      ensures calls == old(calls) + [Call(to, payload, gso)]
      ensures wire == if r.Sent? then old(wire) + Tagged(to, KernelDatagrams(payload, gso)) else old(wire)
    {
      r := fate(|calls|);
      calls := calls + [Call(to, payload, gso)];
      if r.Sent? {
        wire := wire + Tagged(to, KernelDatagrams(payload, gso));
      }
    }
  }

  /** The wire grew by `sent`, or by a prefix of it when the send failed half way. */
  ghost predicate Grew(before: seq<Datagram>, after: seq<Datagram>, sent: seq<Datagram>, ok: bool) {
    if ok then after == before + sent
    else before <= after && after <= before + sent
  }

  /** A call that does not end a send: it went out, or segmentation was refused and plain sends follow. */
  predicate Passed(fate: Fate, call: Call) { fate.Sent? || (fate.gsoKind && call.gso.Some?) }

  /** Every call from the `from`-th on passed. */
  ghost predicate AllPassed(fate: nat -> Fate, calls: seq<Call>, from: nat) {
    forall k :: from <= k < |calls| ==> Passed(fate(k), calls[k])
  }

  /** More calls follow those of `before`, and `ok` says whether all of them passed. */
  ghost predicate Called(fate: nat -> Fate, before: seq<Call>, after: seq<Call>, ok: bool) {
    before <= after && (ok <==> AllPassed(fate, after, |before|))
  }

  lemma CalledThen(fate: nat -> Fate, a: seq<Call>, b: seq<Call>, c: seq<Call>, ok: bool)
    requires Called(fate, a, b, true) && Called(fate, b, c, ok)
    ensures Called(fate, a, c, ok)
  {
    if !AllPassed(fate, c, |b|) {
      var k :| |b| <= k < |c| && !Passed(fate(k), c[k]);
    }
    forall k | |a| <= k < |b| ensures Passed(fate(k), c[k]) {
      assert c[k] == b[k];
    }
  }

  lemma CalledNext(fate: nat -> Fate, before: seq<Call>, calls: seq<Call>, call: Call)
    requires Called(fate, before, calls, true)
    ensures Called(fate, before, calls + [call], Passed(fate(|calls|), call))
  {
    var all := calls + [call];
    assert all[|calls|] == call;
    if AllPassed(fate, all, |before|) {
      assert Passed(fate(|calls|), all[|calls|]);
    }
  }

  lemma BoundsNext(calls: seq<Call>, call: Call)
    requires AllInBounds(calls) && InBounds(call)
    ensures AllInBounds(calls + [call])
  {
  }

  ghost predicate AllInBounds(calls: seq<Call>) { forall i :: 0 <= i < |calls| ==> InBounds(calls[i]) }

  ghost predicate Small(ps: seq<bytes>) { forall i :: 0 <= i < |ps| ==> |ps[i]| <= MAX_DATAGRAM_SIZE }

  /** One plain send per packet. */
  method SendEach(socket: UdpSocket, to: SocketAddr, packets: seq<bytes>) returns (ok: bool)
    modifies socket
    ensures Grew(old(socket.wire), socket.wire, Tagged(to, packets), ok)
    ensures Called(socket.fate, old(socket.calls), socket.calls, ok)
    ensures Small(packets) && AllInBounds(old(socket.calls)) ==> AllInBounds(socket.calls)
  {
    hide Called, AllInBounds;
    var i := 0;
    NoCalls(socket.fate, socket.calls);
    while i < |packets|
      invariant 0 <= i <= |packets|
      invariant socket.wire == old(socket.wire) + Tagged(to, packets)[..i]
      invariant Called(socket.fate, old(socket.calls), socket.calls, true)
      invariant Small(packets) && AllInBounds(old(socket.calls)) ==> AllInBounds(socket.calls)
    {
      CalledNext(socket.fate, old(socket.calls), socket.calls, Call(to, packets[i], None));
      if Small(packets) && AllInBounds(old(socket.calls)) {
        BoundsNext(socket.calls, Call(to, packets[i], None));
      }
      var r := socket.SendPayload(to, packets[i], None);
      if !r.Sent? {
        return false;
      }
      i := i + 1;
    }
    return true;
  }

  /** The packets of one batch: a single one of any size, or segments of equal size. */
  ghost predicate Sendable(ps: seq<bytes>, s: nat) {
    1 <= |ps| <= SEND_BATCH && (|ps| > 1 ==> Segmented(ps, s) && s <= MAX_DATAGRAM_SIZE)
  }

  /**
   * `send_packets`: on the GSO path, on the fallback after the kernel refuses GSO, and on the
   * plain path alike, the wire gains exactly the packets, in order, to one destination.
   */
  method SendPackets(socket: UdpSocket, to: SocketAddr, segmentSize: nat, packets: seq<bytes>) returns (ok: bool)
    requires Sendable(packets, segmentSize)
    modifies socket
    ensures Grew(old(socket.wire), socket.wire, Tagged(to, packets), ok)
    ensures Called(socket.fate, old(socket.calls), socket.calls, ok)
    ensures socket.linux && |packets| > 1 ==>
              && |socket.calls| > |old(socket.calls)|
              && socket.calls[|old(socket.calls)|] == Call(to, Concat(packets), Some(segmentSize))
              && (socket.fate(|old(socket.calls)|).Sent? ==> |socket.calls| == |old(socket.calls)| + 1)
    ensures Small(packets) && AllInBounds(old(socket.calls)) ==> AllInBounds(socket.calls)
  {
    hide Concat, Chunks, Called, AllInBounds, Sendable, InBounds, Passed;
    var useGso := socket.linux && |packets| > 1;
    if !useGso && |packets| > 1 {
      ok := SendEach(socket, to, packets);
      return;
    }
    var payload := Merge(packets);
    var gso := if useGso then Some(segmentSize) else None;
    MergedCall(to, packets, segmentSize, useGso);
    NoCalls(socket.fate, socket.calls);
    CalledNext(socket.fate, socket.calls, socket.calls, Call(to, payload, gso));
    PassedExact(socket.fate(|socket.calls|), Call(to, payload, gso));
    if Small(packets) && AllInBounds(socket.calls) {
      BoundsNext(socket.calls, Call(to, payload, gso));
    }
    var r := socket.SendPayload(to, payload, gso);
    if r.Sent? {
      return true;
    }
    if useGso && r.gsoKind {
      ghost var refused := socket.calls;
      ok := SendEach(socket, to, packets);
      CalledThen(socket.fate, old(socket.calls), refused, socket.calls, ok);
      CallsKept(socket.fate, refused, socket.calls, ok);
    } else {
      ok := false;
    }
  }

  lemma PassedExact(fate: Fate, call: Call)
    ensures Passed(fate, call) <==> fate.Sent? || (fate.gsoKind && call.gso.Some?)
  {
  }

  lemma CallsKept(fate: nat -> Fate, before: seq<Call>, after: seq<Call>, ok: bool)
    requires Called(fate, before, after, ok)
    ensures before <= after
  {
  }

  /** The merged call of a sendable batch is within bounds and leaves the kernel as the packets. */
  lemma MergedCall(to: SocketAddr, packets: seq<bytes>, size: nat, useGso: bool)
    requires Sendable(packets, size) && (useGso <==> |packets| > 1)
    ensures var gso := if useGso then Some(size) else None;
            && KernelDatagrams(Concat(packets), gso) == packets
            && (Small(packets) ==> InBounds(Call(to, Concat(packets), gso)))
  {
    hide Concat, Chunks, Segmented;
    BatchPayload(packets, size, Concat(packets));
    if |packets| > 1 {
      BatchInBounds(packets, size);
    } else {
      assert packets == [packets[0]];
    }
  }

  method Merge(packets: seq<bytes>) returns (payload: bytes)
    ensures payload == Concat(packets)
  {
    payload := [];
    var i := 0;
    while i < |packets|
      invariant 0 <= i <= |packets|
      invariant payload + Concat(packets[i..]) == Concat(packets)
    {
      assert packets[i..][1..] == packets[i + 1..];
      payload := payload + packets[i];
      i := i + 1;
    }
  }

  /** A sendable batch comes out of the kernel unchanged. */
  lemma BatchPayload(ps: seq<bytes>, s: nat, payload: bytes)
    requires Sendable(ps, s) && payload == Concat(ps)
    ensures |ps| > 1 ==> KernelDatagrams(payload, Some(s)) == ps
    ensures |ps| == 1 ==> payload == ps[0]
  {
    hide Concat, Chunks;
    ConcatSplit(ps);
    if |ps| > 1 {
      SplitInvertsMerge(ps, s);
      assert s > 0 && s % 0x1_0000 == s;
    }
  }

  /**
   * Exactly the batches of equal segments survive: the kernel hands two or more merged packets
   * back unchanged if and only if only the last is short and none is empty.
   */
  lemma GsoExact(ps: seq<bytes>, s: nat)
    requires |ps| > 1 && s < 0x1_0000
    ensures KernelDatagrams(Concat(ps), Some(s)) == ps <==> Segmented(ps, s)
  {
    hide Concat, Chunks;
    assert s % 0x1_0000 == s;
    if Segmented(ps, s) {
      SplitInvertsMerge(ps, s);
      assert 0 < |ps[0]| <= s;
    }
    if KernelDatagrams(Concat(ps), Some(s)) == ps {
      var payload := Concat(ps);
      assert s > 0 && Chunks(payload, s) == ps;
      NoChunks(s);
      MergeInvertsSplit(payload, s);
    }
  }

  lemma NoChunks(s: nat)
    requires s > 0
    ensures Chunks([], s) == []
  {
  }

  /** Batch arithmetic: the segment size survives the `u16` cast and the payload is at most 44800 bytes. */
  lemma BatchInBounds(ps: seq<bytes>, s: nat)
    requires Sendable(ps, s) && |ps| > 1
    ensures s % 0x1_0000 == s && s < |Concat(ps)| <= 44800
    ensures forall to :: InBounds(Call(to, Concat(ps), Some(s)))
  {
    hide Concat, Chunks;
    SplitInvertsMerge(ps, s);
    MergedLength(ps, s);
    assert |ps| * s <= SEND_BATCH * s by {
      var d := SEND_BATCH - |ps|;
      assert d * s >= 0;
      assert SEND_BATCH * s == |ps| * s + d * s;
    }
  }

  // ---------- batching ----------

  class SendBatch {
    var to: Option<SocketAddr>
    var segmentSize: nat
    var packets: seq<bytes>

    /** A destination is set exactly while packets wait, and the first packet fixed the size. */
    ghost predicate Valid() reads this {
      && (to.None? <==> packets == [])
      && (packets != [] ==> segmentSize == |packets[0]|)
    }

    /** The datagrams waiting in the batch. */
    ghost function Waiting(): seq<Datagram>
      requires Valid()
      reads this
    {
      if to.None? then [] else Tagged(to.value, packets)
    }

    /** Every waiting packet has the segment size: the state in which another may be pushed. */
    ghost predicate Uniform() reads this {
      forall i :: 0 <= i < |packets| ==> |packets[i]| == segmentSize && 0 < segmentSize <= MAX_DATAGRAM_SIZE
    }

    /** As `Uniform`, but the last packet may be short. */
    ghost predicate PossiblyShort() reads this {
      && 0 < segmentSize <= MAX_DATAGRAM_SIZE
      && (forall i :: 0 <= i < |packets| - 1 ==> |packets[i]| == segmentSize)
      && (packets != [] ==> 0 < |packets[|packets| - 1]| <= segmentSize)
    }

    constructor ()
      ensures Valid() && packets == []
    {
      to, segmentSize, packets := None, 0, [];
    }

    method PushFirst(packet: bytes, dest: SocketAddr)
      requires Valid() && packets == []
      modifies this
      ensures Valid() && packets == [packet] && to == Some(dest)
    {
      segmentSize := |packet|;
      to := Some(dest);
      packets := packets + [packet];
    }

    /** The packet is taken exactly when it may ride in this batch; otherwise nothing changes. */
    method TryPush(packet: bytes, dest: SocketAddr) returns (pending: Option<bytes>)
      requires Valid()
      modifies this
      ensures Valid()
      ensures pending == None || pending == Some(packet)
      ensures pending.None? <==> old(packets) == [] ||
                                 (old(to) == Some(dest) && |packet| <= old(segmentSize)
                                  && (|packet| == old(segmentSize) || |old(packets)| < SEND_BATCH))
      ensures pending.None? ==> to == Some(dest) && packets == old(packets) + [packet]
      ensures pending.None? && old(packets) != [] ==> segmentSize == old(segmentSize)
      ensures pending.Some? ==> packets == old(packets) && to == old(to) && segmentSize == old(segmentSize)
    {
      if packets == [] {
        PushFirst(packet, dest);
        return None;
      }
      var compatible := to == Some(dest) && |packet| <= segmentSize &&
                        (|packet| == segmentSize || |packets| < SEND_BATCH);
      if compatible {
        packets := packets + [packet];
        return None;
      }
      return Some(packet);
    }

    method EndsWithShortSegment() returns (short: bool)
      requires Valid()
      ensures short <==> packets != [] && |packets[|packets| - 1]| < segmentSize
    {
      short := packets != [] && |packets[|packets| - 1]| < segmentSize;
    }

    method Take() returns (r: Option<(SocketAddr, nat, seq<bytes>)>)
      requires Valid()
      modifies this
      ensures Valid() && packets == []
      ensures r == if old(to).None? then None else Some((old(to).value, old(segmentSize), old(packets)))
    {
      if to.None? {
        return None;
      }
      r := Some((to.value, segmentSize, packets));
      to, segmentSize, packets := None, 0, [];
    }
  }

  method SendBatchNow(socket: UdpSocket, batch: SendBatch) returns (ok: bool)
    requires batch.Valid() && (batch.packets != [] ==> Sendable(batch.packets, batch.segmentSize))
    modifies socket, batch
    ensures batch.Valid() && batch.packets == []
    ensures Grew(old(socket.wire), socket.wire, old(batch.Waiting()), ok)
    ensures Called(socket.fate, old(socket.calls), socket.calls, ok)
    ensures Small(old(batch.packets)) && AllInBounds(old(socket.calls)) ==> AllInBounds(socket.calls)
  {
    var taken := batch.Take();
    if taken.None? {
      return true;
    }
    var (to, size, packets) := taken.value;
    ok := SendPackets(socket, to, size, packets);
  }

  /** A datagram as the connection produces it: not empty, and within the output buffer. */
  predicate Produced(d: Datagram) { 0 < |d.payload| <= MAX_DATAGRAM_SIZE }

  /** The state between two datagrams of a flush: `i` produced, of which the last few wait in the batch. */
  ghost predicate Flushing(before: seq<Datagram>, socket: UdpSocket, batch: SendBatch, out: seq<Datagram>, i: nat)
    reads socket, batch
  {
    && batch.Valid() && batch.Uniform() && |batch.packets| <= i <= |out|
    && socket.wire == before + out[..i - |batch.packets|]
    && batch.Waiting() == out[i - |batch.packets|..i]
  }

  /** As `Flushing`, just after a push: the last packet may be short. */
  ghost predicate Pushed(before: seq<Datagram>, socket: UdpSocket, batch: SendBatch, out: seq<Datagram>, i: nat)
    reads socket, batch
  {
    && batch.Valid() && 1 <= |batch.packets| <= i <= |out|
    && batch.PossiblyShort()
    && socket.wire == before + out[..i - |batch.packets|]
    && batch.Waiting() == out[i - |batch.packets|..i]
  }

  /** Send what waits between two datagrams of a flush. */
  method SendWaiting(socket: UdpSocket, batch: SendBatch, ghost before: seq<Datagram>, ghost out: seq<Datagram>,
                     ghost i: nat)
    returns (ok: bool)
    requires Flushing(before, socket, batch, out, i) && |batch.packets| <= SEND_BATCH
    modifies socket, batch
    ensures ok ==> Flushing(before, socket, batch, out, i) && batch.packets == []
    ensures !ok ==> Grew(before, socket.wire, out, false)
    ensures Called(socket.fate, old(socket.calls), socket.calls, ok)
    ensures AllInBounds(old(socket.calls)) ==> AllInBounds(socket.calls)
  {
    hide AllInBounds, Sendable, Called;
    if batch.packets != [] {
      UniformIsSendable(batch.packets, batch.segmentSize);
    }
    WireAfter(before, out, i - |batch.packets|, i);
    ok := SendBatchNow(socket, batch);
  }

  /** Push one produced datagram, sending first whatever it cannot ride with. */
  method PushOne(socket: UdpSocket, batch: SendBatch, ghost before: seq<Datagram>, out: seq<Datagram>, i: nat)
    returns (ok: bool)
    requires i < |out| && Produced(out[i])
    requires Flushing(before, socket, batch, out, i) && |batch.packets| < SEND_BATCH
    modifies socket, batch
    ensures ok ==> Pushed(before, socket, batch, out, i + 1) && |batch.packets| <= |old(batch.packets)| + 1
    ensures !ok ==> Grew(before, socket.wire, out, false)
    ensures Called(socket.fate, old(socket.calls), socket.calls, ok)
    ensures AllInBounds(old(socket.calls)) ==> AllInBounds(socket.calls)
  {
    hide AllInBounds, Grew, Called, Tagged;
    var d := out[i];
    var pending := batch.TryPush(d.payload, d.to);
    ok := true;
    NoCalls(socket.fate, socket.calls);
    if pending.Some? {
      ok := SendWaiting(socket, batch, before, out, i);
      if ok {
        batch.PushFirst(pending.value, d.to);
        TaggedNext(d.to, [], d, out, i, i);
        assert [] + [d.payload] == [d.payload];
      }
    } else {
      TaggedNext(d.to, old(batch.packets), d, out, i - |old(batch.packets)|, i);
    }
  }

  /** One more packet for the same destination. */
  lemma TaggedNext(to: SocketAddr, ps: seq<bytes>, d: Datagram, out: seq<Datagram>, j: nat, i: nat)
    requires j <= i < |out| && out[i] == d && d.to == to && Tagged(to, ps) == out[j..i]
    ensures Tagged(to, ps + [d.payload]) == out[j..i + 1]
  {
    assert out[j..i + 1] == out[j..i] + [d];
  }

  lemma NoCalls(fate: nat -> Fate, calls: seq<Call>)
    ensures Called(fate, calls, calls, true)
  {
  }

  /** A short last segment closes the batch. */
  method SendIfShort(socket: UdpSocket, batch: SendBatch, ghost before: seq<Datagram>, ghost out: seq<Datagram>,
                     ghost i: nat)
    returns (ok: bool)
    requires Pushed(before, socket, batch, out, i) && |batch.packets| <= SEND_BATCH
    modifies socket, batch
    ensures ok ==> Flushing(before, socket, batch, out, i) && |batch.packets| <= |old(batch.packets)|
    ensures !ok ==> Grew(before, socket.wire, out, false)
    ensures Called(socket.fate, old(socket.calls), socket.calls, ok)
    ensures AllInBounds(old(socket.calls)) ==> AllInBounds(socket.calls)
  {
    hide AllInBounds, Sendable, Called;
    NoCalls(socket.fate, socket.calls);
    var short := batch.EndsWithShortSegment();
    if short {
      ShortIsSendable(batch.packets, batch.segmentSize);
      WireAfter(before, out, i - |batch.packets|, i);
      ok := SendBatchNow(socket, batch);
    } else {
      ok := true;
    }
  }

  /** The body of the flush loop: push one produced datagram, and close the batch behind a short one. */
  method FlushOne(socket: UdpSocket, batch: SendBatch, ghost before: seq<Datagram>, out: seq<Datagram>, i: nat)
    returns (ok: bool)
    requires i < |out| && Produced(out[i])
    requires Flushing(before, socket, batch, out, i) && |batch.packets| < SEND_BATCH
    modifies socket, batch
    ensures ok ==> Flushing(before, socket, batch, out, i + 1) && |batch.packets| <= |old(batch.packets)| + 1
    ensures !ok ==> Grew(before, socket.wire, out, false)
    ensures Called(socket.fate, old(socket.calls), socket.calls, ok)
    ensures AllInBounds(old(socket.calls)) ==> AllInBounds(socket.calls)
  {
    hide AllInBounds, Grew, Called, Pushed, Flushing, Produced;
    ok := PushOne(socket, batch, before, out, i);
    if ok {
      ghost var pushed := socket.calls;
      ok := SendIfShort(socket, batch, before, out, i + 1);
      CalledThen(socket.fate, old(socket.calls), pushed, socket.calls, ok);
    }
  }

  lemma UniformIsSendable(ps: seq<bytes>, s: nat)
    requires 1 <= |ps| <= SEND_BATCH && 0 < s <= MAX_DATAGRAM_SIZE
    requires forall i :: 0 <= i < |ps| ==> |ps[i]| == s
    ensures Sendable(ps, s) && Small(ps)
  {
  }

  lemma ShortIsSendable(ps: seq<bytes>, s: nat)
    requires 1 <= |ps| <= SEND_BATCH && 0 < s <= MAX_DATAGRAM_SIZE && 0 < |ps[|ps| - 1]| <= s
    requires forall i :: 0 <= i < |ps| - 1 ==> |ps[i]| == s
    ensures Sendable(ps, s) && Small(ps)
  {
  }

  /** Sending what waits after the first `j` datagrams leaves the first `i` on the wire. */
  lemma WireAfter(before: seq<Datagram>, out: seq<Datagram>, j: nat, i: nat)
    requires j <= i <= |out|
    ensures before + out[..j] + out[j..i] == before + out[..i]
    ensures before + out[..i] <= before + out && before <= before + out[..j]
  {
    assert out[..j] + out[j..i] == out[..i];
  }

  /**
   * `flush_connection`: for every sequence the connection produces, the wire gains exactly that
   * sequence in bytes, order and destination, and this happens exactly when the connection does
   * not fail and no call to the socket ends a send. After a send error the wire gains a prefix;
   * after a connection error alone, all but fewer than 32. Every call is within the batch bounds.
   */
  method FlushConnection(socket: UdpSocket, out: seq<Datagram>, connFails: bool) returns (ok: bool)
    requires forall d :: d in out ==> Produced(d)
    modifies socket
    ensures Grew(old(socket.wire), socket.wire, out, ok)
    ensures old(socket.calls) <= socket.calls
    ensures ok <==> !connFails && AllPassed(socket.fate, socket.calls, |old(socket.calls)|)
    ensures AllPassed(socket.fate, socket.calls, |old(socket.calls)|) ==>
              |socket.wire| > |old(socket.wire)| + |out| - SEND_BATCH
    ensures AllInBounds(old(socket.calls)) ==> AllInBounds(socket.calls)
  {
    hide AllInBounds, Produced, AllPassed;
    var batch := new SendBatch();
    ghost var before := socket.wire;
    var i: nat := 0;
    var more := true;
    NoCalls(socket.fate, socket.calls);
    while more
      invariant Flushing(before, socket, batch, out, i) && batch.packets == [] && fresh(batch)
      invariant Called(socket.fate, old(socket.calls), socket.calls, true)
      invariant AllInBounds(old(socket.calls)) ==> AllInBounds(socket.calls)
      invariant !more ==> i == |out| && !connFails
      decreases more, |out| - i
    {
      ghost var calls := socket.calls;
      ghost var passed: bool;
      ok, more, i, passed := FlushRound(socket, batch, before, out, i, connFails);
      CalledThen(socket.fate, old(socket.calls), calls, socket.calls, passed);
      if !ok {
        return false;
      }
      calls := socket.calls;
      ok := SendWaiting(socket, batch, before, out, i);
      CalledThen(socket.fate, old(socket.calls), calls, socket.calls, ok);
      if !ok {
        return false;
      }
    }
    assert out[..i] == out;
    return true;
  }

  /** The inner loop: at most 32 datagrams, so that a batch never holds more. */
  method FlushRound(socket: UdpSocket, batch: SendBatch, ghost before: seq<Datagram>, out: seq<Datagram>, i0: nat,
                    connFails: bool)
    returns (ok: bool, more: bool, i: nat, ghost passed: bool)
    requires forall d :: d in out ==> Produced(d)
    requires Flushing(before, socket, batch, out, i0) && batch.packets == []
    modifies socket, batch
    ensures ok ==> passed && Flushing(before, socket, batch, out, i) && |batch.packets| <= SEND_BATCH
    ensures ok && more ==> i > i0
    ensures ok && !more ==> i == |out| && !connFails
    ensures !ok ==> Grew(before, socket.wire, out, false)
    ensures !ok && passed ==> connFails && |socket.wire| > |before| + |out| - SEND_BATCH
    ensures Called(socket.fate, old(socket.calls), socket.calls, passed)
    ensures AllInBounds(old(socket.calls)) ==> AllInBounds(socket.calls)
  {
    hide AllInBounds, Produced, Called;
    i := i0;
    passed := true;
    var n := 0;
    NoCalls(socket.fate, socket.calls);
    while n < SEND_BATCH
      invariant 0 <= n <= SEND_BATCH && |batch.packets| <= n && i == i0 + n && passed
      invariant Flushing(before, socket, batch, out, i)
      invariant Called(socket.fate, old(socket.calls), socket.calls, true)
      invariant AllInBounds(old(socket.calls)) ==> AllInBounds(socket.calls)
    {
      if i == |out| {
        WireAfter(before, out, i - |batch.packets|, i);
        return !connFails, false, i, true;
      }
      ghost var calls := socket.calls;
      ok := FlushOne(socket, batch, before, out, i);
      CalledThen(socket.fate, old(socket.calls), calls, socket.calls, ok);
      if !ok {
        return false, false, i, false;
      }
      i := i + 1;
      n := n + 1;
    }
    return true, true, i, true;
  }

  /** `send_udp`: one datagram of any size, in one plain call. */
  method SendUdp(socket: UdpSocket, buf: bytes, to: SocketAddr) returns (ok: bool)
    modifies socket
    ensures Grew(old(socket.wire), socket.wire, [Datagram(to, buf)], ok)
    ensures Called(socket.fate, old(socket.calls), socket.calls, ok)
  {
    var batch := new SendBatch();
    batch.PushFirst(buf, to);
    ok := SendBatchNow(socket, batch);
  }
}
