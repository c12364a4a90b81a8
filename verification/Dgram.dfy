/** CONNECT-UDP HTTP datagrams: section 2.1 of RFC 9297 and section 5 of RFC 9298. */
module Dgram {
  import opened Common
  import Varint

  const CONTEXT_ID_UDP: nat := 0

  datatype Parsed = Parsed(flowId: nat, contextId: nat, payload: bytes)

  /** Quarter-stream-id, context id, payload. */
  function Frame(flowId: Varint.u64, contextId: Varint.u64, payload: bytes): bytes {
    Varint.Encode(flowId) + Varint.Encode(contextId) + payload
  }

  /** Everything the program frames is a raw UDP payload. */
  function Encode(flowId: Varint.u64, payload: bytes): bytes { Frame(flowId, CONTEXT_ID_UDP, payload) }

  function Decode(buf: bytes): (r: Option<Parsed>)
    ensures r.Some? ==> |r.value.payload| < |buf| && r.value.payload == buf[|buf| - |r.value.payload|..]
  {
    match Varint.Decoded(buf)
    case None => None
    case Some((flowId, n1)) =>
      match Varint.Decoded(buf[n1..])
      case None => None
      case Some((contextId, n2)) => Some(Parsed(flowId, contextId, buf[n1 + n2..]))
  }

  /** Any frame decodes to the low 62 bits of its ids and its whole payload. */
  lemma FrameRoundTrip(flowId: Varint.u64, contextId: Varint.u64, payload: bytes)
    ensures Decode(Frame(flowId, contextId, payload)) ==
            Some(Parsed(flowId % Varint.TWO_62, contextId % Varint.TWO_62, payload))
  {
    hide Varint.Encode, Varint.Decoded;
    var rest := Varint.Encode(contextId) + payload;
    Varint.RoundTrip(flowId, rest);
    Varint.RoundTrip(contextId, payload);
    var buf := Frame(flowId, contextId, payload);
    var n1, n2 := Varint.EncodedLen(flowId), Varint.EncodedLen(contextId);
    assert buf == Varint.Encode(flowId) + rest;
    assert buf[n1..] == rest;
    assert buf[n1 + n2..] == payload;
  }

  /** The decoder's language: two varints, minimal or not, and the rest. */
  lemma DecodeExact(buf: bytes, f: nat, c: nat, payload: bytes)
    ensures Decode(buf) == Some(Parsed(f, c, payload)) <==>
            exists a, b :: Varint.Encodes(a, f) && Varint.Encodes(b, c) && buf == a + b + payload
  {
    hide Varint.Decoded, Varint.Encodes;
    if Decode(buf) == Some(Parsed(f, c, payload)) {
      var n1 := Varint.Decoded(buf).value.1;
      Varint.DecodedExact(buf, f, n1);
      var n2 := Varint.Decoded(buf[n1..]).value.1;
      Varint.DecodedExact(buf[n1..], c, n2);
      var a, b := buf[..n1], buf[n1..][..n2];
      assert buf == a + b + payload;
    }
    if exists a, b :: Varint.Encodes(a, f) && Varint.Encodes(b, c) && buf == a + b + payload {
      var a, b :| Varint.Encodes(a, f) && Varint.Encodes(b, c) && buf == a + b + payload;
      FramedDecodes(a, b, f, c, payload);
    }
  }

  lemma FramedDecodes(a: bytes, b: bytes, f: nat, c: nat, payload: bytes)
    requires Varint.Encodes(a, f) && Varint.Encodes(b, c)
    ensures Decode(a + b + payload) == Some(Parsed(f, c, payload))
  {
    hide Varint.Decoded, Varint.Encodes;
    var buf := a + b + payload;
    assert buf[..|a|] == a && buf[|a|..] == b + payload && (b + payload)[..|b|] == b;
    assert buf[|a| + |b|..] == payload;
    Varint.DecodedExact(buf, f, |a|);
    Varint.DecodedExact(b + payload, c, |b|);
  }

  /** A framed payload comes back whole under its own flow id exactly for ids below 2^62. */
  lemma RoundTrip(flowId: Varint.u64, payload: bytes)
    ensures Decode(Encode(flowId, payload)) == Some(Parsed(flowId % Varint.TWO_62, CONTEXT_ID_UDP, payload))
    ensures Decode(Encode(flowId, payload)) == Some(Parsed(flowId, CONTEXT_ID_UDP, payload)) <==> flowId < Varint.TWO_62
  {
    hide Decode, Frame;
    FrameRoundTrip(flowId, CONTEXT_ID_UDP, payload);
  }

  /** What the decoder accepts is re-framed by the encoder in no more bytes, to the same meaning. */
  lemma Normalises(buf: bytes)
    requires Decode(buf).Some? && Decode(buf).value.contextId == CONTEXT_ID_UDP
    ensures var p := Decode(buf).value;
            && p.flowId < Varint.TWO_62
            && |Encode(p.flowId, p.payload)| <= |buf|
            && Decode(Encode(p.flowId, p.payload)) == Some(p)
  {
    var (f, n1) := Varint.Decoded(buf).value;
    Varint.DecodedIsMinimal(buf);
    Varint.DecodedIsMinimal(buf[n1..]);
    RoundTrip(f, Decode(buf).value.payload);
  }
}
