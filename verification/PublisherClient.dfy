/** The publisher's side of the wire. */
module PublisherClient {
  import opened Words
  import opened Header
  import opened Framing
  import opened Streams

  const MAX_PAYLOAD: nat := 1024
  const INLINE_BUF: nat := HEADER_SIZE + MAX_PAYLOAD

  /** One call of `publish_raw`; `now` is what the clock says. */
  datatype Call = Call(channelId: u32, msgType: u8, payload: seq<u8>, now: u64)

  /** The frame says what the call said. */
  ghost predicate Says(f: Frame, call: Call) {
    && f.header.channelId == call.channelId && f.header.msgType == call.msgType
    && f.header.timestampNs == call.now && f.payload == call.payload
  }

  /** The bytes are one frame, the one that says what the call said. */
  ghost predicate IsCall(bytes: seq<u8>, call: Call) {
    && |Parse(bytes)| == 1 && Says(Parse(bytes)[0], call)
    && |bytes| == HEADER_SIZE + |call.payload|
  }

  /** The frame `publish_raw` sends at time `now`; the length field is a truncating cast. */
  function Sent(channelId: u32, msgType: u8, payload: seq<u8>, now: u64): Frame {
    Frame(MsgHeader(msgType, channelId, now, |payload| % U32_SIZE), payload)
  }

  /** One buffer and one write for payloads that fit, two writes otherwise: the same bytes reach the
      connection on both paths, also when it breaks half way. */
  method PublishRaw(w: Writer, channelId: u32, msgType: u8, payload: seq<u8>, now: u64) returns (ok: bool)
    requires |w.written| <= w.limit
    modifies w
    ensures w.written == Clip(old(w.written) + Wire(Sent(channelId, msgType, payload, now)), w.limit)
    ensures ok <==> w.written == old(w.written) + Wire(Sent(channelId, msgType, payload, now))
    ensures ok && |payload| < U32_SIZE ==>
              IsCall(w.written[|old(w.written)|..], Call(channelId, msgType, payload, now))
  {
    SentIsCall(Call(channelId, msgType, payload, now));
    var header := MsgHeader(msgType, channelId, now, |payload| % U32_SIZE);
    var hdrBytes := ToBytes(header);
    var total := HEADER_SIZE + |payload|;
    if total <= INLINE_BUF {
      var buf := new u8[INLINE_BUF](_ => 0);
      CopyInto(buf, 0, hdrBytes[..]);
      CopyInto(buf, HEADER_SIZE, payload);
      assert buf[..total] == Encode(header) + payload;
      ok := w.WriteAll(buf[..total]);
    } else {
      ok := w.WriteAll(hdrBytes[..]);
      if ok {
        assert old(w.written) + Encode(header) + payload == old(w.written) + (Encode(header) + payload);
        ok := w.WriteAll(payload);
      } else {
        assert |old(w.written) + hdrBytes[..]| > w.limit;
        assert (old(w.written) + (Encode(header) + payload))[..w.limit] == (old(w.written) + Encode(header))[..w.limit];
      }
    }
  }

  /** A call whose payload length fits the length field puts one frame on the wire, and that frame says
      what the call said. */
  lemma SentIsCall(call: Call)
    ensures
      var f := Sent(call.channelId, call.msgType, call.payload, call.now);
      |call.payload| < U32_SIZE ==> WellFormed(f) && Says(f, call) && IsCall(Wire(f), call)
  {
    var f := Sent(call.channelId, call.msgType, call.payload, call.now);
    if |call.payload| < U32_SIZE {
      SentParsesBack(call.channelId, call.msgType, call.payload, call.now);
    }
  }

  /** The frames of a list of calls. */
  function SentAll(calls: seq<Call>): (fs: seq<Frame>)
    ensures |fs| == |calls|
  {
    seq(|calls|, i requires 0 <= i < |calls| =>
      Sent(calls[i].channelId, calls[i].msgType, calls[i].payload, calls[i].now))
  }

  ghost predicate AllFitLength(calls: seq<Call>) {
    forall i :: 0 <= i < |calls| ==> |calls[i].payload| < U32_SIZE
  }

  /** What a list of calls puts on a connection, one call after the other, parses to one frame for each
      call, saying what that call said. */
  lemma CallsParseBack(calls: seq<Call>)
    requires AllFitLength(calls)
    ensures AllWellFormed(SentAll(calls)) && |Parse(WireAll(SentAll(calls)))| == |calls|
    ensures forall i :: 0 <= i < |calls| ==> Says(Parse(WireAll(SentAll(calls)))[i], calls[i])
  {
    forall i | 0 <= i < |calls|
      ensures WellFormed(SentAll(calls)[i]) && Says(SentAll(calls)[i], calls[i])
    {
      SentIsCall(calls[i]);
    }
    ParseWhole(SentAll(calls));
  }

  /** What is sent parses back exactly when the payload length fits the 32-bit length field. */
  lemma SentParsesBack(channelId: u32, msgType: u8, payload: seq<u8>, now: u64)
    ensures
      var f := Sent(channelId, msgType, payload, now);
      Parse(Wire(f)) == [f] <==> |payload| < U32_SIZE
  {
    var f := Sent(channelId, msgType, payload, now);
    if |payload| < U32_SIZE {
      ParseOne(f);
    } else {
      var rest := ParseSplits(Wire(f));
      assert !WellFormed(f);
    }
  }
}
