/** The subscriber's side of the wire. */
module SubscriberClient {
  import opened Words
  import opened LittleEndian
  import opened Header
  import opened Framing
  import opened Streams
  import opened Options
  import opened Sequences

  function IdBytes(ids: seq<u32>): (s: seq<u8>)
    ensures |s| == 4 * |ids|
  {
    if ids == [] then [] else ToLE(ids[0], 4) + IdBytes(ids[1..])
  }

  /** The subscribe control frame; its length field is a truncating cast. */
  function ControlBytes(ids: seq<u32>): seq<u8> {
    Encode(MsgHeader(0, 0, 0, |IdBytes(ids)| % U32_SIZE)) + IdBytes(ids)
  }

  method ConnectFiltered(w: Writer, ids: seq<u32>) returns (ok: bool)
    requires |w.written| <= w.limit
    modifies w
    ensures w.written == Clip(old(w.written) + ControlBytes(ids), w.limit)
    ensures ok <==> w.written == old(w.written) + ControlBytes(ids)
  {
    var payload: seq<u8> := [];
    for i := 0 to |ids|
      invariant payload + IdBytes(ids[i..]) == IdBytes(ids)
    {
      assert ids[i..][1..] == ids[i + 1..];
      payload := payload + ToLE(ids[i], 4);
    }
    assert payload == IdBytes(ids);
    var control := ToBytes(MsgHeader(0, 0, 0, |payload| % U32_SIZE));
    ok := w.WriteAll(control[..]);
    if ok && payload != [] {
      assert old(w.written) + control[..] + payload == old(w.written) + ControlBytes(ids);
      ok := w.WriteAll(payload);
    } else if !ok {
      assert (old(w.written) + ControlBytes(ids))[..w.limit] == (old(w.written) + control[..])[..w.limit];
    } else {
      assert control[..] + [] == control[..];
    }
  }

  class Subscriber {
    const reader: Reader

    constructor (reader: Reader)
      ensures this.reader == reader
    {
      this.reader := reader;
    }

    /** Takes the next frame off the stream; fails exactly when no complete frame is left. */
    method NextRaw() returns (r: Option<Frame>)
      modifies reader
      ensures r.Some? ==> old(reader.rest) == Wire(r.value) + reader.rest && WellFormed(r.value)
      ensures r.None? <==> TakeFrame(old(reader.rest)).None?
    {
      ghost var s := reader.rest;
      var headerBuf := reader.ReadExact(HEADER_SIZE);
      if headerBuf.None? {
        return None;
      }
      EncodeDecode(s);
      assert s == headerBuf.value + s[HEADER_SIZE..];
      EncodeDecode(headerBuf.value);
      var header := FromBytes(headerBuf.value).value;
      assert s == Encode(header) + s[HEADER_SIZE..];
      DecodeEncode(header, s[HEADER_SIZE..]);
      var payload: seq<u8> := [];
      if header.payloadLen > 0 {
        var p := reader.ReadExact(header.payloadLen);
        if p.None? {
          return None;
        }
        payload := p.value;
      }
      r := Some(Frame(header, payload));
      assert s == Wire(r.value) + reader.rest;
      TakeFrameExact(s, r.value, reader.rest);
    }

    /** Hands frames to the handler until it says stop or the stream ends. */
    method Run(handler: seq<Frame> -> bool) returns (ok: bool, seen: seq<Frame>)
      modifies reader
      ensures seen <= Parse(old(reader.rest))
      ensures ok ==> seen + Parse(reader.rest) == Parse(old(reader.rest))
      ensures ok ==> seen != [] && !handler(seen) && AllContinue(handler, Front(seen))
      ensures !ok ==> seen == Parse(old(reader.rest)) && AllContinue(handler, seen)
    {
      ghost var s := reader.rest;
      seen := [];
      while true
        invariant seen + Parse(reader.rest) == Parse(s)
        invariant AllContinue(handler, seen)
        decreases |reader.rest|
      {
        var r := NextRaw();
        if r.None? {
          return false, seen;
        }
        ParseCons(r.value, reader.rest);
        Assoc(seen, [r.value], Parse(reader.rest));
        ghost var before := seen;
        seen := seen + [r.value];
        assert seen[..|before|] == before;
        if !handler(seen) {
          return true, seen;
        }
        ContinueMore(handler, before, r.value);
      }
    }
  }

  /** The handler said continue after each of these frames. */
  ghost predicate AllContinue(handler: seq<Frame> -> bool, seen: seq<Frame>) {
    forall i :: 0 < i <= |seen| ==> handler(seen[..i])
  }

  lemma ContinueMore(handler: seq<Frame> -> bool, seen: seq<Frame>, f: Frame)
    requires AllContinue(handler, seen) && handler(seen + [f])
    ensures AllContinue(handler, seen + [f])
  {
    var more := seen + [f];
    forall i | 0 < i <= |more|
      ensures handler(more[..i])
    {
      assert more[..i] == if i <= |seen| then seen[..i] else more;
    }
  }
}
