/** How the bus reads the first frame of a connection. */
module Handshake {
  import opened Words
  import opened LittleEndian
  import opened Header
  import opened Framing
  import opened Slots
  import opened Streams
  import opened SubscriberClient
  import opened Options
  import opened Sequences

  /** At most 256 channel ids of four bytes each. */
  const CHANNEL_BUF: nat := 256 * 4
  const MAX_CHANNELS: nat := 256

  /** A subscriber's channels. */
  datatype Filter = Filter(channels: set<u32>, all: bool) {
    /** The dispatch thread's test. */
    predicate Accepts(channel: u32) {
      all || channel in channels
    }
  }

  datatype Hello =
    | Dropped
    | Subscribe(filter: Filter)
    | Publish(first: Frame, rest: seq<u8>)

  /** Four-byte chunks; a shorter remainder is ignored. */
  function Chunks(s: seq<u8>): seq<u32>
    decreases |s|
  {
    if |s| < 4 then [] else [FromLE32(s[..4])] + Chunks(s[4..])
  }

  function SetOf(ids: seq<u32>): set<u32> {
    set i | i in ids
  }

  function Greet(s: seq<u8>): Hello {
    match FromBytes(s)
    case None => Dropped
    case Some(h) =>
      if h.payloadLen > (if h.msgType == 0 then CHANNEL_BUF else PAYLOAD_CAP) then Dropped
      else match TakeFrame(s)
        case None => Dropped
        case Some((f, rest)) =>
          if h.msgType != 0 then Publish(f, rest)
          else Subscribe(Filter(SetOf(Chunks(f.payload)), SetOf(Chunks(f.payload)) == {}))
  }

  /** The stream begins with a complete frame within the limit of its kind. */
  ghost predicate HasFirst(s: seq<u8>, f: Frame, rest: seq<u8>) {
    s == Wire(f) + rest && WellFormed(f) && |f.payload| <= 1024
  }

  /** What the first frame makes of a connection: a subscriber exactly if it is complete, of type 0 and
      not longer than 1024 bytes, a publisher exactly if it is so with another type, and else nothing. */
  lemma GreetExact(s: seq<u8>)
    ensures Greet(s).Subscribe? <==> exists f, rest :: HasFirst(s, f, rest) && f.header.msgType == 0
    ensures Greet(s).Publish? <==> exists f, rest :: HasFirst(s, f, rest) && f.header.msgType != 0
    ensures Greet(s).Publish? ==> HasFirst(s, Greet(s).first, Greet(s).rest)
  {
    forall f, rest | HasFirst(s, f, rest)
      ensures TakeFrame(s) == Some((f, rest)) && FromBytes(s) == Some(f.header)
    {
      TakeFrameExact(s, f, rest);
    }
    if TakeFrame(s).Some? && !Greet(s).Dropped? {
      var (f, rest) := TakeFrame(s).value;
      TakeFrameExact(s, f, rest);
      assert HasFirst(s, f, rest);
    }
  }

  /** A subscriber accepts the channels whose ids are the whole four-byte groups of its first payload, and
      all channels exactly if there is no such group. */
  lemma SubscribeExact(s: seq<u8>, f: Frame, rest: seq<u8>, channel: u32)
    requires HasFirst(s, f, rest) && f.header.msgType == 0
    ensures Greet(s).Subscribe?
    ensures Greet(s).filter.Accepts(channel) <==>
              |f.payload| < 4 ||
              exists j: nat :: 4 * j + 4 <= |f.payload| && IdAt(f.payload, j) == channel
  {
    TakeFrameExact(s, f, rest);
    ChunksAt(f.payload);
    var ids := Chunks(f.payload);
    assert forall j: nat :: j < |ids| ==> ids[j] == IdAt(f.payload, j);
    if |f.payload| >= 4 {
      assert ids[0] in SetOf(ids);
    }
  }

  /** The little-endian value of the four bytes of group `j`. */
  function IdAt(payload: seq<u8>, j: nat): int
    requires 4 * j + 4 <= |payload|
  {
    Weigh(payload[4 * j], payload[4 * j + 1], payload[4 * j + 2], payload[4 * j + 3])
  }

  lemma {:induction false} ChunksAt(payload: seq<u8>)
    ensures |Chunks(payload)| == |payload| / 4
    ensures forall j: nat :: j < |Chunks(payload)| ==> Chunks(payload)[j] == IdAt(payload, j)
    decreases |payload|
  {
    if |payload| >= 4 {
      ChunksAt(payload[4..]);
      Value32(payload[..4]);
      forall j: nat | j < |Chunks(payload)|
        ensures Chunks(payload)[j] == IdAt(payload, j)
      {
        if j > 0 {
          assert Chunks(payload)[j] == Chunks(payload[4..])[j - 1] == IdAt(payload[4..], j - 1);
        }
      }
    }
  }

  /** The handshake as the connection thread performs it. */
  method HandleConnection(reader: Reader) returns (hello: Hello)
    modifies reader
    ensures hello == Greet(old(reader.rest))
    ensures hello.Publish? ==> hello.rest == reader.rest
  {
    ghost var s := reader.rest;
    var hdrBuf := reader.ReadExact(HEADER_SIZE);
    if hdrBuf.None? {
      return Dropped;
    }
    EncodeDecode(hdrBuf.value);
    var header := FromBytes(hdrBuf.value).value;
    assert s == Encode(header) + s[HEADER_SIZE..];
    DecodeEncode(header, s[HEADER_SIZE..]);
    var plen := header.payloadLen;
    if header.msgType == 0 && plen > CHANNEL_BUF {
      return Dropped;
    }
    if header.msgType != 0 && plen > PAYLOAD_CAP {
      return Dropped;
    }
    var payload: seq<u8> := [];
    if plen > 0 {
      var p := reader.ReadExact(plen);
      if p.None? {
        return Dropped;
      }
      payload := p.value;
    }
    assert s == Wire(Frame(header, payload)) + reader.rest;
    TakeFrameExact(s, Frame(header, payload), reader.rest);
    if header.msgType == 0 {
      var channels := SetOf(Chunks(payload));
      hello := Subscribe(Filter(channels, channels == {}));
    } else {
      hello := Publish(Frame(header, payload), reader.rest);
    }
  }

  /** A publisher's first frame is accepted like every other one: the special first read and the loop
      after it together accept exactly what the loop alone would. */
  lemma FirstFrameIsNotSpecial(s: seq<u8>)
    requires FromBytes(s).Some? ==> FromBytes(s).value.msgType != 0
    ensures !Greet(s).Subscribe?
    ensures Accepted(s) == if Greet(s).Publish? then [Greet(s).first] + Accepted(Greet(s).rest) else []
  {
  }

  lemma {:induction false} ChunksOfIds(ids: seq<u32>)
    ensures Chunks(IdBytes(ids)) == ids
  {
    if ids != [] {
      var s := IdBytes(ids);
      assert s[..4] == ToLE(ids[0], 4) && s[4..] == IdBytes(ids[1..]);
      Widths();
      FromToLE(ids[0], 4);
      ChunksOfIds(ids[1..]);
    }
  }

  lemma {:induction false} IdBytesPrefix(ids: seq<u32>, n: nat)
    requires n <= |ids|
    ensures IdBytes(ids)[..4 * n] == IdBytes(ids[..n])
  {
    if n > 0 {
      IdBytesPrefix(ids[1..], n - 1);
      assert ids[..n][1..] == ids[1..][..n - 1];
    }
  }

  function ControlHeader(ids: seq<u32>): MsgHeader {
    MsgHeader(0, 0, 0, 4 * (|ids| % 0x4000_0000))
  }

  lemma LengthField(n: nat)
    ensures (4 * n) % U32_SIZE == 4 * (n % 0x4000_0000)
  {
  }

  lemma ControlHeaderSeen(ids: seq<u32>, rest: seq<u8>)
    ensures ControlBytes(ids) == Encode(ControlHeader(ids)) + IdBytes(ids)
    ensures FromBytes(ControlBytes(ids) + rest) == Some(ControlHeader(ids))
  {
    LengthField(|ids|);
    Assoc(Encode(ControlHeader(ids)), IdBytes(ids), rest);
    DecodeEncode(ControlHeader(ids), IdBytes(ids) + rest);
  }

  lemma ControlFrameSeen(ids: seq<u32>, rest: seq<u8>) returns (tail: seq<u8>)
    ensures
      var f := Frame(ControlHeader(ids), IdBytes(ids[..|ids| % 0x4000_0000]));
      TakeFrame(ControlBytes(ids) + rest) == Some((f, tail))
  {
    var n := |ids| % 0x4000_0000;
    var bytes := IdBytes(ids);
    IdBytesPrefix(ids, n);
    ControlHeaderSeen(ids, rest);
    var f := Frame(ControlHeader(ids), bytes[..4 * n]);
    tail := bytes[4 * n..] + rest;
    assert bytes == bytes[..4 * n] + bytes[4 * n..];
    Assoc(Encode(ControlHeader(ids)), bytes[..4 * n], bytes[4 * n..]);
    Assoc(Encode(ControlHeader(ids)) + bytes[..4 * n], bytes[4 * n..], rest);
    TakeFrameExact(ControlBytes(ids) + rest, f, tail);
  }

  lemma FewIdsSeen(ids: seq<u32>, rest: seq<u8>)
    requires |ids| % 0x4000_0000 <= MAX_CHANNELS
    ensures
      var n := |ids| % 0x4000_0000;
      Greet(ControlBytes(ids) + rest) == Subscribe(Filter(SetOf(ids[..n]), n == 0))
  {
    var n := |ids| % 0x4000_0000;
    ControlHeaderSeen(ids, rest);
    var tail := ControlFrameSeen(ids, rest);
    ChunksOfIds(ids[..n]);
    if n > 0 {
      assert ids[..n][0] in SetOf(ids[..n]);
    }
  }

  /** The control frame: one frame of type 0 on channel 0, whose payload holds the ids in order. */
  lemma ControlFrameIs(ids: seq<u32>)
    requires |ids| < 0x4000_0000
    ensures
      var fs := Parse(ControlBytes(ids));
      && |fs| == 1 && fs[0].header.msgType == 0 && fs[0].header.channelId == 0 && fs[0].header.timestampNs == 0
      && |fs[0].payload| == 4 * |ids|
      && forall j: nat :: j < |ids| ==> IdAt(fs[0].payload, j) == ids[j]
  {
    var f := Frame(ControlHeader(ids), IdBytes(ids));
    LengthField(|ids|);
    ParseOne(f);
    ChunksOfIds(ids);
    ChunksAt(IdBytes(ids));
  }

  /** The bus sees the first `|ids|` modulo 2^30 ids of a subscription, because the length field holds
      the byte count modulo 2^32; it drops the connection exactly when those are more than 256. */
  lemma SubscriptionSeen(ids: seq<u32>, rest: seq<u8>)
    ensures
      var n := |ids| % 0x4000_0000;
      Greet(ControlBytes(ids) + rest) ==
      if n <= MAX_CHANNELS then Subscribe(Filter(SetOf(ids[..n]), n == 0)) else Dropped
  {
    if |ids| % 0x4000_0000 <= MAX_CHANNELS {
      FewIdsSeen(ids, rest);
    } else {
      ControlHeaderSeen(ids, rest);
    }
  }

  /** Subscription round trip: for at most 256 ids, exactly the intended channels are accepted, and
      the empty list means all of them. */
  lemma SubscriptionRoundTrip(ids: seq<u32>, rest: seq<u8>)
    requires |ids| <= MAX_CHANNELS
    ensures
      var hello := Greet(ControlBytes(ids) + rest);
      && hello.Subscribe?
      && hello.filter == Filter(SetOf(ids), ids == [])
      && forall c: u32 :: hello.filter.Accepts(c) <==> ids == [] || c in ids
  {
    SubscriptionSeen(ids, rest);
    assert ids[..|ids|] == ids;
  }
}
