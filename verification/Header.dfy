/** The fixed 17-byte message header. */
module Header {
  import opened Words
  import opened LittleEndian
  import opened Options

  const HEADER_SIZE: nat := 1 + 4 + 8 + 4

  datatype MsgHeader = MsgHeader(msgType: u8, channelId: u32, timestampNs: u64, payloadLen: u32)

  /** The wire layout: type, channel, timestamp and payload length at offsets 0, 1, 5 and 13. */
  function Encode(h: MsgHeader): (s: seq<u8>)
    ensures |s| == HEADER_SIZE
  {
    [h.msgType] + ToLE(h.channelId, 4) + ToLE(h.timestampNs, 8) + ToLE(h.payloadLen, 4)
  }

  method CopyInto(buf: array<u8>, at: nat, bytes: seq<u8>)
    requires at + |bytes| <= buf.Length
    modifies buf
    ensures buf[..] == old(buf[..at]) + bytes + old(buf[at + |bytes|..])
  {
    for i := 0 to |bytes|
      invariant buf[..] == old(buf[..at]) + bytes[..i] + old(buf[at + i..])
    {
      buf[at + i] := bytes[i];
    }
  }

  /** Serialises the header into a zeroed buffer, range by range. */
  method ToBytes(h: MsgHeader) returns (buf: array<u8>)
    ensures fresh(buf) && buf.Length == HEADER_SIZE && buf[..] == Encode(h)
  {
    buf := new u8[HEADER_SIZE](_ => 0);
    buf[0] := h.msgType;
    CopyInto(buf, 1, ToLE(h.channelId, 4));
    CopyInto(buf, 5, ToLE(h.timestampNs, 8));
    CopyInto(buf, 13, ToLE(h.payloadLen, 4));
  }

  function FromBytes(buf: seq<u8>): Option<MsgHeader> {
    if |buf| < HEADER_SIZE then None
    else Some(MsgHeader(buf[0], FromLE32(buf[1..5]), FromLE64(buf[5..13]), FromLE32(buf[13..17])))
  }

  /** The layout in numbers: the type is byte 0, and the channel, the timestamp and the payload length
      are the little-endian values of bytes 1 to 4, 5 to 12 and 13 to 16. */
  lemma Layout(h: MsgHeader)
    ensures
      var s := Encode(h);
      && s[0] == h.msgType
      && h.channelId == Weigh(s[1], s[2], s[3], s[4])
      && h.timestampNs == Weigh(s[5], s[6], s[7], s[8]) + 0x1_0000_0000 * Weigh(s[9], s[10], s[11], s[12])
      && h.payloadLen == Weigh(s[13], s[14], s[15], s[16])
  {
    var s := Encode(h);
    DecodeEncode(h, []);
    assert s + [] == s;
    Value32(s[1..5]);
    Value64(s[5..13]);
    Value32(s[5..13][..4]);
    Value32(s[5..13][4..]);
    Value32(s[13..17]);
  }

  /** Decoding inverts encoding, whatever bytes follow. */
  lemma DecodeEncode(h: MsgHeader, rest: seq<u8>)
    ensures FromBytes(Encode(h) + rest) == Some(h)
  {
    var s := Encode(h) + rest;
    assert s[1..5] == ToLE(h.channelId, 4);
    assert s[5..13] == ToLE(h.timestampNs, 8);
    assert s[13..17] == ToLE(h.payloadLen, 4);
    Widths();
    FromToLE(h.channelId, 4);
    FromToLE(h.timestampNs, 8);
    FromToLE(h.payloadLen, 4);
  }

  /** Encoding inverts decoding; decoding succeeds exactly on 17 or more bytes and ignores the rest. */
  lemma EncodeDecode(buf: seq<u8>)
    ensures FromBytes(buf).Some? <==> |buf| >= HEADER_SIZE
    ensures FromBytes(buf).Some? ==> Encode(FromBytes(buf).value) == buf[..HEADER_SIZE]
  {
    if |buf| >= HEADER_SIZE {
      ToFromLE(buf[1..5]);
      ToFromLE(buf[5..13]);
      ToFromLE(buf[13..17]);
      assert buf[..17] == [buf[0]] + buf[1..5] + buf[5..13] + buf[13..17];
    }
  }
}
