/** The message cells of one ring slot. */
module Slots {
  import opened Words

  const PAYLOAD_CAP: nat := 1024
  /** The fixed cells: channel id, message type, payload length, timestamp. */
  const FIELDS: nat := 4
  const CELLS: nat := FIELDS + PAYLOAD_CAP

  datatype Msg = Msg(channelId: u32, msgType: u8, timestampNs: u64, payload: seq<u8>)

  predicate Fits(m: Msg) {
    |m.payload| <= PAYLOAD_CAP
  }

  /** The cells that `publish` stores for a message, in store order; later cells of the slot keep old bytes. */
  function Image(m: Msg): seq<int> {
    [m.channelId, m.msgType, |m.payload|, m.timestampNs] + m.payload
  }

  /** A slot determines the message stored in it, whatever stale bytes follow the payload. */
  lemma ImageUnique(a: Msg, b: Msg, cells: seq<int>)
    requires Image(a) <= cells && Image(b) <= cells
    ensures a == b
  {
    var x, y := Image(a), Image(b);
    assert x[0] == y[0] && x[1] == y[1] && x[2] == y[2] && x[3] == y[3];
    forall i | 0 <= i < |a.payload|
      ensures a.payload[i] == b.payload[i]
    {
      assert x[FIELDS + i] == cells[FIELDS + i] == y[FIELDS + i];
    }
    assert a.payload == b.payload;
  }
}
