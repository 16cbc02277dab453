/** Length-prefixed frames on a byte stream. */
module Framing {
  import opened Words
  import opened Header
  import opened Options
  import opened Slots
  import opened Sequences

  datatype Frame = Frame(header: MsgHeader, payload: seq<u8>)

  predicate WellFormed(f: Frame) {
    f.header.payloadLen == |f.payload|
  }

  predicate AllWellFormed(fs: seq<Frame>) {
    forall i :: 0 <= i < |fs| ==> WellFormed(fs[i])
  }

  function Wire(f: Frame): (s: seq<u8>)
    ensures |s| == HEADER_SIZE + |f.payload|
  {
    Encode(f.header) + f.payload
  }

  function WireAll(fs: seq<Frame>): seq<u8> {
    if fs == [] then [] else Wire(fs[0]) + WireAll(fs[1..])
  }

  /** The first frame of a stream, if the stream holds all of it, and the bytes after it. */
  function TakeFrame(s: seq<u8>): (r: Option<(Frame, seq<u8>)>)
    ensures r.Some? ==> |r.value.1| < |s|
  {
    match FromBytes(s)
    case None => None
    case Some(h) =>
      if |s| < HEADER_SIZE + h.payloadLen then None
      else Some((Frame(h, s[HEADER_SIZE..HEADER_SIZE + h.payloadLen]), s[HEADER_SIZE + h.payloadLen..]))
  }

  /** All complete frames at the front of a stream. */
  function Parse(s: seq<u8>): seq<Frame>
    decreases |s|
  {
    match TakeFrame(s)
    case None => []
    case Some((f, rest)) => [f] + Parse(rest)
  }

  /** A stream begins with a frame exactly when that is the frame taken. */
  lemma TakeFrameExact(s: seq<u8>, f: Frame, rest: seq<u8>)
    ensures TakeFrame(s) == Some((f, rest)) <==> s == Wire(f) + rest && WellFormed(f)
  {
    if s == Wire(f) + rest && WellFormed(f) {
      assert s == Encode(f.header) + (f.payload + rest);
      DecodeEncode(f.header, f.payload + rest);
      var n := HEADER_SIZE + f.header.payloadLen;
      assert s[HEADER_SIZE..n] == f.payload && s[n..] == rest;
    }
    if TakeFrame(s) == Some((f, rest)) {
      EncodeDecode(s);
      var n := HEADER_SIZE + f.header.payloadLen;
      assert s == s[..HEADER_SIZE] + s[HEADER_SIZE..n] + s[n..];
    }
  }

  lemma WireAllCons(f: Frame, fs: seq<Frame>)
    ensures WireAll([f] + fs) == Wire(f) + WireAll(fs)
  {
    assert ([f] + fs)[1..] == fs;
  }

  lemma ParseCons(f: Frame, rest: seq<u8>)
    requires WellFormed(f)
    ensures Parse(Wire(f) + rest) == [f] + Parse(rest)
  {
    TakeFrameExact(Wire(f) + rest, f, rest);
  }

  /** `Parse` is sound and maximal: the stream is the frames' bytes and a rest without a frame. */
  lemma {:induction false} ParseSplits(s: seq<u8>) returns (rest: seq<u8>)
    ensures AllWellFormed(Parse(s))
    ensures s == WireAll(Parse(s)) + rest && TakeFrame(rest).None?
    decreases |s|
  {
    if TakeFrame(s).None? {
      rest := s;
    } else {
      var (f, tail) := TakeFrame(s).value;
      TakeFrameExact(s, f, tail);
      rest := ParseSplits(tail);
      ParseCons(f, tail);
      WireAllCons(f, Parse(tail));
      Assoc(Wire(f), WireAll(Parse(tail)), rest);
    }
  }

  /** ... and it is the only such list: framing is uniquely decodable. */
  lemma {:induction false} ParseUnique(fs: seq<Frame>, rest: seq<u8>)
    requires AllWellFormed(fs) && TakeFrame(rest).None?
    ensures Parse(WireAll(fs) + rest) == fs
  {
    if fs == [] {
      assert WireAll(fs) + rest == rest;
    } else {
      Assoc(Wire(fs[0]), WireAll(fs[1..]), rest);
      ParseUnique(fs[1..], rest);
      ParseCons(fs[0], WireAll(fs[1..]) + rest);
    }
  }

  /** Truncating a stream only drops frames at the end. */
  lemma {:induction false} ParseMonotone(s: seq<u8>, t: seq<u8>)
    requires s <= t
    ensures Parse(s) <= Parse(t)
    decreases |s|
  {
    match TakeFrame(s) {
      case None =>
      case Some((f, tail)) =>
        TakeFrameExact(s, f, tail);
        var tail' := tail + t[|s|..];
        assert t == s + t[|s|..] == Wire(f) + tail';
        TakeFrameExact(t, f, tail');
        ParseMonotone(tail, tail');
    }
  }

  lemma ParseWhole(fs: seq<Frame>)
    requires AllWellFormed(fs)
    ensures Parse(WireAll(fs)) == fs
  {
    ParseUnique(fs, []);
    assert WireAll(fs) + [] == WireAll(fs);
  }

  lemma ParseOne(f: Frame)
    requires WellFormed(f)
    ensures Parse(Wire(f)) == [f]
  {
    assert Wire(f) + [] == Wire(f);
    ParseCons(f, []);
  }

  /** Every truncation of the bytes of a list of frames parses to a prefix of the list. */
  lemma ParseTruncated(fs: seq<Frame>, s: seq<u8>)
    requires AllWellFormed(fs) && s <= WireAll(fs)
    ensures Parse(s) <= fs
  {
    ParseWhole(fs);
    ParseMonotone(s, WireAll(fs));
  }

  // ---- What the bus accepts from a publisher ----

  /** The next frame the bus's read loop publishes: none after a truncated frame, and none after an
      announced payload above the cap, whose bytes are not even read. */
  function TakeAccepted(s: seq<u8>): (r: Option<(Frame, seq<u8>)>)
    ensures r.Some? ==> |r.value.1| < |s|
  {
    match FromBytes(s)
    case None => None
    case Some(h) => if h.payloadLen > PAYLOAD_CAP then None else TakeFrame(s)
  }

  /** All frames the bus's read loop publishes from a stream. */
  function Accepted(s: seq<u8>): seq<Frame>
    decreases |s|
  {
    match TakeAccepted(s)
    case None => []
    case Some((f, rest)) => [f] + Accepted(rest)
  }

  predicate Small(f: Frame) {
    |f.payload| <= PAYLOAD_CAP
  }

  function TakeSmall(fs: seq<Frame>): seq<Frame> {
    if fs != [] && Small(fs[0]) then [fs[0]] + TakeSmall(fs[1..]) else []
  }

  /** The read loop accepts exactly the longest prefix of within-cap frames of the stream. */
  lemma {:induction false} AcceptedIsSmallPrefix(s: seq<u8>)
    ensures Accepted(s) == TakeSmall(Parse(s))
    decreases |s|
  {
    match TakeFrame(s) {
      case None =>
      case Some((f, rest)) =>
        TakeFrameExact(s, f, rest);
        AcceptedIsSmallPrefix(rest);
        assert Parse(s)[1..] == Parse(rest);
    }
  }

  lemma {:induction false} TakeSmallPrefix(fs: seq<Frame>)
    ensures TakeSmall(fs) <= fs
    ensures forall i :: 0 <= i < |TakeSmall(fs)| ==> Small(fs[i])
    ensures |TakeSmall(fs)| < |fs| ==> !Small(fs[|TakeSmall(fs)|])
  {
    if fs != [] && Small(fs[0]) {
      TakeSmallPrefix(fs[1..]);
      assert fs == [fs[0]] + fs[1..];
    }
  }

  lemma {:induction false} TakeSmallMonotone(fs: seq<Frame>, gs: seq<Frame>)
    requires fs <= gs
    ensures TakeSmall(fs) <= TakeSmall(gs)
  {
    if fs != [] && Small(fs[0]) {
      TakeSmallMonotone(fs[1..], gs[1..]);
    }
  }

  /** From a publisher that sent `fs`, the whole stream is accepted up to the first oversized frame. */
  lemma AcceptedWhole(fs: seq<Frame>)
    requires AllWellFormed(fs)
    ensures Accepted(WireAll(fs)) == TakeSmall(fs)
  {
    AcceptedIsSmallPrefix(WireAll(fs));
    ParseWhole(fs);
  }

  /** ... and a connection that breaks anywhere only loses frames at the end. */
  lemma AcceptedFromSender(fs: seq<Frame>, s: seq<u8>)
    requires AllWellFormed(fs) && s <= WireAll(fs)
    ensures Accepted(s) <= TakeSmall(fs) <= fs
  {
    AcceptedIsSmallPrefix(s);
    ParseTruncated(fs, s);
    TakeSmallMonotone(Parse(s), fs);
    TakeSmallPrefix(fs);
  }
}
