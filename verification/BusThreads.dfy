/** The bus's thread bodies as they are written: loops over a reader, the ring, the registry and the
    queues. Where a thread yields to another one, that one takes its turn. */
module BusThreads {
  import opened Words
  import opened Slots
  import opened Sequences
  import opened Header
  import opened Framing
  import opened Handshake
  import opened Options
  import opened Streams
  import BP = BusProtocol
  import BI = BusInvariant
  import RP = RingProtocol
  import Ring

  type Queues = map<nat, seq<seq<u8>>>

  ghost predicate AllFit(log: seq<Msg>) {
    forall i :: 0 <= i < |log| ==> Fits(log[i])
  }

  /** The queue with this id is to take a message: its subscriber is registered, for all channels or for
      this one, and there is room. */
  ghost predicate Takes(queues: Queues, registry: map<nat, Filter>, m: Msg, depth: nat, id: nat)
    requires id in queues
  {
    id in registry && (registry[id].all || m.channelId in registry[id].channels) && |queues[id]| < depth
  }

  /** One message has been offered to everybody: a queue that is to take it has one more item, a frame that
      carries exactly the message, and every other queue is as it was. */
  ghost predicate Offered(queues: Queues, queues': Queues, registry: map<nat, Filter>, m: Msg, depth: nat) {
    && queues'.Keys == queues.Keys
    && forall id :: id in queues ==>
         if Takes(queues, registry, m, depth, id) then
           |queues'[id]| == |queues[id]| + 1 && Front(queues'[id]) == queues[id]
           && BP.IsFrameOf(Last(queues'[id]), m)
         else queues'[id] == queues[id]
  }

  /** What one message does to the queues: appended where it is wanted and there is room. */
  function FanOut(queues: Queues, registry: map<nat, Filter>, m: Msg, depth: nat): Queues
    requires Fits(m)
  {
    map id | id in queues ::
      if id in registry && registry[id].Accepts(m.channelId) && |queues[id]| < depth
      then queues[id] + [Wire(BP.FromMsg(m))] else queues[id]
  }

  lemma FanOutOffers(queues: Queues, registry: map<nat, Filter>, m: Msg, depth: nat)
    requires Fits(m)
    ensures Offered(queues, FanOut(queues, registry, m, depth), registry, m, depth)
  {
    BP.WireIsFrame(m);
  }

  /** ... and what the messages of a log from `lo` up to `hi` do to them. */
  ghost function FannedOut(queues: Queues, registry: map<nat, Filter>, log: seq<Msg>, lo: nat, hi: nat, depth: nat): Queues
    requires hi <= |log| && AllFit(log)
    decreases hi
  {
    if hi <= lo then queues
    else FanOut(FannedOut(queues, registry, log, lo, hi - 1, depth), registry, log[hi - 1], depth)
  }

  /** What a queue holds after the messages from `lo` up to `hi` were fanned out, while nobody took
      anything from it: what it held, and then the frames of the matching messages, in order, as many as
      there was room for. */
  ghost predicate Holds(queue: seq<seq<u8>>, queue': seq<seq<u8>>, log: seq<Msg>, ns: seq<nat>, depth: nat)
    requires forall j :: 0 <= j < |ns| ==> ns[j] < |log|
  {
    var room := if |queue| < depth then depth - |queue| else 0;
    var n := if |ns| < room then |ns| else room;
    && |queue'| == |queue| + n && queue <= queue'
    && forall j :: 0 <= j < n ==> BP.IsFrameOf(queue'[|queue| + j], log[ns[j]])
  }

  lemma HoldsMore(queue: seq<seq<u8>>, before: seq<seq<u8>>, after: seq<seq<u8>>, log: seq<Msg>,
      ns: seq<nat>, n: nat, depth: nat)
    requires n < |log| && forall j :: 0 <= j < |ns| ==> ns[j] < |log|
    requires Holds(queue, before, log, ns, depth)
    requires if |before| < depth then |after| == |before| + 1 && Front(after) == before && BP.IsFrameOf(Last(after), log[n])
             else after == before
    ensures Holds(queue, after, log, ns + [n], depth)
  {
  }

  /** The queue with this id after these fan-outs: untouched if nobody is registered under the id, and
      otherwise with the matching messages that found room, and nothing else, at its end. */
  ghost predicate Shows(queue: seq<seq<u8>>, queue': seq<seq<u8>>, registry: map<nat, Filter>, id: nat,
      log: seq<Msg>, lo: nat, hi: nat, depth: nat)
    requires hi <= |log|
  {
    if id !in registry then queue' == queue
    else
      var ns := BI.Matching(log, registry[id], lo, hi);
      (forall j :: 0 <= j < |ns| ==> ns[j] < |log|) && Holds(queue, queue', log, ns, depth)
  }

  lemma ShowsNothing(queue: seq<seq<u8>>, registry: map<nat, Filter>, id: nat, log: seq<Msg>, lo: nat, hi: nat, depth: nat)
    requires hi <= lo && hi <= |log|
    ensures Shows(queue, queue, registry, id, log, lo, hi, depth)
  {
  }

  lemma ShowsOneMore(queues: Queues, before: Queues, after: Queues, registry: map<nat, Filter>, id: nat,
      log: seq<Msg>, lo: nat, hi: nat, depth: nat)
    requires lo <= hi < |log| && id in queues && id in before
    requires Shows(queues[id], before[id], registry, id, log, lo, hi, depth)
    requires Offered(before, after, registry, log[hi], depth)
    ensures Shows(queues[id], after[id], registry, id, log, lo, hi + 1, depth)
  {
    if id in registry {
      var ns := BI.Matching(log, registry[id], lo, hi);
      if registry[id].Accepts(log[hi].channelId) {
        HoldsMore(queues[id], before[id], after[id], log, ns, hi, depth);
      } else {
        assert !Takes(before, registry, log[hi], depth, id);
      }
    }
  }

  /** Stated for each queue on its own, what any stretch of fan-outs does. */
  lemma {:induction false} FannedOutExact(queues: Queues, registry: map<nat, Filter>, log: seq<Msg>, lo: nat, hi: nat,
      depth: nat, id: nat)
    requires hi <= |log| && AllFit(log) && id in queues
    ensures
      var queues' := FannedOut(queues, registry, log, lo, hi, depth);
      queues'.Keys == queues.Keys && Shows(queues[id], queues'[id], registry, id, log, lo, hi, depth)
    decreases hi
  {
    if hi <= lo {
      ShowsNothing(queues[id], registry, id, log, lo, hi, depth);
    } else {
      var before := FannedOut(queues, registry, log, lo, hi - 1, depth);
      var after := FanOut(before, registry, log[hi - 1], depth);
      FanOutOffers(before, registry, log[hi - 1], depth);
      FannedOutExact(queues, registry, log, lo, hi - 1, depth, id);
      ShowsOneMore(queues, before, after, registry, id, log, lo, hi - 1, depth);
    }
  }

  /** The queues after one more turn of the dispatch thread, if it has a message. */
  ghost function AfterTurn(queues: Queues, registry: map<nat, Filter>, log: seq<Msg>, next: nat, depth: nat): Queues
    requires AllFit(log)
  {
    if next < |log| then FanOut(queues, registry, log[next], depth) else queues
  }

  lemma FannedOutTurn(queues: Queues, registry: map<nat, Filter>, log: seq<Msg>, log': seq<Msg>, next: nat, depth: nat)
    requires AllFit(log') && AllFit(log) && log <= log' && next <= |log|
    ensures FannedOut(queues, registry, log', next, next, depth) == queues
    ensures next < |log| ==>
      FannedOut(queues, registry, log', next, next + 1, depth) == AfterTurn(queues, registry, log, next, depth)
  {
    if next < |log| {
      assert FannedOut(queues, registry, log', next, next, depth) == queues;
    }
  }

  lemma {:induction false} FannedOutTwice(queues: Queues, registry: map<nat, Filter>, log: seq<Msg>,
      lo: nat, mid: nat, hi: nat, depth: nat)
    requires lo <= mid <= hi <= |log| && AllFit(log)
    ensures FannedOut(FannedOut(queues, registry, log, lo, mid, depth), registry, log, mid, hi, depth)
         == FannedOut(queues, registry, log, lo, hi, depth)
    decreases hi
  {
    if hi > mid {
      FannedOutTwice(queues, registry, log, lo, mid, hi - 1, depth);
    }
  }

  /** Two stretches of fan-outs, the second after the log has grown, make one. */
  lemma FannedOutFurther(queues: Queues, queues1: Queues, queues2: Queues, registry: map<nat, Filter>,
      log: seq<Msg>, log': seq<Msg>, lo: nat, mid: nat, hi: nat, depth: nat)
    requires lo <= mid <= hi <= |log'| && mid <= |log| && log <= log'
    requires AllFit(log')
    requires AllFit(log)
    requires queues1 == FannedOut(queues, registry, log, lo, mid, depth)
    requires queues2 == FannedOut(queues1, registry, log', mid, hi, depth)
    ensures queues2 == FannedOut(queues, registry, log', lo, hi, depth)
  {
    FannedOutOfLonger(queues, registry, log, log', lo, mid, depth);
    FannedOutTwice(queues, registry, log', lo, mid, hi, depth);
  }

  lemma {:induction false} FannedOutOfLonger(queues: Queues, registry: map<nat, Filter>, log: seq<Msg>, log': seq<Msg>,
      lo: nat, hi: nat, depth: nat)
    requires hi <= |log| && log <= log' && AllFit(log')
    ensures FannedOut(queues, registry, log', lo, hi, depth) == FannedOut(queues, registry, log, lo, hi, depth)
    decreases hi
  {
    if hi > lo {
      FannedOutOfLonger(queues, registry, log, log', lo, hi - 1, depth);
    }
  }

  /** A message without its timestamp. */
  datatype Body = Body(channelId: u32, msgType: u8, payload: seq<u8>)

  ghost function Bodies(ms: seq<Msg>): seq<Body> {
    seq(|ms|, i requires 0 <= i < |ms| => Body(ms[i].channelId, ms[i].msgType, ms[i].payload))
  }

  ghost function FrameBodies(fs: seq<Frame>): seq<Body> {
    seq(|fs|, i requires 0 <= i < |fs| => Body(fs[i].header.channelId, fs[i].header.msgType, fs[i].payload))
  }

  lemma OneBody(log: seq<Msg>, f: Frame, now: u64)
    ensures Bodies(log + [BP.ToMsg(f, now)]) == Bodies(log) + FrameBodies([f])
  {
  }

  lemma OneMore(start: seq<Msg>, log: seq<Msg>, log': seq<Msg>, done: seq<Frame>, f: Frame, rest: seq<Frame>)
    requires Bodies(log) == Bodies(start) + FrameBodies(done)
    requires Bodies(log') == Bodies(log) + FrameBodies([f])
    ensures Bodies(log') == Bodies(start) + FrameBodies(done + [f])
    ensures done + ([f] + rest) == (done + [f]) + rest
  {
    assert FrameBodies(done + [f]) == FrameBodies(done) + FrameBodies([f]);
  }

  class Server {
    const ring: Ring.Ring
    const dispatcher: nat
    const depth: nat
    var registry: map<nat, Filter>
    var queues: Queues
    var nextId: nat

    ghost predicate Valid()
      reads this, ring, ring.stamps, ring.cells, ring.cursors
    {
      && ring.Valid() && dispatcher < RP.MAX_CONSUMERS
      && ring.cursors[dispatcher] <= |ring.log| <= ring.cursors[dispatcher] + Pow2(ring.bits)
      && (forall i :: 0 <= i < RP.MAX_CONSUMERS && i != dispatcher ==> ring.cursors[i] == RP.CONSUMER_FREE)
      && registry.Keys <= queues.Keys
      && (forall id :: id in queues ==> id < nextId && |queues[id]| <= depth)
    }

    lemma LogFits()
      requires Valid()
      ensures AllFit(ring.log)
    {
    }

    ghost function Next(): nat
      requires Valid()
      reads this, ring, ring.stamps, ring.cells, ring.cursors
    {
      ring.cursors[dispatcher]
    }

    constructor (bits: nat, depth: nat)
      ensures Valid() && this.depth == depth && ring.bits == bits && ring.log == []
      ensures registry == map[] && queues == map[] && nextId == 0
    {
      var r := new Ring.Ring(bits);
      var id := r.RegisterConsumer();
      ring := r;
      dispatcher := if id.Some? then id.value else 0;
      this.depth := depth;
      registry, queues, nextId := map[], map[], 0;
      new;
      assert forall i :: 0 <= i < RP.MAX_CONSUMERS ==> r.cursors[..][i] == r.cursors[i];
    }

    /** One turn of the dispatch loop: the next message, if there is one, is offered to every
        registered subscriber whose filter accepts it, in no particular order. */
    method DispatchOnce()
      requires Valid()
      modifies this`queues, ring.cursors
      ensures Valid() && ring.log == old(ring.log)
      ensures old(Next()) < |ring.log| ==>
        && Fits(ring.log[old(Next())]) && Next() == old(Next()) + 1
        && queues == FanOut(old(queues), registry, ring.log[old(Next())], depth)
        && Offered(old(queues), queues, registry, ring.log[old(Next())], depth)
      ensures old(Next()) == |ring.log| ==> Next() == old(Next()) && queues == old(queues)
    {
      var r := ring.ConsumeOne(dispatcher, 1);
      assert forall i :: 0 <= i < RP.MAX_CONSUMERS ==> ring.cursors[..][i] == ring.cursors[i];
      if r.Consumed? {
        OfferToAll(r.msg);
      }
    }

    /** Builds the frame of a message from its slot and offers it to everybody. */
    method OfferToAll(m: Msg)
      requires Fits(m) && registry.Keys <= queues.Keys
      modifies this`queues
      ensures queues == FanOut(old(queues), registry, m, depth)
      ensures Offered(old(queues), queues, registry, m, depth)
    {
      var hdr := ToBytes(MsgHeader(m.msgType, m.channelId, m.timestampNs, |m.payload|));
      var frame := hdr[..] + m.payload;
      TrySendAll(frame, m.channelId);
      assert queues == FanOut(old(queues), registry, m, depth);
      FanOutOffers(old(queues), registry, m, depth);
    }

    /** `try_send` of one frame to every matching registry entry; a full queue drops it. */
    method TrySendAll(frame: seq<u8>, channel: u32)
      requires registry.Keys <= queues.Keys
      modifies this`queues
      ensures queues.Keys == old(queues).Keys
      ensures forall id :: id in queues ==>
        var q := old(queues)[id];
        queues[id] == if id in registry && registry[id].Accepts(channel) && |q| < depth then q + [frame] else q
    {
      var todo := registry.Keys;
      while todo != {}
        invariant todo <= registry.Keys && queues.Keys == old(queues).Keys
        invariant forall id :: id in queues ==>
          var q := old(queues)[id];
          queues[id] == if id in registry && id !in todo && registry[id].Accepts(channel) && |q| < depth
                        then q + [frame] else q
        decreases |todo|
      {
        var id :| id in todo;
        todo := todo - {id};
        if registry[id].Accepts(channel) && |queues[id]| < depth {
          queues := queues[id := queues[id] + [frame]];
        }
      }
    }

    /** One attempt under the lock: refused only while the dispatch thread is a whole lap behind. */
    method TryPublish(f: Frame, now: u64) returns (r: Ring.PublishResult)
      requires Valid() && |ring.log| < RP.MAX_MESSAGES
      modifies ring, ring.stamps, ring.cells
      ensures Valid() && Next() == old(Next())
      ensures r.PayloadTooLarge? <==> !Small(f)
      ensures r.SlowConsumer? <==> Small(f) && Next() + Pow2(ring.bits) <= |old(ring.log)|
      ensures ring.log == if r.Published? then old(ring.log) + [BP.ToMsg(f, now)] else old(ring.log)
      ensures AllFit(ring.log)
    {
      ghost var behind := ring.LapBehind(dispatcher);
      r := ring.Publish(f.header.channelId, f.header.msgType, f.payload, now);
      assert r.Published? ==> !behind;
      assert r.SlowConsumer? ==> behind;
    }

    /** Publishes one frame, letting the dispatch thread go on whenever the ring is full. */
    method PublishOne(f: Frame, now: u64)
      requires Valid() && |ring.log| < RP.MAX_MESSAGES
      modifies this`queues, ring, ring.stamps, ring.cells, ring.cursors
      ensures Valid()
      ensures ring.log == if Small(f) then old(ring.log) + [BP.ToMsg(f, now)] else old(ring.log)
      ensures Next() == if Small(f) && old(Next()) + Pow2(ring.bits) <= |old(ring.log)| then old(Next()) + 1 else old(Next())
      ensures Next() <= |old(ring.log)| && AllFit(ring.log)
      ensures queues == FannedOut(old(queues), registry, ring.log, old(Next()), Next(), depth)
    {
      LogFits();
      ghost var log, next, before := ring.log, Next(), queues;
      ghost var after := AfterTurn(before, registry, log, next, depth);
      while true
        invariant Valid() && ring.log == log
        invariant (Next() == next && queues == before) ||
          (Next() == next + 1 && queues == after && Small(f) && next + Pow2(ring.bits) <= |log|)
        decreases |log| - Next()
      {
        var r := TryPublish(f, now);
        if !r.SlowConsumer? {
          FannedOutTurn(before, registry, log, ring.log, next, depth);
          return;
        }
        DispatchOnce();
      }
    }

    /** The publisher loop publishes exactly the frames the parser accepts from the stream. */
    method RunPublisher(reader: Reader)
      requires Valid() && |ring.log| + |Accepted(reader.rest)| <= RP.MAX_MESSAGES
      modifies reader, this`queues, ring, ring.stamps, ring.cells, ring.cursors
      ensures Valid() && old(ring.log) <= ring.log && AllFit(ring.log)
      ensures Bodies(ring.log) == Bodies(old(ring.log)) + FrameBodies(Accepted(old(reader.rest)))
      ensures old(Next()) <= Next() <= |ring.log|
      ensures queues == FannedOut(old(queues), registry, ring.log, old(Next()), Next(), depth)
    {
      ghost var s := reader.rest;
      ghost var done: seq<Frame> := [];
      LogFits();
      while true
        invariant Valid() && old(ring.log) <= ring.log && AllFit(ring.log)
        invariant old(Next()) <= Next() <= |ring.log|
        invariant queues == FannedOut(old(queues), registry, ring.log, old(Next()), Next(), depth)
        invariant done + Accepted(reader.rest) == Accepted(s)
        invariant |ring.log| + |Accepted(reader.rest)| <= RP.MAX_MESSAGES
        invariant Bodies(ring.log) == Bodies(old(ring.log)) + FrameBodies(done)
        decreases |reader.rest|
      {
        ghost var before, queuesBefore, next := ring.log, queues, Next();
        var r := PublishNext(reader);
        FannedOutFurther(old(queues), queuesBefore, queues, registry, before, ring.log,
          old(Next()), next, Next(), depth);
        if r.None? {
          return;
        }
        OneMore(old(ring.log), before, ring.log, done, r.value, Accepted(reader.rest));
        done := done + [r.value];
      }
    }

    /** One turn of the loop: the next frame of the stream, if there is one, is read and published. */
    method PublishNext(reader: Reader) returns (r: Option<Frame>)
      requires Valid() && |ring.log| + |Accepted(reader.rest)| <= RP.MAX_MESSAGES
      modifies reader, this`queues, ring, ring.stamps, ring.cells, ring.cursors
      ensures Valid() && old(ring.log) <= ring.log && AllFit(ring.log)
      ensures old(Next()) <= Next() <= |ring.log|
      ensures queues == FannedOut(old(queues), registry, ring.log, old(Next()), Next(), depth)
      ensures r.None? ==> Accepted(old(reader.rest)) == [] && ring.log == old(ring.log)
      ensures r.Some? ==>
        && |reader.rest| < |old(reader.rest)| && Accepted(old(reader.rest)) == [r.value] + Accepted(reader.rest)
        && |ring.log| == |old(ring.log)| + 1
        && Bodies(ring.log) == Bodies(old(ring.log)) + FrameBodies([r.value])
    {
      LogFits();
      r := ReadFrame(reader);
      if r.Some? {
        var now: u64 := *;
        PublishOne(r.value, now);
        OneBody(old(ring.log), r.value, now);
      }
    }

    /** The header and payload reads of the publisher loop. */
    method ReadFrame(reader: Reader) returns (r: Option<Frame>)
      modifies reader
      ensures r.Some? ==> Small(r.value) && Accepted(old(reader.rest)) == [r.value] + Accepted(reader.rest)
      ensures r.Some? ==> |reader.rest| < |old(reader.rest)|
      ensures r.None? ==> Accepted(old(reader.rest)) == []
    {
      ghost var s := reader.rest;
      var hdrBuf := reader.ReadExact(HEADER_SIZE);
      if hdrBuf.None? {
        return None;
      }
      EncodeDecode(hdrBuf.value);
      var header := FromBytes(hdrBuf.value).value;
      assert s == Encode(header) + s[HEADER_SIZE..];
      DecodeEncode(header, s[HEADER_SIZE..]);
      var plen := header.payloadLen;
      if plen > PAYLOAD_CAP {
        return None;
      }
      var payload: seq<u8> := [];
      if plen > 0 {
        var p := reader.ReadExact(plen);
        if p.None? {
          return None;
        }
        payload := p.value;
      }
      r := Some(Frame(header, payload));
      assert s == Wire(r.value) + reader.rest;
      TakeFrameExact(s, r.value, reader.rest);
    }

    /** The connection thread up to its loop: a subscriber is registered under a new id with an empty
        queue, a publisher's whole accepted stream is published, anything else changes nothing. */
    method HandleConnection(reader: Reader) returns (id: Option<nat>)
      requires Valid() && |ring.log| + |Accepted(reader.rest)| <= RP.MAX_MESSAGES
      modifies reader, this, ring, ring.stamps, ring.cells, ring.cursors
      ensures Valid() && old(ring.log) <= ring.log
      ensures
        match Greet(old(reader.rest))
        case Dropped =>
          && id.None? && ring.log == old(ring.log) && registry == old(registry) && queues == old(queues)
          && Next() == old(Next()) && nextId == old(nextId)
        case Subscribe(filter) =>
          && id == Some(old(nextId)) && nextId == old(nextId) + 1 && old(nextId) !in old(registry)
          && registry == old(registry)[old(nextId) := filter] && queues == old(queues)[old(nextId) := []]
          && ring.log == old(ring.log) && Next() == old(Next())
        case Publish(_, _) =>
          && id.None? && registry == old(registry) && nextId == old(nextId) && AllFit(ring.log) && old(Next()) <= Next() <= |ring.log|
          && queues == FannedOut(old(queues), registry, ring.log, old(Next()), Next(), depth)
          && Bodies(ring.log) == Bodies(old(ring.log)) + FrameBodies(Accepted(old(reader.rest)))
    {
      ghost var s := reader.rest;
      var hello := Handshake.HandleConnection(reader);
      match hello {
        case Dropped => id := None;
        case Subscribe(filter) =>
          var newId := Register(filter);
          id := Some(newId);
        case Publish(first, rest) =>
          FirstFrameIsNotSpecial(s);
          id := None;
          PublishFrom(first, reader);
      }
    }

    /** Takes the next id and inserts an empty queue under it. */
    method Register(filter: Filter) returns (id: nat)
      requires Valid()
      modifies this
      ensures Valid() && id == old(nextId) && nextId == id + 1 && id !in old(registry)
      ensures registry == old(registry)[id := filter] && queues == old(queues)[id := []]
    {
      id := nextId;
      registry, queues := registry[id := filter], queues[id := []];
      nextId := id + 1;
    }

    /** A publisher connection from its first frame on. */
    method PublishFrom(first: Frame, reader: Reader)
      requires Valid() && Small(first) && |ring.log| + 1 + |Accepted(reader.rest)| <= RP.MAX_MESSAGES
      modifies reader, this`queues, ring, ring.stamps, ring.cells, ring.cursors
      ensures Valid() && old(ring.log) <= ring.log && AllFit(ring.log)
      ensures Bodies(ring.log) == Bodies(old(ring.log)) + FrameBodies([first] + Accepted(old(reader.rest)))
      ensures old(Next()) <= Next() <= |ring.log|
      ensures queues == FannedOut(old(queues), registry, ring.log, old(Next()), Next(), depth)
    {
      var now: u64 := *;
      PublishOne(first, now);
      ghost var middle, queuesBefore, next := ring.log, queues, Next();
      RunPublisher(reader);
      FannedOutFurther(old(queues), queuesBefore, queues, registry, middle, ring.log,
        old(Next()), next, Next(), depth);
      FirstAndRest(old(ring.log), middle, ring.log, first, now, Accepted(old(reader.rest)));
    }

    /** The subscriber thread over the frames now in its queue: writes them in order until the queue is
        empty, or a write fails and the thread removes itself from the registry. */
    method RunSubscriberIo(id: nat, w: Writer) returns (k: nat, ok: bool)
      requires Valid() && id in queues && |w.written| <= w.limit
      modifies this`queues, this`registry, w
      ensures Valid() && k <= |old(queues)[id]|
      ensures queues == old(queues)[id := old(queues)[id][k..]]
      ensures w.written == Clip(old(w.written) + Flat(old(queues)[id][..k]), w.limit)
      ensures ok ==> k == |old(queues)[id]| && registry == old(registry)
                     && w.written == old(w.written) + Flat(old(queues)[id])
      ensures !ok ==> registry == old(registry) - {id} && |old(w.written)| + |Flat(old(queues)[id][..k])| > w.limit
    {
      ghost var q := queues[id];
      k, ok := 0, true;
      assert queues[id := q[0..]] == queues;
      assert old(w.written) + Flat(q[..0]) == old(w.written);
      while queues[id] != []
        invariant k <= |q| && queues == old(queues)[id := q[k..]]
        invariant registry == old(registry)
        invariant w.written == old(w.written) + Flat(q[..k]) && |w.written| <= w.limit
        decreases |queues[id]|
      {
        var frame := queues[id][0];
        queues := queues[id := queues[id][1..]];
        FlatSnoc(q[..k], frame);
        assert q[..k + 1] == q[..k] + [frame];
        assert old(w.written) + (Flat(q[..k]) + frame) == (old(w.written) + Flat(q[..k])) + frame;
        k := k + 1;
        ok := w.WriteAll(frame);
        if !ok {
          registry := registry - {id};
          return;
        }
      }
      assert q[..k] == q;
    }
  }

  /** The bytes of a queue's frames, one after the other. */
  function Flat(frames: seq<seq<u8>>): seq<u8> {
    if frames == [] then [] else frames[0] + Flat(frames[1..])
  }

  lemma {:induction false} FlatSnoc(frames: seq<seq<u8>>, f: seq<u8>)
    ensures Flat(frames + [f]) == Flat(frames) + f
  {
    if frames == [] {
      assert [f][1..] == [] && [] + [f] == [f];
    } else {
      FlatSnoc(frames[1..], f);
      assert (frames + [f])[1..] == frames[1..] + [f];
      Assoc(frames[0], Flat(frames[1..]), f);
    }
  }

  /** A reader of the bytes of whole frames parses exactly these frames. */
  lemma {:induction false} FlatIsWire(frames: seq<seq<u8>>, fs: seq<Frame>)
    requires |frames| == |fs| && forall i :: 0 <= i < |fs| ==> frames[i] == Wire(fs[i])
    ensures Flat(frames) == WireAll(fs)
  {
    if fs != [] {
      FlatIsWire(frames[1..], fs[1..]);
    }
  }

  lemma FirstAndRest(before: seq<Msg>, middle: seq<Msg>, after: seq<Msg>, f: Frame, now: u64, rest: seq<Frame>)
    requires middle == before + [BP.ToMsg(f, now)]
    requires Bodies(after) == Bodies(middle) + FrameBodies(rest)
    ensures Bodies(after) == Bodies(before) + FrameBodies([f] + rest)
  {
    var m := BP.ToMsg(f, now);
    assert Bodies(middle) == Bodies(before) + [Body(m.channelId, m.msgType, m.payload)];
    assert FrameBodies([f] + rest) == [Body(m.channelId, m.msgType, m.payload)] + FrameBodies(rest);
  }
}
