/** What the whole bus promises its publishers and subscribers, over every run. */
module BusTheorems {
  import opened Words
  import opened Slots
  import opened Sequences
  import opened Framing
  import opened Handshake
  import opened BusProtocol
  import opened BusInvariant
  import BS = BusSafety
  import R = RingProtocol
  import RS = RingSafety
  import RT = RingTheorems
  import C = SubscriberClient
  import P = PublisherClient

  // ---- The ring's order is a merge of the publishers' orders ----

  /** Message `n` is frame `i` of publisher connection `c`. */
  ghost predicate ComesFrom(s: Bus, n: nat, c: nat, i: nat) {
    && n < |s.ring.log| && c < |s.conns| && s.conns[c].Pub?
    && i < |s.conns[c].at| <= |s.conns[c].frames|
    && s.conns[c].at[i] == n && Carries(s.ring.log[n], s.conns[c].frames[i])
  }

  lemma PubFacts(s: Bus, c: nat)
    requires Inv(s) && c < |s.conns| && s.conns[c].Pub?
    ensures PubOk(s.ring.log, s.origin, c, s.conns[c])
  {
    assert ConnOk(s.ring.log, s.origin, s.depth, c, s.conns[c]);
  }

  ghost predicate OwnOrder(s: Bus, c: nat) {
    && c < |s.conns| && s.conns[c].Pub?
    && var k := s.conns[c];
       && k.frames <= Accepted(k.input) && Increasing(k.at)
       && |k.at| <= |k.frames| <= |k.at| + 1
       && (forall i: nat :: i < |k.at| ==> ComesFrom(s, k.at[i], c, i))
       && (k.pub.Ended? ==> k.frames == Accepted(k.input) && |k.at| == |k.frames|)
  }

  lemma PubInOwnOrder(s: Bus, c: nat)
    requires Inv(s) && c < |s.conns| && s.conns[c].Pub?
    ensures OwnOrder(s, c)
  {
    PubFacts(s, c);
  }

  lemma Source(s: Bus, n: nat) returns (c: nat, i: nat)
    requires Inv(s) && n < |s.ring.log|
    ensures ComesFrom(s, n, c, i) && c == s.origin[n]
  {
    c := s.origin[n];
    PubFacts(s, c);
    i :| 0 <= i < |s.conns[c].at| && s.conns[c].at[i] == n;
  }

  lemma SourceIsUnique(s: Bus, n: nat, c: nat, i: nat, c': nat, i': nat)
    requires Inv(s) && ComesFrom(s, n, c, i) && ComesFrom(s, n, c', i')
    ensures c == c' && i == i'
  {
    PubFacts(s, c);
    PubFacts(s, c');
    assert s.origin[s.conns[c].at[i]] == c && s.origin[s.conns[c'].at[i']] == c';
  }

  ghost predicate HasSource(s: Bus, n: nat) {
    exists c: nat, i: nat :: ComesFrom(s, n, c, i)
  }

  /** Every message in the ring is exactly one accepted frame of one publisher, the frames of one
      publisher appear in its own order without a gap, and they are a prefix of what the bus accepts
      from its byte stream; once the publisher's loop has ended, they are all of it. */
  lemma RingOrderIsMerge(s0: Bus, run: seq<Step>)
    requires Run(s0, run)
    ensures
      var s := After(s0, run);
      && (forall n: nat :: n < |s.ring.log| ==> HasSource(s, n))
      && (forall n: nat, c: nat, i: nat, c': nat, i': nat ::
            ComesFrom(s, n, c, i) && ComesFrom(s, n, c', i') ==> c == c' && i == i')
      && (forall c: nat :: c < |s.conns| && s.conns[c].Pub? ==> OwnOrder(s, c))
  {
    BS.RunKeepsInv(s0, run);
    var s := After(s0, run);
    forall c: nat | c < |s.conns| && s.conns[c].Pub?
      ensures OwnOrder(s, c)
    {
      PubInOwnOrder(s, c);
    }
    forall n: nat | n < |s.ring.log|
      ensures HasSource(s, n)
    {
      var c, i := Source(s, n);
    }
    forall n: nat, c: nat, i: nat, c': nat, i': nat | ComesFrom(s, n, c, i) && ComesFrom(s, n, c', i')
      ensures c == c' && i == i'
    {
      SourceIsUnique(s, n, c, i, c', i');
    }
  }

  // ---- Conservation ----

  function Dropped(fates: seq<Fate>): nat {
    if fates == [] then 0
    else Dropped(Front(fates)) + (if Last(fates).kept then 0 else 1)
  }

  lemma {:induction false} KeptAndDropped(fates: seq<Fate>)
    ensures |Numbers(fates)| == |fates| == |Kept(fates)| + Dropped(fates)
    ensures Dropped(fates) == 0 ==> Kept(fates) == Numbers(fates)
  {
    if fates != [] {
      KeptAndDropped(Front(fates));
    }
  }

  /** The kept numbers are an increasing part of the numbers, and only of them. */
  lemma {:induction false} KeptIsOrderedPart(fates: seq<Fate>)
    requires Increasing(Numbers(fates))
    ensures Increasing(Kept(fates))
    ensures forall n :: n in Kept(fates) ==> n in Numbers(fates)
  {
    if fates != [] {
      var front := Front(fates);
      var ns := Numbers(front);
      assert forall i :: 0 <= i < |ns| ==> Numbers(fates)[i] == ns[i];
      KeptIsOrderedPart(front);
      assert Numbers(fates)[|ns|] == Last(fates).n;
      forall i | 0 <= i < |Kept(front)|
        ensures Kept(front)[i] < Last(fates).n
      {
        assert Kept(front)[i] in ns;
        var j :| 0 <= j < |ns| && ns[j] == Kept(front)[i];
        assert Numbers(fates)[j] < Numbers(fates)[|ns|];
      }
    }
  }

  ghost predicate IsSubscriber(s: Bus, c: nat) {
    c < |s.conns| && s.conns[c].Sub?
  }

  /** Conservation: of the matching messages fanned out while a subscriber was registered, each was
      taken from its queue, is still in the queue, or was dropped; the first two keep log order. */
  lemma Conservation(s0: Bus, run: seq<Step>, c: nat)
    requires Run(s0, run) && IsSubscriber(After(s0, run), c)
    ensures
      var s := After(s0, run);
      var k := s.conns[c];
      && k.joinAt <= k.upTo <= |s.ring.log|
      && |Matching(s.ring.log, k.filter, k.joinAt, k.upTo)| == |k.taken| + |k.inbox| + Dropped(k.fates)
      && Increasing(k.taken + Tags(k.inbox))
      && (forall n :: n in k.taken + Tags(k.inbox) ==> n in Matching(s.ring.log, k.filter, k.joinAt, k.upTo))
      && |k.inbox| <= s.depth
      && (InRegistry(k) ==> k.upTo == Position(s, k.id))
  {
    BS.RunKeepsInv(s0, run);
    var s := After(s0, run);
    var k := s.conns[c];
    assert SubOk(s.ring.log, s.depth, k);
    MatchingWithin(s.ring.log, k.filter, k.joinAt, k.upTo);
    KeptAndDropped(k.fates);
    KeptIsOrderedPart(k.fates);
  }

  /** A fan-out drops a wanted message exactly when the subscriber's queue already holds its full
      depth, and otherwise appends exactly that message's frame; nobody else is affected. */
  lemma DropsOnlyWhenFull(s0: Bus, run: seq<Step>, id: nat)
    requires Run(s0, run) && Enabled(After(s0, run), FanOne(id))
    ensures
      var s := After(s0, run);
      var t := Do(s, FanOne(id));
      var c, n := s.registry[id].conn, s.ring.cursors[0];
      && n < |s.ring.log|
      && BS.FateOf(s.conns[c], t.conns[c], s.ring.log[n], n, s.depth)
      && (forall d :: 0 <= d < |s.conns| && d != c ==> t.conns[d] == s.conns[d])
  {
    BS.RunKeepsInv(s0, run);
    BS.FanOneFate(After(s0, run), id);
  }

  const DEFAULT_QUEUE_DEPTH: nat := 8192

  /** The deployed bus: a subscriber's queue never holds more than 8192 frames, and the dispatch thread
      is never more than 65536 messages behind the publishers. */
  lemma DeployedBounds(s0: Bus, run: seq<Step>, c: nat)
    requires Run(s0, run) && IsSubscriber(After(s0, run), c)
    requires After(s0, run).depth == DEFAULT_QUEUE_DEPTH && After(s0, run).ring.bits == RT.RING_BITS
    ensures
      var s := After(s0, run);
      |s.conns[c].inbox| <= 8192 && s.ring.cursors[0] <= |s.ring.log| <= s.ring.cursors[0] + 65536
  {
    BS.RunKeepsInv(s0, run);
    var s := After(s0, run);
    assert SubOk(s.ring.log, s.depth, s.conns[c]);
    RS.ReachableInv(s.ring);
    assert RS.ClientOk(s.ring, s.ring.clients[0]);
    RT.DeployedSize(0);
  }

  // ---- Order ----

  /** Two subscribers that both got messages `n` and `m` got them in the same order. */
  lemma SameRelativeOrder(s0: Bus, run: seq<Step>, c: nat, d: nat, i: nat, j: nat, i': nat, j': nat)
    requires Run(s0, run) && IsSubscriber(After(s0, run), c) && IsSubscriber(After(s0, run), d)
    requires i < |After(s0, run).conns[c].taken| && j < |After(s0, run).conns[c].taken|
    requires i' < |After(s0, run).conns[d].taken| && j' < |After(s0, run).conns[d].taken|
    requires After(s0, run).conns[c].taken[i] == After(s0, run).conns[d].taken[i']
    requires After(s0, run).conns[c].taken[j] == After(s0, run).conns[d].taken[j']
    ensures i < j <==> i' < j'
  {
    var s := After(s0, run);
    var a, b := s.conns[c], s.conns[d];
    Conservation(s0, run, c);
    Conservation(s0, run, d);
    FrontIncreasing(a.taken, Tags(a.inbox));
    FrontIncreasing(b.taken, Tags(b.inbox));
    SameOrder(a.taken, b.taken, i, j, i', j');
  }

  lemma SameOrder(xs: seq<nat>, ys: seq<nat>, i: nat, j: nat, i': nat, j': nat)
    requires Increasing(xs) && Increasing(ys) && i < |xs| && j < |xs| && i' < |ys| && j' < |ys|
    requires xs[i] == ys[i'] && xs[j] == ys[j']
    ensures i < j <==> i' < j'
  {
  }

  lemma FrontIncreasing(xs: seq<nat>, ys: seq<nat>)
    requires Increasing(xs + ys)
    ensures Increasing(xs)
  {
    assert forall i :: 0 <= i < |xs| ==> xs[i] == (xs + ys)[i];
  }

  // ---- Bytes on the wire ----

  ghost function FramesOf(log: seq<Msg>, ns: seq<nat>): seq<Frame>
    requires AllFit(log) && Within(ns, |log|)
  {
    seq(|ns|, i requires 0 <= i < |ns| => FromMsg(log[ns[i]]))
  }

  lemma {:induction false} WireAllSnoc(fs: seq<Frame>, f: Frame)
    ensures WireAll(fs + [f]) == WireAll(fs) + Wire(f)
  {
    if fs == [] {
      assert [f][1..] == [] && [] + [f] == [f];
    } else {
      WireAllSnoc(fs[1..], f);
      assert (fs + [f])[1..] == fs[1..] + [f];
      Assoc(Wire(fs[0]), WireAll(fs[1..]), Wire(f));
    }
  }

  lemma {:induction false} BytesAreFrames(log: seq<Msg>, ns: seq<nat>)
    requires AllFit(log) && Within(ns, |log|)
    ensures Bytes(log, ns) == WireAll(FramesOf(log, ns)) && AllWellFormed(FramesOf(log, ns))
  {
    if ns != [] {
      var front := Front(ns);
      BytesAreFrames(log, front);
      WireAllSnoc(FramesOf(log, front), FromMsg(log[Last(ns)]));
      assert FramesOf(log, ns) == FramesOf(log, front) + [FromMsg(log[Last(ns)])];
    }
  }

  lemma OutIsPrefix(log: seq<Msg>, depth: nat, k: Conn)
    requires k.Sub? && AllFit(log) && SubOk(log, depth, k)
    ensures k.out <= Bytes(log, k.taken)
  {
  }

  lemma FramesFit(s: seq<u8>)
    ensures |WireAll(Parse(s))| <= |s|
  {
    var rest := ParseSplits(s);
  }

  lemma OneMoreOrNone<T>(a: seq<T>, x: T, b: seq<T>)
    requires a <= b <= a + [x]
    ensures b == a || b == a + [x]
  {
  }

  /** Bytes that hold some frames and only a part of one more parse to the former. */
  lemma ParsePart(fs: seq<Frame>, f: Frame, s: seq<u8>)
    requires AllWellFormed(fs) && WellFormed(f) && WireAll(fs) <= s < WireAll(fs + [f])
    ensures Parse(s) == fs
  {
    ParseWhole(fs);
    ParseMonotone(WireAll(fs), s);
    ParseTruncated(fs + [f], s);
    OneMoreOrNone(fs, f, Parse(s));
    FramesFit(s);
  }

  /** What a reader of the whole output parses: everything that was taken if the subscriber is waiting
      for its queue, and all but the last frame if it is sending or has failed to send. */
  lemma WholeOutput(log: seq<Msg>, k: Conn)
    requires k.Sub? && AllFit(log) && Within(k.taken, |log|) && OutOk(log, k)
    ensures k.sub.Waiting? ==> Parse(k.out) == FramesOf(log, k.taken)
    ensures !k.sub.Waiting? && k.taken != [] ==> Parse(k.out) == FramesOf(log, Front(k.taken))
  {
    BytesAreFrames(log, k.taken);
    ParseWhole(FramesOf(log, k.taken));
    if !k.sub.Waiting? && k.taken != [] {
      PartOfLast(log, k.taken, k.out);
    }
  }

  lemma PartOfLast(log: seq<Msg>, ns: seq<nat>, out: seq<u8>)
    requires AllFit(log) && Within(ns, |log|) && ns != []
    requires Bytes(log, Front(ns)) <= out < Bytes(log, ns)
    ensures Parse(out) == FramesOf(log, Front(ns))
  {
    var front, f := Front(ns), FromMsg(log[Last(ns)]);
    BytesAreFrames(log, front);
    BytesAreFrames(log, ns);
    assert FramesOf(log, ns) == FramesOf(log, front) + [f];
    ParsePart(FramesOf(log, front), f, out);
  }

  /** Whatever part of its connection a subscriber reads, the frames it parses are those of the
      messages taken from its queue, in that order, and nothing else; and from the whole of it, it
      parses all of them, except the one that is being written or could not be written. */
  lemma ParsedIsTaken(s0: Bus, run: seq<Step>, c: nat, t: seq<u8>)
    requires Run(s0, run) && IsSubscriber(After(s0, run), c) && t <= After(s0, run).conns[c].out
    ensures
      var s := After(s0, run);
      var k := s.conns[c];
      && AllFit(s.ring.log) && Within(k.taken, |s.ring.log|)
      && Parse(t) <= FramesOf(s.ring.log, k.taken)
      && (k.sub.Waiting? ==> Parse(k.out) == FramesOf(s.ring.log, k.taken))
      && (!k.sub.Waiting? && k.taken != [] ==> Parse(k.out) == FramesOf(s.ring.log, Front(k.taken)))
  {
    BS.RunKeepsInv(s0, run);
    var s := After(s0, run);
    var k := s.conns[c];
    assert SubOk(s.ring.log, s.depth, k);
    OutIsPrefix(s.ring.log, s.depth, k);
    BytesAreFrames(s.ring.log, k.taken);
    ParseTruncated(FramesOf(s.ring.log, k.taken), t);
    WholeOutput(s.ring.log, k);
  }

  /** Frame `g` is the frame `f` a publisher sent, with the bus's timestamp in place of its own. */
  ghost predicate SameButTime(g: Frame, f: Frame) {
    g.header.channelId == f.header.channelId && g.header.msgType == f.header.msgType && g.payload == f.payload
  }

  /** Frame `f` is frame `i` of what the bus accepts from publisher connection `c`. */
  ghost predicate AcceptedAs(s: Bus, c: nat, i: nat, f: Frame) {
    && c < |s.conns| && s.conns[c].Pub?
    && i < |Accepted(s.conns[c].input)| && f == Accepted(s.conns[c].input)[i]
  }

  /** Some publisher connection of the bus accepted `f` as its frame `i`, published as message `n`. */
  ghost predicate Published(s: Bus, n: nat, f: Frame) {
    exists c: nat, i: nat :: ComesFrom(s, n, c, i) && AcceptedAs(s, c, i, f)
  }

  lemma FromAcceptedFrame(s: Bus, n: nat) returns (f: Frame)
    requires Inv(s) && n < |s.ring.log|
    ensures Published(s, n, f) && SameButTime(FromMsg(s.ring.log[n]), f)
  {
    var c, i := Source(s, n);
    PubInOwnOrder(s, c);
    f := s.conns[c].frames[i];
    assert AcceptedAs(s, c, i, f);
  }

  /** Message `n` as subscriber `k` parses it. */
  ghost predicate Delivered(s: Bus, k: Conn, n: nat, g: Frame)
    requires k.Sub?
  {
    && k.joinAt <= n < k.upTo && n < |s.ring.log| && g.header.timestampNs == s.ring.log[n].timestampNs
    && k.filter.Accepts(g.header.channelId)
    && exists f :: Published(s, n, f) && SameButTime(g, f)
  }

  lemma TakenIsDelivered(s: Bus, k: Conn, n: nat)
    requires Inv(s) && k.Sub? && SubOk(s.ring.log, s.depth, k) && n in k.taken
    ensures n < |s.ring.log| && Delivered(s, k, n, FromMsg(s.ring.log[n]))
  {
    MatchingWithin(s.ring.log, k.filter, k.joinAt, k.upTo);
    KeptIsOrderedPart(k.fates);
    assert n in k.taken + Tags(k.inbox);
    var f := FromAcceptedFrame(s, n);
  }

  lemma AllTakenDelivered(s: Bus, c: nat)
    requires Inv(s) && IsSubscriber(s, c)
    ensures
      var k := s.conns[c];
      && Increasing(k.taken) && Within(k.taken, |s.ring.log|)
      && forall i :: 0 <= i < |k.taken| ==> Delivered(s, k, k.taken[i], FromMsg(s.ring.log[k.taken[i]]))
  {
    var k := s.conns[c];
    assert SubOk(s.ring.log, s.depth, k);
    MatchingWithin(s.ring.log, k.filter, k.joinAt, k.upTo);
    KeptIsOrderedPart(k.fates);
    assert k.taken <= k.taken + Tags(k.inbox);
    forall i | 0 <= i < |k.taken|
      ensures Delivered(s, k, k.taken[i], FromMsg(s.ring.log[k.taken[i]]))
    {
      TakenIsDelivered(s, k, k.taken[i]);
    }
  }

  lemma ParsedDelivered(s: Bus, c: nat, parsed: seq<Frame>) returns (ns: seq<nat>)
    requires Inv(s) && IsSubscriber(s, c) && Within(s.conns[c].taken, |s.ring.log|)
    requires parsed <= FramesOf(s.ring.log, s.conns[c].taken)
    ensures |ns| == |parsed| && Increasing(ns) && ns <= s.conns[c].taken
    ensures forall i :: 0 <= i < |ns| ==> Delivered(s, s.conns[c], ns[i], parsed[i])
  {
    AllTakenDelivered(s, c);
    ns := s.conns[c].taken[..|parsed|];
  }

  /** End to end, from publishers' bytes to a subscriber's parsed frames: for every run, the frames a
      subscriber parses come from distinct published messages in ring order, each on an accepted
      channel, each equal but for the timestamp to a frame the bus accepted from a publisher. */
  lemma EndToEnd(s0: Bus, run: seq<Step>, c: nat, t: seq<u8>) returns (ns: seq<nat>)
    requires Run(s0, run) && IsSubscriber(After(s0, run), c) && t <= After(s0, run).conns[c].out
    ensures |ns| == |Parse(t)| && Increasing(ns) && ns <= After(s0, run).conns[c].taken
    ensures forall i :: 0 <= i < |ns| ==> Delivered(After(s0, run), After(s0, run).conns[c], ns[i], Parse(t)[i])
    ensures IsSub(After(s0, run), c, Waiting) && t == After(s0, run).conns[c].out ==> ns == After(s0, run).conns[c].taken
  {
    BS.RunKeepsInv(s0, run);
    ParsedIsTaken(s0, run, c, t);
    ns := ParsedDelivered(After(s0, run), c, Parse(t));
  }

  /** Two messages of one publisher are in the ring in the order it sent them. */
  lemma PublisherOrderKept(s0: Bus, run: seq<Step>, n: nat, n': nat, c: nat, i: nat, i': nat)
    requires Run(s0, run)
    requires ComesFrom(After(s0, run), n, c, i) && ComesFrom(After(s0, run), n', c, i')
    ensures n < n' <==> i < i'
  {
    BS.RunKeepsInv(s0, run);
    PubFacts(After(s0, run), c);
  }

  /** What each publisher connection's SDK was called with; the bus saw the bytes of these calls up to
      some point. */
  ghost predicate SentBy(s: Bus, sent: seq<seq<P.Call>>) {
    |sent| == |s.conns| &&
    forall c :: 0 <= c < |sent| && s.conns[c].Pub? ==>
      P.AllFitLength(sent[c]) && s.conns[c].input <= WireAll(P.SentAll(sent[c]))
  }

  /** Message `n` comes from a `publish_raw` call, and `g` says what that call said, but for the time. */
  ghost predicate SentAs(s: Bus, sent: seq<seq<P.Call>>, n: nat, g: Frame)
    requires |sent| == |s.conns|
  {
    exists c: nat, i: nat :: ComesFrom(s, n, c, i) && i < |sent[c]| && SaysButTime(g, sent[c][i])
  }

  ghost predicate SaysButTime(g: Frame, call: P.Call) {
    g.header.channelId == call.channelId && g.header.msgType == call.msgType && g.payload == call.payload
  }

  /** Between the two SDKs: a subscriber that asked for `ids` parses only frames that some `publish_raw`
      call sent on one of these channels, with channel, type and payload unchanged. */
  lemma SdkToSdk(s0: Bus, run: seq<Step>, c: nat, t: seq<u8>, ids: seq<u32>, more: seq<u8>,
      sent: seq<seq<P.Call>>)
    returns (ns: seq<nat>)
    requires Run(s0, run) && IsSubscriber(After(s0, run), c) && t <= After(s0, run).conns[c].out
    requires |ids| <= MAX_CHANNELS && After(s0, run).conns[c].input == C.ControlBytes(ids) + more
    requires SentBy(After(s0, run), sent)
    ensures |ns| == |Parse(t)| && Increasing(ns)
    ensures forall i :: 0 <= i < |ns| ==>
      && (ids == [] || Parse(t)[i].header.channelId in ids)
      && SentAs(After(s0, run), sent, ns[i], Parse(t)[i])
  {
    var s := After(s0, run);
    var k := s.conns[c];
    BS.RunKeepsInv(s0, run);
    assert SubOk(s.ring.log, s.depth, k);
    SubscriptionRoundTrip(ids, more);
    ns := EndToEnd(s0, run, c, t);
    forall i | 0 <= i < |ns|
      ensures ids == [] || Parse(t)[i].header.channelId in ids
      ensures SentAs(s, sent, ns[i], Parse(t)[i])
    {
      assert Delivered(s, k, ns[i], Parse(t)[i]);
      PublishedWasSent(s, sent, ns[i], Parse(t)[i]);
    }
  }

  lemma PublishedWasSent(s: Bus, sent: seq<seq<P.Call>>, n: nat, g: Frame)
    requires SentBy(s, sent)
    requires exists f :: Published(s, n, f) && SameButTime(g, f)
    ensures SentAs(s, sent, n, g)
  {
    var f :| Published(s, n, f) && SameButTime(g, f);
    var c: nat, i: nat :| ComesFrom(s, n, c, i) && AcceptedAs(s, c, i, f);
    P.CallsParseBack(sent[c]);
    AcceptedFromSender(P.SentAll(sent[c]), s.conns[c].input);
    ParseWhole(P.SentAll(sent[c]));
    assert P.Says(f, sent[c][i]);
  }

  // ---- Registry lifecycle ----

  /** Ids are never shared, every registered entry's receiver is alive, and while a subscriber waits
      for its queue the queue's sender is in the registry. */
  lemma RegistryIsSound(s0: Bus, run: seq<Step>)
    requires Run(s0, run)
    ensures
      var s := After(s0, run);
      && (forall c: nat, d: nat :: IsSubscriber(s, c) && IsSubscriber(s, d) && c != d ==>
            s.conns[c].id != s.conns[d].id)
      && (forall id :: id in s.registry ==> ReceiverAlive(s, id))
      && (forall c: nat :: IsSub(s, c, Waiting) ==> HasSender(s, c))
  {
    BS.RunKeepsInv(s0, run);
    RegistrySoundness(After(s0, run));
  }

  ghost predicate ReceiverAlive(s: Bus, id: nat)
    requires id in s.registry
  {
    var c := s.registry[id].conn;
    IsSubscriber(s, c) && s.conns[c].id == id && !IsRemoved(s, c)
  }

  ghost predicate IsRemoved(s: Bus, c: nat) {
    IsSubscriber(s, c) && (s.conns[c].sub.Left? || s.conns[c].sub.Gone?)
  }

  lemma RegistrySoundness(s: Bus)
    requires RegistryOk(s)
    ensures forall c: nat, d: nat :: IsSubscriber(s, c) && IsSubscriber(s, d) && c != d ==>
              s.conns[c].id != s.conns[d].id
    ensures forall id :: id in s.registry ==> ReceiverAlive(s, id)
    ensures forall c: nat :: IsSub(s, c, Waiting) ==> HasSender(s, c)
  {
    forall c: nat, d: nat | IsSubscriber(s, c) && IsSubscriber(s, d) && c != d
      ensures s.conns[c].id != s.conns[d].id
    {
      var lo, hi := if c < d then c else d, if c < d then d else c;
      assert s.conns[lo].id != s.conns[hi].id;
    }
    forall c: nat | IsSub(s, c, Waiting)
      ensures HasSender(s, c)
    {
      assert InRegistry(s.conns[c]);
      var id := s.conns[c].id;
      assert id in s.registry && s.registry[id].conn == c;
    }
  }

  /** A removed subscriber's queue and output are as they were. */
  ghost predicate LeftAlone(s: Bus, t: Bus, c: nat)
    requires IsRemoved(s, c)
  {
    && IsRemoved(t, c)
    && t.conns[c].inbox == s.conns[c].inbox && t.conns[c].fates == s.conns[c].fates
    && t.conns[c].taken == s.conns[c].taken && t.conns[c].out == s.conns[c].out
  }

  lemma LeftAloneByFanOut(s: Bus, a: Step, c: nat)
    requires Shape(s) && RegistryOk(s) && Enabled(s, a) && IsRemoved(s, c)
    requires ByFanOut(a)
    ensures LeftAlone(s, DoDispatch(s, a), c)
  {
    if a.FanOne? {
      assert InRegistry(s.conns[s.registry[a.id].conn]);
    }
  }

  lemma LeftAloneByPublisher(s: Bus, a: Step, c: nat)
    requires Shape(s) && Enabled(s, a) && IsRemoved(s, c)
    requires ByPublisher(a)
    ensures LeftAlone(s, DoPublisher(s, a), c)
  {
  }

  lemma LeftAloneBySubscriber(s: Bus, a: Step, c: nat)
    requires Shape(s) && Enabled(s, a) && IsRemoved(s, c)
    requires BySubscriber(a)
    ensures LeftAlone(s, DoSubscriber(s, a), c)
  {
  }

  lemma LeftAloneByOther(s: Bus, a: Step, c: nat)
    requires Shape(s) && Enabled(s, a) && IsRemoved(s, c)
    requires a.Ring? || a.Accept? || a.ReadHello?
    ensures LeftAlone(s, DoOther(s, a), c)
  {
  }

  lemma LeftAloneByAll(s: Bus, a: Step, c: nat)
    requires Shape(s) && RegistryOk(s) && Enabled(s, a) && IsRemoved(s, c)
    ensures LeftAlone(s, Do(s, a), c)
  {
    if ByFanOut(a) {
      LeftAloneByFanOut(s, a, c);
    } else if ByPublisher(a) {
      LeftAloneByPublisher(s, a, c);
    } else if a.Ring? || a.Accept? || a.ReadHello? {
      LeftAloneByOther(s, a, c);
    } else {
      LeftAloneBySubscriber(s, a, c);
    }
  }

  /** Once removed, a subscriber stays removed and is never sent to again. */
  lemma RemovedIsLeftAlone(s0: Bus, run: seq<Step>, a: Step, c: nat)
    requires Run(s0, run) && Enabled(After(s0, run), a) && IsRemoved(After(s0, run), c)
    ensures LeftAlone(After(s0, run), Do(After(s0, run), a), c)
  {
    BS.RunKeepsInv(s0, run);
    LeftAloneByAll(After(s0, run), a, c);
  }
}
