/** What every step of the bus keeps. */
module BusInvariant {
  import opened Words
  import opened Slots
  import opened Sequences
  import opened Framing
  import opened Handshake
  import opened Options
  import opened BusProtocol
  import R = RingProtocol
  import RS = RingSafety

  // ---- Histories ----

  /** The messages numbered `lo` up to `hi` that a filter accepts, in order. */
  ghost function Matching(log: seq<Msg>, filter: Filter, lo: nat, hi: nat): seq<nat>
    requires hi <= |log|
    decreases hi
  {
    if hi <= lo then []
    else Matching(log, filter, lo, hi - 1) + (if filter.Accepts(log[hi - 1].channelId) then [hi - 1] else [])
  }

  function Numbers(fates: seq<Fate>): seq<nat> {
    if fates == [] then [] else Numbers(Front(fates)) + [Last(fates).n]
  }

  /** The numbers of the messages that were queued rather than dropped. */
  function Kept(fates: seq<Fate>): seq<nat> {
    if fates == [] then []
    else Kept(Front(fates)) + (if Last(fates).kept then [Last(fates).n] else [])
  }

  function Tags(items: seq<Item>): seq<nat> {
    seq(|items|, i requires 0 <= i < |items| => items[i].n)
  }

  /** The frame bytes of the messages with these numbers, one after the other. */
  ghost function Bytes(log: seq<Msg>, ns: seq<nat>): seq<u8>
    requires AllFit(log) && Within(ns, |log|)
  {
    if ns == [] then [] else Bytes(log, Front(ns)) + Wire(FromMsg(log[Last(ns)]))
  }

  ghost predicate AllFit(log: seq<Msg>) {
    forall n :: 0 <= n < |log| ==> Fits(log[n])
  }

  ghost predicate Within(ns: seq<nat>, bound: nat) {
    forall i :: 0 <= i < |ns| ==> ns[i] < bound
  }

  ghost predicate Increasing(ns: seq<nat>) {
    forall i, j :: 0 <= i < j < |ns| ==> ns[i] < ns[j]
  }

  lemma {:induction false} MatchingFrame(log: seq<Msg>, log': seq<Msg>, filter: Filter, lo: nat, hi: nat)
    requires log <= log' && hi <= |log|
    ensures Matching(log', filter, lo, hi) == Matching(log, filter, lo, hi)
    decreases hi
  {
    if hi > lo {
      MatchingFrame(log, log', filter, lo, hi - 1);
    }
  }

  lemma {:induction false} MatchingWithin(log: seq<Msg>, filter: Filter, lo: nat, hi: nat)
    requires hi <= |log|
    ensures Increasing(Matching(log, filter, lo, hi)) && Within(Matching(log, filter, lo, hi), hi)
    ensures forall n :: n in Matching(log, filter, lo, hi) <==> lo <= n < hi && filter.Accepts(log[n].channelId)
    decreases hi
  {
    if hi > lo {
      MatchingWithin(log, filter, lo, hi - 1);
    }
  }

  lemma {:induction false} BytesFrame(log: seq<Msg>, log': seq<Msg>, ns: seq<nat>)
    requires log <= log' && AllFit(log') && Within(ns, |log|)
    ensures AllFit(log) && Bytes(log', ns) == Bytes(log, ns)
  {
    if ns != [] {
      BytesFrame(log, log', Front(ns));
    }
  }

  // ---- Publishers ----

  /** A message carries a frame: everything but the timestamp, which the bus replaces. */
  ghost predicate Carries(m: Msg, f: Frame) {
    m.channelId == f.header.channelId && m.msgType == f.header.msgType && m.payload == f.payload
  }

  /** Publisher `c` has read the accepted frames of its input in order, and its published frames are
      at increasing places in the log that belong to it. */
  ghost predicate PubOk(log: seq<Msg>, origin: seq<nat>, c: nat, k: Conn)
    requires k.Pub?
  {
    && Greet(k.input).Publish?
    && Accepted(k.input) == k.frames + (if k.pub.Ended? then [] else Accepted(k.rest))
    && |k.frames| == |k.at| + (if k.pub.WantLock? then 1 else if k.pub.InPublish? && |k.frames| > |k.at| then 1 else 0)
    && Increasing(k.at)
    && (forall i :: 0 <= i < |k.at| ==>
          k.at[i] < |log| && k.at[i] < |origin| && origin[k.at[i]] == c && Carries(log[k.at[i]], k.frames[i]))
  }

  // ---- Subscribers ----

  ghost predicate InRegistry(k: Conn) {
    k.Sub? && (k.sub.Waiting? || k.sub.Sending? || k.sub.Leaving?)
  }

  /** The bytes written: whole frames of what was taken, and when sending failed a part of the last. */
  ghost predicate OutOk(log: seq<Msg>, k: Conn)
    requires k.Sub? && AllFit(log) && Within(k.taken, |log|)
  {
    match k.sub
    case Joining => k.taken == [] && k.out == []
    case Waiting => k.out == Bytes(log, k.taken)
    case Sending(item) =>
      && k.taken != [] && item.n == Last(k.taken) && item.bytes == Wire(FromMsg(log[item.n]))
      && k.out == Bytes(log, Front(k.taken))
    case _ => k.taken != [] && Bytes(log, Front(k.taken)) <= k.out < Bytes(log, k.taken)
  }

  ghost predicate SubOk(log: seq<Msg>, depth: nat, k: Conn)
    requires k.Sub? && AllFit(log)
  {
    && Greet(k.input) == Subscribe(k.filter)
    && k.joinAt <= k.upTo <= |log|
    && Numbers(k.fates) == Matching(log, k.filter, k.joinAt, k.upTo)
    && k.taken + Tags(k.inbox) == Kept(k.fates)
    && Within(k.taken, |log|)
    && |k.inbox| <= depth
    && (forall i :: 0 <= i < |k.inbox| ==>
          k.inbox[i].n < |log| && k.inbox[i].bytes == Wire(FromMsg(log[k.inbox[i].n])))
    && (k.sub.Joining? ==> k.fates == [])
    && OutOk(log, k)
  }

  ghost predicate ConnOk(log: seq<Msg>, origin: seq<nat>, depth: nat, c: nat, k: Conn)
    requires AllFit(log)
  {
    (k.Pub? ==> PubOk(log, origin, c, k)) && (k.Sub? ==> SubOk(log, depth, k))
  }

  lemma ConnFrame(log: seq<Msg>, log': seq<Msg>, origin: seq<nat>, origin': seq<nat>, depth: nat, c: nat, k: Conn)
    requires AllFit(log) && AllFit(log') && log <= log' && origin <= origin'
    requires ConnOk(log, origin, depth, c, k)
    ensures ConnOk(log', origin', depth, c, k)
  {
    if k.Sub? {
      MatchingFrame(log, log', k.filter, k.joinAt, k.upTo);
      BytesFrame(log, log', k.taken);
      if k.taken != [] {
        BytesFrame(log, log', Front(k.taken));
      }
    }
  }

  // ---- The whole bus ----

  /** How far the fan-outs have come for the subscriber with this id. */
  ghost function Position(s: Bus, id: nat): nat
    requires Shape(s)
  {
    s.ring.cursors[0] + (if s.disp.Fanned? || (s.disp.Fan? && id !in s.disp.todo) then 1 else 0)
  }

  /** The bus drives its ring through a run of the ring protocol, with one consumer that starts at the
      first message; while its callback runs, the dispatch thread has that message complete. */
  ghost predicate RingOk(s: Bus)
    requires Shape(s)
  {
    && RS.Reachable(s.ring)
    && AllFit(s.ring.log)
    && (forall i: nat :: RS.Live(s.ring, i) ==> i == 0)
    && s.ring.clients[0].start == 0
    && s.ring.cursors[0] <= |s.ring.log|
    && (DispatchPhase(s).Delivered? ==>
          s.ring.cursors[0] < |s.ring.log| && DispatchPhase(s).image == Image(s.ring.log[s.ring.cursors[0]]))
    && (s.disp.Fan? ==>
          DispatchPhase(s).Delivered? && s.disp.msg == s.ring.log[s.ring.cursors[0]]
          && s.disp.todo <= s.registry.Keys)
    && (s.disp.Fanned? ==> DispatchPhase(s).Delivered?)
  }

  ghost predicate LockOk(s: Bus) {
    && (s.lock.None? ==> s.ring.prod.Idle?)
    && (s.lock.Some? ==>
          var c := s.lock.value;
          && IsPub(s, c, InPublish)
          && var k := s.conns[c];
             match s.ring.prod
             case Idle => false
             case Scanning(m, _, _, _) => |k.frames| > |k.at| && Carries(m, Last(k.frames))
             case Writing(m, _, _) => |k.frames| > |k.at| && Carries(m, Last(k.frames))
             case Stamped(_) => |k.frames| == |k.at|)
    && (forall c: nat :: IsPub(s, c, InPublish) ==> s.lock == Some(c))
  }

  ghost predicate OriginOk(s: Bus) {
    && |s.origin| == |s.ring.log|
    && (forall n :: 0 <= n < |s.origin| ==>
          s.origin[n] < |s.conns| && s.conns[s.origin[n]].Pub? && n in s.conns[s.origin[n]].at)
  }

  ghost predicate RegistryOk(s: Bus) {
    && (forall id :: id in s.registry ==>
          var e := s.registry[id];
          && e.conn < |s.conns| && InRegistry(s.conns[e.conn])
          && s.conns[e.conn].id == id && s.conns[e.conn].filter == e.filter)
    && (forall c :: 0 <= c < |s.conns| && InRegistry(s.conns[c]) ==>
          s.conns[c].id in s.registry && s.registry[s.conns[c].id].conn == c)
    && (forall c :: 0 <= c < |s.conns| && s.conns[c].Sub? ==> s.conns[c].id < s.nextId)
    && (forall c, d :: 0 <= c < d < |s.conns| && s.conns[c].Sub? && s.conns[d].Sub? ==>
          s.conns[c].id != s.conns[d].id)
  }

  ghost predicate PositionsOk(s: Bus)
    requires Shape(s)
  {
    forall c :: 0 <= c < |s.conns| && InRegistry(s.conns[c]) ==>
      s.conns[c].upTo == Position(s, s.conns[c].id)
  }

  ghost predicate ConnsOk(s: Bus)
    requires AllFit(s.ring.log)
  {
    forall c :: 0 <= c < |s.conns| ==> ConnOk(s.ring.log, s.origin, s.depth, c, s.conns[c])
  }

  ghost predicate Inv(s: Bus) {
    && Shape(s) && RingOk(s) && LockOk(s) && OriginOk(s) && RegistryOk(s) && PositionsOk(s) && ConnsOk(s)
  }

  lemma RegisteredOk(ring: R.State)
    requires R.Init(ring) && |ring.clients| == 1
    ensures
      var t := RegisterDispatcher(ring);
      && RS.Reachable(t) && t.log == [] && t.prod.Idle?
      && t.clients == [R.Holding(0, 0, [], R.Ready)]
      && t.cursors[0] == 0
      && forall i: nat :: RS.Live(t, i) ==> i == 0
  {
    RS.ReachInit(ring);
    RS.ReachStep(ring, R.RegisterLoad(0));
    RS.ReachStep(R.Do(ring, R.RegisterLoad(0)), R.RegisterCas(0));
  }

  lemma InitOk(s: Bus)
    requires Init(s)
    ensures Inv(s)
  {
    var ring :| R.Init(ring) && |ring.clients| == 1 && s.ring == RegisterDispatcher(ring);
    RegisteredOk(ring);
  }

  /** What the ring's own invariant says about the bus. */
  lemma RingFacts(s: Bus)
    requires Shape(s) && RS.Reachable(s.ring)
    ensures RS.Inv(s.ring)
    ensures AllFit(s.ring.log) && (s.ring.cursors[0] <= |s.ring.log|)
    ensures DispatchPhase(s).Delivered? ==>
              s.ring.cursors[0] < |s.ring.log| && DispatchPhase(s).image == Image(s.ring.log[s.ring.cursors[0]])
  {
    RS.ReachableInv(s.ring);
    assert RS.ClientOk(s.ring, s.ring.clients[0]);
  }
}
