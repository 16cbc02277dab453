/** Every step of the bus keeps its invariant. */
module BusSafety {
  import opened Words
  import opened Slots
  import opened Sequences
  import opened Framing
  import opened Options
  import opened BusProtocol
  import opened BusInvariant
  import R = RingProtocol
  import RS = RingSafety

  // ---- Frames: each part of the invariant survives a change of one connection ----

  /** Only connection `c` differs. */
  ghost predicate OneConn(s: Bus, t: Bus, c: nat) {
    c < |s.conns| == |t.conns| && t.conns == s.conns[c := t.conns[c]]
  }

  /** A subscriber keeps its identity and its registration, and nobody becomes one. */
  ghost predicate SameRole(k: Conn, k': Conn) {
    && (k.Sub? <==> k'.Sub?)
    && (k.Sub? ==> k.id == k'.id && k.filter == k'.filter && (InRegistry(k) <==> InRegistry(k')))
  }

  ghost predicate InPublishing(k: Conn) {
    k.Pub? && k.pub.InPublish?
  }

  lemma OriginFrame(s: Bus, t: Bus, c: nat)
    requires OriginOk(s) && OneConn(s, t, c)
    requires s.conns[c].Pub? ==> t.conns[c].Pub? && t.conns[c].at == s.conns[c].at
    requires t.origin == s.origin && t.ring.log == s.ring.log
    ensures OriginOk(t)
  {
  }

  lemma RegistryFrame(s: Bus, t: Bus, c: nat)
    requires RegistryOk(s) && OneConn(s, t, c) && SameRole(s.conns[c], t.conns[c])
    requires t.registry == s.registry && t.nextId == s.nextId
    ensures RegistryOk(t)
  {
  }

  lemma LockFrame(s: Bus, t: Bus, c: nat)
    requires LockOk(s) && OneConn(s, t, c) && !InPublishing(s.conns[c]) && !InPublishing(t.conns[c])
    requires t.lock == s.lock && t.ring.prod == s.ring.prod
    ensures LockOk(t)
  {
    assert forall d: nat :: IsPub(t, d, InPublish) <==> IsPub(s, d, InPublish);
  }

  lemma PositionsFrame(s: Bus, t: Bus, c: nat)
    requires Shape(s) && Shape(t) && PositionsOk(s) && OneConn(s, t, c)
    requires InRegistry(t.conns[c]) ==>
      InRegistry(s.conns[c]) && t.conns[c].id == s.conns[c].id && t.conns[c].upTo == s.conns[c].upTo
    requires t.ring.cursors == s.ring.cursors && t.disp == s.disp
    ensures PositionsOk(t)
  {
  }

  lemma ConnsFrame(s: Bus, t: Bus, c: nat)
    requires AllFit(s.ring.log) && AllFit(t.ring.log) && ConnsOk(s) && OneConn(s, t, c)
    requires s.ring.log <= t.ring.log && s.origin <= t.origin && t.depth == s.depth
    requires ConnOk(t.ring.log, t.origin, t.depth, c, t.conns[c])
    ensures ConnsOk(t)
  {
    forall d | 0 <= d < |t.conns| && d != c
      ensures ConnOk(t.ring.log, t.origin, t.depth, d, t.conns[d])
    {
      ConnFrame(s.ring.log, t.ring.log, s.origin, t.origin, s.depth, d, s.conns[d]);
    }
  }

  lemma RingFrame(s: Bus, t: Bus)
    requires Shape(s) && Shape(t) && RingOk(s) && RS.Reachable(t.ring)
    requires t.ring.log == s.ring.log && t.ring.cursors == s.ring.cursors && t.ring.clients == s.ring.clients
    requires t.disp == s.disp && (t.disp.Fan? ==> s.registry.Keys <= t.registry.Keys)
    ensures RingOk(t)
  {
    assert forall i: nat :: RS.Live(t.ring, i) <==> RS.Live(s.ring, i);
  }

  // ---- Steps inside the ring ----

  lemma InternalEffect(r: R.State, a: R.Step)
    requires R.Shape(r) && |r.clients| == 1 && r.clients[0].Holding?
    requires Internal(a) && R.Enabled(r, a)
    ensures
      var t := R.Do(r, a);
      && t.log == r.log && t.cursors == r.cursors
      && |t.clients| == 1 && t.clients[0].Holding? && t.clients[0].start == r.clients[0].start
      && (r.clients[0].phase.Delivered? ==> t.clients == r.clients)
      && (r.prod.Idle? <==> t.prod.Idle?) && (r.prod.Scanning? <==> t.prod.Scanning?)
      && (r.prod.Writing? <==> t.prod.Writing?) && (r.prod.Stamped? <==> t.prod.Stamped?)
      && (r.prod.Scanning? || r.prod.Writing? ==> t.prod.msg == r.prod.msg)
  {
  }

  lemma InternalKeepsRing(s: Bus, t: Bus, a: R.Step)
    requires Shape(s) && Shape(t) && RingOk(s) && Internal(a) && R.Enabled(s.ring, a)
    requires t.ring == R.Do(s.ring, a) && t.disp == s.disp && t.registry == s.registry
    ensures RingOk(t)
  {
    InternalEffect(s.ring, a);
    RS.ReachStep(s.ring, a);
    RingFacts(t);
    assert forall i: nat :: RS.Live(t.ring, i) <==> RS.Live(s.ring, i);
  }

  lemma InternalKeepsLock(s: Bus, t: Bus, a: R.Step)
    requires Shape(s) && LockOk(s) && Internal(a) && R.Enabled(s.ring, a)
    requires t.ring == R.Do(s.ring, a) && t.lock == s.lock && t.conns == s.conns
    ensures LockOk(t)
  {
    InternalEffect(s.ring, a);
    assert forall d: nat :: IsPub(t, d, InPublish) <==> IsPub(s, d, InPublish);
  }

  /** The connections do not notice a step that changes neither them nor the log nor the positions. */
  lemma NoConnFrame(s: Bus, t: Bus)
    requires Shape(s) && Shape(t) && AllFit(s.ring.log)
    requires OriginOk(s) && RegistryOk(s) && PositionsOk(s) && ConnsOk(s)
    requires t.conns == s.conns && t.origin == s.origin && t.registry == s.registry
    requires t.nextId == s.nextId && t.depth == s.depth && t.ring.log == s.ring.log
    requires forall id: nat :: id in s.registry ==> Position(t, id) == Position(s, id)
    ensures OriginOk(t) && RegistryOk(t) && PositionsOk(t) && ConnsOk(t)
  {
  }

  lemma RingStepKeepsInv(s: Bus, a: R.Step)
    requires Inv(s) && Enabled(s, Ring(a))
    ensures Inv(DoOther(s, Ring(a)))
  {
    var t := DoOther(s, Ring(a));
    InternalKeepsRing(s, t, a);
    InternalKeepsLock(s, t, a);
    InternalEffect(s.ring, a);
    NoConnFrame(s, t);
  }

  // ---- Connections ----

  lemma AcceptKeepsLock(s: Bus, t: Bus)
    requires LockOk(s) && |s.conns| < |t.conns| && s.conns <= t.conns && t.ring == s.ring && t.lock == s.lock
    requires forall d :: |s.conns| <= d < |t.conns| ==> t.conns[d].Fresh?
    ensures LockOk(t)
  {
    assert forall c: nat :: IsPub(t, c, InPublish) <==> IsPub(s, c, InPublish);
  }

  lemma FreshConnByRegistry(s: Bus, t: Bus, input: seq<u8>)
    requires OriginOk(s) && RegistryOk(s)
    requires t.conns == s.conns + [Fresh(input)] && t.origin == s.origin && t.ring.log == s.ring.log
    requires t.registry == s.registry && t.nextId == s.nextId
    ensures OriginOk(t) && RegistryOk(t)
  {
  }

  lemma FreshConnByConns(s: Bus, t: Bus, input: seq<u8>)
    requires Shape(s) && Shape(t) && AllFit(s.ring.log) && PositionsOk(s) && ConnsOk(s)
    requires t.conns == s.conns + [Fresh(input)] && t.origin == s.origin
    requires t.depth == s.depth && t.ring == s.ring && t.disp == s.disp
    ensures PositionsOk(t) && ConnsOk(t)
  {
  }

  lemma AcceptKeepsInv(s: Bus, input: seq<u8>)
    requires Inv(s)
    ensures Inv(DoOther(s, Accept(input)))
  {
    var t := DoOther(s, Accept(input));
    AcceptKeepsLock(s, t);
    RingFrame(s, t);
    FreshConnByRegistry(s, t, input);
    FreshConnByConns(s, t, input);
  }

  lemma ConnStepKeepsInv(s: Bus, t: Bus, c: nat)
    requires Inv(s) && Shape(t) && OneConn(s, t, c) && SameRole(s.conns[c], t.conns[c])
    requires t == SetConn(s, c, t.conns[c])
    requires s.conns[c].Pub? ==> t.conns[c].Pub? && t.conns[c].at == s.conns[c].at
    requires !InPublishing(s.conns[c]) && !InPublishing(t.conns[c])
    requires s.conns[c].Sub? ==> t.conns[c].upTo == s.conns[c].upTo
    requires ConnOk(s.ring.log, s.origin, s.depth, c, t.conns[c])
    ensures Inv(t)
  {
    OriginFrame(s, t, c);
    RegistryFrame(s, t, c);
    LockFrame(s, t, c);
    PositionsFrame(s, t, c);
    ConnsFrame(s, t, c);
    RingFrame(s, t);
  }

  lemma NewIdKeepsRegistry(s: Bus, t: Bus, c: nat)
    requires RegistryOk(s) && OneConn(s, t, c) && s.conns[c].Fresh?
    requires t.conns[c].Sub? && t.conns[c].id == s.nextId && t.conns[c].sub.Joining?
    requires t.registry == s.registry && t.nextId == s.nextId + 1
    ensures RegistryOk(t)
  {
  }

  /** Connection `c` says hello. */
  lemma GreetedOk(log: seq<Msg>, origin: seq<nat>, depth: nat, c: nat, input: seq<u8>, nextId: nat)
    requires AllFit(log)
    ensures ConnOk(log, origin, depth, c, Greeted(input, nextId))
  {
  }

  lemma HelloKeepsInv(s: Bus, c: nat)
    requires Inv(s) && Enabled(s, ReadHello(c))
    ensures Inv(DoOther(s, ReadHello(c)))
  {
    var t := DoOther(s, ReadHello(c));
    var k := Greeted(s.conns[c].input, s.nextId);
    GreetedOk(s.ring.log, s.origin, s.depth, c, s.conns[c].input, s.nextId);
    if k.Sub? {
      NewIdKeepsRegistry(s, t, c);
      OriginFrame(s, t, c);
      PositionsFrame(s, t, c);
      LockFrame(s, t, c);
      ConnsFrame(s, t, c);
      RingFrame(s, t);
    } else {
      ConnStepKeepsInv(s, t, c);
    }
  }

  lemma ReadFrameKeepsInv(s: Bus, c: nat)
    requires Inv(s) && Enabled(s, ReadFrame(c))
    ensures Inv(DoPublisher(s, ReadFrame(c)))
  {
    var t := DoPublisher(s, ReadFrame(c));
    var k := s.conns[c];
    assert PubOk(s.ring.log, s.origin, c, k);
    if TakeAccepted(k.rest).Some? {
      var (f, rest) := TakeAccepted(k.rest).value;
      Assoc(k.frames, [f], Accepted(rest));
    }
    ConnStepKeepsInv(s, t, c);
  }

  // ---- Publishing ----

  /** Publisher `c` takes or releases the lock; the others do not have it. */
  lemma LockMoves(s: Bus, t: Bus, c: nat)
    requires LockOk(s) && OneConn(s, t, c) && s.conns[c].Pub? && t.conns[c].Pub?
    requires s.lock == None || s.lock == Some(c)
    requires if t.lock == Some(c) then t.conns[c].pub.InPublish? else t.lock == None && !t.conns[c].pub.InPublish?
    requires t.lock.None? <==> t.ring.prod.Idle?
    requires t.lock.Some? ==>
      var k := t.conns[c];
      match t.ring.prod
      case Stamped(_) => |k.frames| == |k.at|
      case Idle => false
      case _ => |k.frames| > |k.at| && Carries(t.ring.prod.msg, Last(k.frames))
    ensures LockOk(t)
  {
    assert forall d: nat :: d != c ==> (IsPub(t, d, InPublish) <==> IsPub(s, d, InPublish));
  }

  lemma BeginPublishKeepsInv(s: Bus, c: nat, now: u64)
    requires Inv(s) && Enabled(s, BeginPublish(c, now))
    ensures Inv(DoPublisher(s, BeginPublish(c, now)))
  {
    var t := DoPublisher(s, BeginPublish(c, now));
    RS.ReachStep(s.ring, R.LoadHead(ToMsg(Last(s.conns[c].frames), now)));
    assert PubOk(s.ring.log, s.origin, c, s.conns[c]);
    LockMoves(s, t, c);
    OriginFrame(s, t, c);
    RegistryFrame(s, t, c);
    PositionsFrame(s, t, c);
    ConnsFrame(s, t, c);
    RingFrame(s, t);
  }

  lemma DecideEffect(s: Bus, c: nat) returns (t: Bus)
    requires Shape(s) && LockOk(s) && RS.Reachable(s.ring) && Enabled(s, Decide(c))
    ensures t == DoPublisher(s, Decide(c)) && Shape(t) && OneConn(s, t, c) && RS.Reachable(t.ring)
    ensures t.ring == s.ring.(prod := t.ring.prod) && t.origin == s.origin && t.depth == s.depth
    ensures t.disp == s.disp && t.registry == s.registry && t.nextId == s.nextId
    ensures |s.conns[c].frames| > |s.conns[c].at|
    ensures if R.Refuses(s.ring.prod.sq, s.ring.prod.min, s.ring.bits)
            then t.lock.None? && t.ring.prod.Idle? && t.conns == s.conns[c := s.conns[c].(pub := WantLock)]
            else t.lock == s.lock == Some(c) && t.conns == s.conns
                 && t.ring.prod.Writing? && t.ring.prod.msg == s.ring.prod.msg
  {
    RS.ReachStep(s.ring, R.Decide);
    t := DoPublisher(s, Decide(c));
  }

  lemma DecideKeepsInv(s: Bus, c: nat)
    requires Inv(s) && Enabled(s, Decide(c))
    ensures
      var t := DoPublisher(s, Decide(c));
      && Inv(t) && t.ring.log == s.ring.log && |s.conns[c].frames| > |s.conns[c].at|
      && if R.Refuses(s.ring.prod.sq, s.ring.prod.min, s.ring.bits)
         then t.lock.None? && t.ring.prod.Idle? && t.conns == s.conns[c := s.conns[c].(pub := WantLock)]
         else t.lock == Some(c) && t.ring.prod.Writing? && t.conns == s.conns
  {
    var t := DecideEffect(s, c);
    assert PubOk(s.ring.log, s.origin, c, s.conns[c]);
    LockMoves(s, t, c);
    OriginFrame(s, t, c);
    RegistryFrame(s, t, c);
    PositionsFrame(s, t, c);
    ConnsFrame(s, t, c);
    RingFrame(s, t);
  }

  lemma StoreHeadKeepsInv(s: Bus, c: nat)
    requires Inv(s) && Enabled(s, StoreHead(c))
    ensures Inv(DoPublisher(s, StoreHead(c)))
  {
    var t := DoPublisher(s, StoreHead(c));
    RS.ReachStep(s.ring, R.StoreHead);
    assert PubOk(s.ring.log, s.origin, c, s.conns[c]);
    LockMoves(s, t, c);
    OriginFrame(s, t, c);
    RegistryFrame(s, t, c);
    PositionsFrame(s, t, c);
    ConnsFrame(s, t, c);
    RingFrame(s, t);
  }

  /** The stamp store makes the publisher's oldest unpublished frame the next entry of the log. */
  lemma StampKeepsPub(log: seq<Msg>, origin: seq<nat>, c: nat, k: Conn, m: Msg)
    requires k.Pub? && PubOk(log, origin, c, k) && |log| == |origin|
    requires k.pub.InPublish? && |k.frames| > |k.at| && Carries(m, Last(k.frames))
    ensures PubOk(log + [m], origin + [c], c, k.(at := k.at + [|log|]))
  {
    var log', origin', at := log + [m], origin + [c], k.at + [|log|];
    forall i | 0 <= i < |at|
      ensures at[i] < |log'| && origin'[at[i]] == c && Carries(log'[at[i]], k.frames[i])
      ensures forall j :: 0 <= j < i ==> at[j] < at[i]
    {
      assert i < |k.at| ==> at[i] == k.at[i];
    }
  }

  lemma StampKeepsOrigin(s: Bus, t: Bus, c: nat, m: Msg)
    requires OriginOk(s) && OneConn(s, t, c) && s.conns[c].Pub? && t.conns[c].Pub?
    requires t.conns[c].at == s.conns[c].at + [|s.ring.log|]
    requires t.ring.log == s.ring.log + [m] && t.origin == s.origin + [c]
    ensures OriginOk(t)
  {
    forall n | 0 <= n < |t.origin|
      ensures t.origin[n] < |t.conns| && t.conns[t.origin[n]].Pub? && n in t.conns[t.origin[n]].at
    {
      if n == |s.origin| {
        assert t.conns[c].at[|s.conns[c].at|] == n;
      } else if s.origin[n] == c {
        var i :| 0 <= i < |s.conns[c].at| && s.conns[c].at[i] == n;
        assert t.conns[c].at[i] == n;
      }
    }
  }

  lemma StampKeepsRing(s: Bus, t: Bus)
    requires Shape(s) && Shape(t) && RingOk(s) && R.Enabled(s.ring, R.StoreStamp)
    requires t.ring == R.Do(s.ring, R.StoreStamp) && t.disp == s.disp && t.registry == s.registry
    ensures RingOk(t) && t.ring.log == s.ring.log + [s.ring.prod.msg]
  {
    RS.ReachStep(s.ring, R.StoreStamp);
    RingFacts(t);
    assert forall i: nat :: RS.Live(t.ring, i) <==> RS.Live(s.ring, i);
  }

  lemma StampKeepsLock(s: Bus, t: Bus, c: nat)
    requires LockOk(s) && OneConn(s, t, c) && IsPub(s, c, InPublish) && s.lock == Some(c) && t.lock == s.lock
    requires |s.conns[c].frames| <= |s.conns[c].at| + 1
    requires s.ring.prod.Writing? && t.ring.prod.Stamped?
    requires t.conns[c] == s.conns[c].(at := s.conns[c].at + [|s.ring.log|])
    ensures LockOk(t)
  {
    assert forall d: nat :: IsPub(t, d, InPublish) <==> IsPub(s, d, InPublish);
  }

  lemma StampKeepsConns(s: Bus, t: Bus, c: nat, m: Msg)
    requires AllFit(s.ring.log) && AllFit(t.ring.log) && ConnsOk(s) && OneConn(s, t, c)
    requires IsPub(s, c, InPublish) && |s.origin| == |s.ring.log| && t.depth == s.depth
    requires |s.conns[c].frames| > |s.conns[c].at| && Carries(m, Last(s.conns[c].frames))
    requires t.ring.log == s.ring.log + [m] && t.origin == s.origin + [c]
    requires t.conns[c] == s.conns[c].(at := s.conns[c].at + [|s.ring.log|])
    ensures ConnsOk(t)
  {
    StampKeepsPub(s.ring.log, s.origin, c, s.conns[c], m);
    ConnsFrame(s, t, c);
  }

  lemma StampKeepsPositions(s: Bus, t: Bus, c: nat)
    requires Shape(s) && Shape(t) && PositionsOk(s) && OneConn(s, t, c) && !t.conns[c].Sub?
    requires t.ring.cursors == s.ring.cursors && t.disp == s.disp
    ensures PositionsOk(t)
  {
  }

  lemma StampEffect(s: Bus, c: nat) returns (t: Bus)
    requires Shape(s) && LockOk(s) && Enabled(s, StoreStamp(c))
    ensures t == DoPublisher(s, StoreStamp(c)) && Shape(t)
    ensures OneConn(s, t, c) && t.conns[c] == s.conns[c].(at := s.conns[c].at + [|s.ring.log|])
    ensures t.ring == R.Do(s.ring, R.StoreStamp)
    ensures t.origin == s.origin + [c] && t.lock == s.lock && t.depth == s.depth && t.disp == s.disp
    ensures t.registry == s.registry && t.nextId == s.nextId && t.ring.cursors == s.ring.cursors
    ensures s.ring.prod.Writing? && t.ring.prod.Stamped?
  {
    t := DoPublisher(s, StoreStamp(c));
  }

  lemma StoreStampKeepsInv(s: Bus, c: nat)
    requires Inv(s) && Enabled(s, StoreStamp(c))
    ensures
      var t := DoPublisher(s, StoreStamp(c));
      var k, m := s.conns[c], s.ring.prod.msg;
      && Inv(t) && t.ring.log == s.ring.log + [m] && t.origin == s.origin + [c]
      && |k.frames| == |k.at| + 1 && Carries(m, Last(k.frames))
      && t.conns == s.conns[c := k.(at := k.at + [|s.ring.log|])]
  {
    var t := StampEffect(s, c);
    assert PubOk(s.ring.log, s.origin, c, s.conns[c]);
    StampKeepsRing(s, t);
    StampKeepsOrigin(s, t, c, s.ring.prod.msg);
    StampKeepsLock(s, t, c);
    StampKeepsConns(s, t, c, s.ring.prod.msg);
    RegistryFrame(s, t, c);
    StampKeepsPositions(s, t, c);
  }

  // ---- Subscriber threads ----

  lemma RecvKeepsSub(log: seq<Msg>, depth: nat, k: Conn)
    requires k.Sub? && k.sub.Waiting? && k.inbox != [] && AllFit(log) && SubOk(log, depth, k)
    ensures
      var k' := k.(inbox := k.inbox[1..], taken := k.taken + [k.inbox[0].n], sub := Sending(k.inbox[0]));
      SubOk(log, depth, k')
  {
    var k' := k.(inbox := k.inbox[1..], taken := k.taken + [k.inbox[0].n], sub := Sending(k.inbox[0]));
    assert Tags(k.inbox) == [k.inbox[0].n] + Tags(k.inbox[1..]);
    Assoc(k.taken, [k.inbox[0].n], Tags(k.inbox[1..]));
    assert Front(k'.taken) == k.taken;
  }

  lemma SendKeepsSub(log: seq<Msg>, depth: nat, k: Conn)
    requires k.Sub? && k.sub.Sending? && AllFit(log) && SubOk(log, depth, k)
    ensures SubOk(log, depth, k.(out := k.out + k.sub.item.bytes, sub := Waiting))
  {
  }

  lemma PartIsProper(a: seq<u8>, b: seq<u8>, n: nat)
    requires n < |b|
    ensures a <= a + b[..n] < a + b
  {
  }

  lemma SendFailsKeepsSub(log: seq<Msg>, depth: nat, k: Conn, n: nat)
    requires k.Sub? && k.sub.Sending? && n < |k.sub.item.bytes| && AllFit(log) && SubOk(log, depth, k)
    ensures SubOk(log, depth, k.(out := k.out + k.sub.item.bytes[..n], sub := Leaving))
  {
    PartIsProper(k.out, k.sub.item.bytes, n);
  }

  lemma RecvKeepsInv(s: Bus, c: nat)
    requires Inv(s) && Enabled(s, Recv(c))
    ensures Inv(DoSubscriber(s, Recv(c)))
  {
    RecvKeepsSub(s.ring.log, s.depth, s.conns[c]);
    ConnStepKeepsInv(s, DoSubscriber(s, Recv(c)), c);
  }

  lemma SendKeepsInv(s: Bus, c: nat)
    requires Inv(s) && Enabled(s, Send(c))
    ensures Inv(DoSubscriber(s, Send(c)))
  {
    SendKeepsSub(s.ring.log, s.depth, s.conns[c]);
    ConnStepKeepsInv(s, DoSubscriber(s, Send(c)), c);
  }

  lemma SendFailsKeepsInv(s: Bus, c: nat, n: nat)
    requires Inv(s) && Enabled(s, SendFails(c, n))
    ensures Inv(DoSubscriber(s, SendFails(c, n)))
  {
    SendFailsKeepsSub(s.ring.log, s.depth, s.conns[c], n);
    ConnStepKeepsInv(s, DoSubscriber(s, SendFails(c, n)), c);
  }

  lemma DropReceiverKeepsSub(log: seq<Msg>, depth: nat, k: Conn)
    requires k.Sub? && k.sub.Left? && AllFit(log) && SubOk(log, depth, k)
    ensures SubOk(log, depth, k.(sub := Gone))
  {
  }

  lemma DropReceiverKeepsInv(s: Bus, c: nat)
    requires Inv(s) && Enabled(s, DropReceiver(c))
    ensures Inv(DoSubscriber(s, DropReceiver(c)))
  {
    var k := s.conns[c].(sub := Gone);
    DropReceiverKeepsSub(s.ring.log, s.depth, s.conns[c]);
    assert DoSubscriber(s, DropReceiver(c)) == SetConn(s, c, k);
    ConnStepKeepsInv(s, SetConn(s, c, k), c);
  }

  /** `recv` fails only when the sender is gone, and the sender is in the registry until the
      subscriber thread itself removes it. */
  lemma RecvNeverCloses(s: Bus, c: nat)
    requires Shape(s) && RegistryOk(s)
    ensures !Enabled(s, RecvClosed(c))
  {
    if IsSub(s, c, Waiting) {
      assert InRegistry(s.conns[c]);
      var id := s.conns[c].id;
      assert id in s.registry && s.registry[id].conn == c;
    }
  }

  lemma InsertKeepsRegistry(s: Bus, t: Bus, c: nat)
    requires RegistryOk(s) && OneConn(s, t, c) && IsSub(s, c, Joining) && t.nextId == s.nextId
    requires IsSub(t, c, Waiting) && t.conns[c].id == s.conns[c].id && t.conns[c].filter == s.conns[c].filter
    requires t.registry == s.registry[s.conns[c].id := Entry(c, s.conns[c].filter)]
    ensures RegistryOk(t) && s.conns[c].id !in s.registry
  {
    assert forall d :: 0 <= d < |s.conns| && s.conns[d].Sub? && s.conns[d].id == s.conns[c].id ==> d == c;
  }

  lemma InsertKeepsPositions(s: Bus, t: Bus, c: nat)
    requires Shape(s) && Shape(t) && PositionsOk(s) && OneConn(s, t, c) && RegistryFree(s)
    requires t.ring == s.ring && t.disp == s.disp && t.conns[c].Sub? && t.conns[c].upTo == NextFan(s)
    ensures PositionsOk(t)
  {
  }

  /** Subscriber `k` joins just before message `next`. */
  lemma InsertKeepsSub(log: seq<Msg>, depth: nat, k: Conn, next: nat)
    requires AllFit(log) && k.Sub? && k.sub.Joining? && SubOk(log, depth, k) && next <= |log|
    ensures SubOk(log, depth, k.(sub := Waiting, joinAt := next, upTo := next))
  {
  }

  lemma InsertKeepsInv(s: Bus, c: nat)
    requires Inv(s) && Enabled(s, Insert(c))
    ensures
      var t := DoSubscriber(s, Insert(c));
      var id := s.conns[c].id;
      && Inv(t) && id !in s.registry && t.registry == s.registry[id := Entry(c, s.conns[c].filter)]
      && t.conns[c].joinAt == t.conns[c].upTo == NextFan(s)
  {
    var t := DoSubscriber(s, Insert(c));
    InsertKeepsSub(s.ring.log, s.depth, s.conns[c], NextFan(s));
    InsertKeepsRegistry(s, t, c);
    InsertKeepsPositions(s, t, c);
    OriginFrame(s, t, c);
    LockFrame(s, t, c);
    ConnsFrame(s, t, c);
    RingFrame(s, t);
  }

  lemma RemoveKeepsRegistry(s: Bus, t: Bus, c: nat)
    requires RegistryOk(s) && OneConn(s, t, c) && IsSub(s, c, Leaving) && t.nextId == s.nextId
    requires t.conns[c] == s.conns[c].(sub := Left)
    requires t.registry == s.registry - {s.conns[c].id}
    ensures RegistryOk(t)
  {
  }

  lemma RemoveKeepsInv(s: Bus, c: nat)
    requires Inv(s) && Enabled(s, Remove(c))
    ensures
      var t := DoSubscriber(s, Remove(c));
      var id := s.conns[c].id;
      && Inv(t) && id in s.registry && s.registry[id].conn == c && t.registry == s.registry - {id}
      && t.conns[c].upTo == NextFan(s)
  {
    var t := DoSubscriber(s, Remove(c));
    assert SubOk(s.ring.log, s.depth, s.conns[c]);
    RemoveKeepsRegistry(s, t, c);
    PositionsFrame(s, t, c);
    OriginFrame(s, t, c);
    LockFrame(s, t, c);
    ConnsFrame(s, t, c);
    RingFrame(s, t);
  }

  // ---- The dispatch thread ----

  lemma FanBeginKeepsInv(s: Bus, m: Msg)
    requires Inv(s) && Enabled(s, FanBegin(m))
    ensures Inv(DoDispatch(s, FanBegin(m)))
  {
    var t := DoDispatch(s, FanBegin(m));
    ImageUnique(m, s.ring.log[s.ring.cursors[0]], Image(m));
    LockUnmoved(s, t);
    NoConnFrame(s, t);
  }

  lemma LockUnmoved(s: Bus, t: Bus)
    requires LockOk(s) && t.conns == s.conns && t.lock == s.lock && t.ring.prod == s.ring.prod
    ensures LockOk(t)
  {
    assert forall d: nat :: IsPub(t, d, InPublish) <==> IsPub(s, d, InPublish);
  }

  lemma QueuedKeepsSub(log: seq<Msg>, depth: nat, k: Conn, n: nat)
    requires InRegistry(k) && AllFit(log) && SubOk(log, depth, k) && k.upTo == n < |log|
    requires k.filter.Accepts(log[n].channelId) && |k.inbox| < depth
    ensures SubOk(log, depth, k.(inbox := k.inbox + [Item(n, Wire(FromMsg(log[n])))],
      fates := k.fates + [Fate(n, true)], upTo := n + 1))
  {
    FateAdded(k.fates, n, true);
    ItemAdded(k.inbox, Item(n, Wire(FromMsg(log[n]))));
    Assoc(k.taken, Tags(k.inbox), [n]);
  }

  lemma FateAdded(fates: seq<Fate>, n: nat, kept: bool)
    ensures Numbers(fates + [Fate(n, kept)]) == Numbers(fates) + [n]
    ensures Kept(fates + [Fate(n, kept)]) == Kept(fates) + (if kept then [n] else [])
  {
    assert Front(fates + [Fate(n, kept)]) == fates;
  }

  lemma ItemAdded(inbox: seq<Item>, item: Item)
    ensures Tags(inbox + [item]) == Tags(inbox) + [item.n]
  {
  }

  lemma DroppedKeepsSub(log: seq<Msg>, depth: nat, k: Conn, n: nat)
    requires InRegistry(k) && AllFit(log) && SubOk(log, depth, k) && k.upTo == n < |log|
    requires k.filter.Accepts(log[n].channelId)
    ensures SubOk(log, depth, k.(fates := k.fates + [Fate(n, false)], upTo := n + 1))
  {
    FateAdded(k.fates, n, false);
  }

  lemma SkippedKeepsSub(log: seq<Msg>, depth: nat, k: Conn, n: nat)
    requires InRegistry(k) && AllFit(log) && SubOk(log, depth, k) && k.upTo == n < |log|
    requires !k.filter.Accepts(log[n].channelId)
    ensures SubOk(log, depth, k.(upTo := n + 1))
  {
  }

  /** Offering the next message records its fate, and queues its bytes if they are to be kept. */
  lemma OfferedKeepsSub(log: seq<Msg>, depth: nat, k: Conn, n: nat)
    requires InRegistry(k) && AllFit(log) && SubOk(log, depth, k) && k.upTo == n < |log|
    ensures SubOk(log, depth, Offered(k, k.filter, log[n], n, depth))
    ensures Offered(k, k.filter, log[n], n, depth).upTo == n + 1
  {
    if !k.filter.Accepts(log[n].channelId) {
      SkippedKeepsSub(log, depth, k, n);
    } else if |k.inbox| < depth {
      QueuedKeepsSub(log, depth, k, n);
    } else {
      DroppedKeepsSub(log, depth, k, n);
    }
  }

  lemma FanOneKeepsPositions(s: Bus, t: Bus, id: nat, c: nat)
    requires Shape(s) && Shape(t) && PositionsOk(s) && RegistryOk(s) && OneConn(s, t, c)
    requires s.disp.Fan? && id in s.disp.todo && id in s.registry && s.registry[id].conn == c
    requires t.ring == s.ring && t.disp == Fan(s.disp.msg, s.disp.todo - {id})
    requires SameRole(s.conns[c], t.conns[c]) && t.conns[c].Sub? && t.conns[c].upTo == s.ring.cursors[0] + 1
    ensures PositionsOk(t)
  {
    forall d | 0 <= d < |t.conns| && InRegistry(t.conns[d])
      ensures t.conns[d].upTo == Position(t, t.conns[d].id)
    {
      if d != c {
        assert t.conns[d].id != id;
        assert s.conns[d].upTo == Position(s, s.conns[d].id);
      }
    }
  }

  lemma FanOneKeepsRing(s: Bus, t: Bus)
    requires Shape(s) && Shape(t) && RingOk(s) && s.disp.Fan? && t.disp.Fan?
    requires t.ring == s.ring && t.registry == s.registry
    requires t.disp.msg == s.disp.msg && t.disp.todo <= s.disp.todo
    ensures RingOk(t)
  {
    assert forall i: nat :: RS.Live(t.ring, i) <==> RS.Live(s.ring, i);
  }

  lemma FanOneTarget(s: Bus, id: nat)
    requires Shape(s) && RingOk(s) && RegistryOk(s) && PositionsOk(s) && Enabled(s, FanOne(id))
    ensures
      var c, n := s.registry[id].conn, s.ring.cursors[0];
      && c < |s.conns| && InRegistry(s.conns[c]) && s.conns[c].upTo == n < |s.ring.log|
      && s.registry[id].filter == s.conns[c].filter && s.disp.msg == s.ring.log[n]
  {
    assert s.conns[s.registry[id].conn].upTo == Position(s, id);
  }

  lemma FanOneOffers(s: Bus, id: nat)
    requires Shape(s) && RingOk(s) && RegistryOk(s) && PositionsOk(s) && ConnsOk(s) && Enabled(s, FanOne(id))
    ensures
      var c, t := s.registry[id].conn, DoDispatch(s, FanOne(id));
      && c < |s.conns| && OneConn(s, t, c) && SameRole(s.conns[c], t.conns[c])
      && t.conns[c].Sub? && t.conns[c].upTo == s.ring.cursors[0] + 1
      && ConnOk(s.ring.log, s.origin, s.depth, c, t.conns[c])
  {
    FanOneTarget(s, id);
    OfferedKeepsSub(s.ring.log, s.depth, s.conns[s.registry[id].conn], s.ring.cursors[0]);
  }

  /** What became of message `n` at subscriber `k`: nothing if its filter rejects it, dropped exactly
      when its queue holds its full depth, and otherwise appended. */
  ghost predicate FateOf(k: Conn, k': Conn, m: Msg, n: nat, depth: nat)
    requires k.Sub?
  {
    && k'.Sub? && Fits(m)
    && if !k.filter.Accepts(m.channelId) then k'.inbox == k.inbox && k'.fates == k.fates
       else if |k.inbox| == depth then k'.inbox == k.inbox && k'.fates == k.fates + [Fate(n, false)]
       else |k'.inbox| == |k.inbox| + 1 && Front(k'.inbox) == k.inbox
            && Last(k'.inbox).n == n && IsFrameOf(Last(k'.inbox).bytes, m) && k'.fates == k.fates + [Fate(n, true)]
  }

  lemma OfferedFate(log: seq<Msg>, k: Conn, n: nat, depth: nat)
    requires InRegistry(k) && AllFit(log) && n < |log| && SubOk(log, depth, k)
    ensures FateOf(k, Offered(k, k.filter, log[n], n, depth), log[n], n, depth)
  {
    WireIsFrame(log[n]);
  }

  lemma FanOneFate(s: Bus, id: nat)
    requires Shape(s) && RingOk(s) && RegistryOk(s) && PositionsOk(s) && ConnsOk(s) && Enabled(s, FanOne(id))
    ensures
      var t := DoDispatch(s, FanOne(id));
      var c, n := s.registry[id].conn, s.ring.cursors[0];
      && n < |s.ring.log|
      && FateOf(s.conns[c], t.conns[c], s.ring.log[n], n, s.depth)
      && (forall d :: 0 <= d < |s.conns| && d != c ==> t.conns[d] == s.conns[d])
  {
    FanOneTarget(s, id);
    OfferedFate(s.ring.log, s.conns[s.registry[id].conn], s.ring.cursors[0], s.depth);
  }

  lemma FanOneKeepsInv(s: Bus, id: nat)
    requires Inv(s) && Enabled(s, FanOne(id))
    ensures
      var t := DoDispatch(s, FanOne(id));
      var c, n := s.registry[id].conn, s.ring.cursors[0];
      && Inv(t) && n < |s.ring.log|
      && FateOf(s.conns[c], t.conns[c], s.ring.log[n], n, s.depth)
      && (forall d :: 0 <= d < |s.conns| && d != c ==> t.conns[d] == s.conns[d])
  {
    var t := DoDispatch(s, FanOne(id));
    var c := s.registry[id].conn;
    FanOneFate(s, id);
    FanOneOffers(s, id);
    FanOneKeepsRing(s, t);
    FanOneKeepsPositions(s, t, id, c);
    LockFrame(s, t, c);
    OriginFrame(s, t, c);
    RegistryFrame(s, t, c);
    ConnsFrame(s, t, c);
  }

  lemma FanEndKeepsInv(s: Bus)
    requires Inv(s) && Enabled(s, FanEnd)
    ensures Inv(DoDispatch(s, FanEnd))
  {
    var t := DoDispatch(s, FanEnd);
    LockUnmoved(s, t);
    NoConnFrame(s, t);
  }

  lemma AdvanceEffect(s: Bus)
    requires Shape(s) && RingOk(s) && Enabled(s, Advance)
    ensures
      var t := R.Do(s.ring, R.StoreCursor(DISPATCHER));
      && RS.Reachable(t) && t.log == s.ring.log && t.prod == s.ring.prod
      && t.cursors == s.ring.cursors[0 := s.ring.cursors[0] + 1]
      && |t.clients| == 1 && t.clients[0].Holding? && t.clients[0].start == 0 && t.clients[0].phase.Ready?
  {
    RS.ReachableStoreCursor(s.ring, DISPATCHER);
    RS.ReachStep(s.ring, R.StoreCursor(DISPATCHER));
  }

  lemma AdvanceKeepsRing(s: Bus, t: Bus)
    requires Shape(s) && Shape(t) && RingOk(s) && s.ring.cursors[0] < |s.ring.log| && t.disp.Outside?
    requires RS.Reachable(t.ring) && t.ring.log == s.ring.log
    requires t.ring.cursors == s.ring.cursors[0 := s.ring.cursors[0] + 1]
    requires t.ring.clients[0].start == 0 && t.ring.clients[0].phase.Ready?
    ensures RingOk(t)
  {
    assert forall i: nat :: RS.Live(t.ring, i) ==> i == 0 || RS.Live(s.ring, i);
  }

  lemma AdvanceKeepsInv(s: Bus)
    requires Inv(s) && Enabled(s, Advance)
    ensures Inv(DoDispatch(s, Advance))
  {
    var t := DoDispatch(s, Advance);
    AdvanceEffect(s);
    AdvanceKeepsRing(s, t);
    LockUnmoved(s, t);
    NoConnFrame(s, t);
  }

  // ---- All steps, all runs ----

  lemma PublisherStepKeepsInv(s: Bus, a: Step)
    requires Inv(s) && Enabled(s, a)
    requires ByPublisher(a)
    ensures Inv(DoPublisher(s, a))
  {
    match a
    case ReadFrame(c) => ReadFrameKeepsInv(s, c);
    case BeginPublish(c, now) => BeginPublishKeepsInv(s, c, now);
    case Decide(c) => DecideKeepsInv(s, c);
    case StoreStamp(c) => StoreStampKeepsInv(s, c);
    case StoreHead(c) => StoreHeadKeepsInv(s, c);
  }

  lemma DispatchStepKeepsInv(s: Bus, a: Step)
    requires Inv(s) && Enabled(s, a)
    requires ByFanOut(a)
    ensures Inv(DoDispatch(s, a))
  {
    match a
    case FanBegin(m) => FanBeginKeepsInv(s, m);
    case FanOne(id) => FanOneKeepsInv(s, id);
    case FanEnd => FanEndKeepsInv(s);
    case Advance => AdvanceKeepsInv(s);
  }

  lemma SubscriberStepKeepsInv(s: Bus, a: Step)
    requires Inv(s) && Enabled(s, a)
    requires BySubscriber(a)
    ensures Inv(DoSubscriber(s, a))
  {
    match a
    case Insert(c) => InsertKeepsInv(s, c);
    case Recv(c) => RecvKeepsInv(s, c);
    case RecvClosed(c) => RecvNeverCloses(s, c);
    case Send(c) => SendKeepsInv(s, c);
    case SendFails(c, n) => SendFailsKeepsInv(s, c, n);
    case Remove(c) => RemoveKeepsInv(s, c);
    case DropReceiver(c) => DropReceiverKeepsInv(s, c);
  }

  lemma StepKeepsInv(s: Bus, a: Step)
    requires Inv(s) && Enabled(s, a)
    ensures Inv(Do(s, a))
  {
    if a.Ring? {
      RingStepKeepsInv(s, a.a);
    } else if a.Accept? {
      AcceptKeepsInv(s, a.input);
    } else if a.ReadHello? {
      HelloKeepsInv(s, a.c);
    } else if ByPublisher(a) {
      PublisherStepKeepsInv(s, a);
    } else if ByFanOut(a) {
      DispatchStepKeepsInv(s, a);
    } else {
      SubscriberStepKeepsInv(s, a);
    }
  }

  /** The invariant holds after every run of the bus: no premise about timing is left, because the
      dispatch thread's consumer is registered before anything else runs. */
  lemma {:induction false} RunKeepsInv(s: Bus, run: seq<Step>)
    requires Run(s, run)
    ensures Inv(After(s, run))
    decreases |run|
  {
    if run == [] {
      InitOk(s);
    } else {
      LastStep(s, run);
      RunKeepsInv(s, Front(run));
      StepKeepsInv(After(s, Front(run)), Last(run));
    }
  }
}
