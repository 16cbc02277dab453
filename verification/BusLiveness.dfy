/** What is sent gets through: every connection's thread can always go on, and in the end does its work. */
module BusLiveness {
  import opened Words
  import opened Slots
  import opened Sequences
  import opened Framing
  import opened Handshake
  import opened Options
  import opened BusProtocol
  import opened BusInvariant
  import opened BusProgress
  import BS = BusSafety
  import BT = BusTheorems
  import Spans = BusSpans
  import R = RingProtocol

  // ---- A subscriber drains its queue ----

  ghost predicate OnlySubscriber(run: seq<Step>, c: nat) {
    forall n :: 0 <= n < |run| ==> run[n] == Recv(c) || run[n] == Send(c)
  }

  /** A waiting subscriber with the first `n` frames of its queue taken and written. */
  ghost function Drained(k: Conn, n: nat): Conn
    requires k.Sub? && n <= |k.inbox|
  {
    k.(inbox := k.inbox[n..], taken := k.taken + Tags(k.inbox[..n]), out := k.out + Joined(k.inbox[..n]))
  }

  ghost function Joined(items: seq<Item>): seq<u8> {
    if items == [] then [] else Joined(Front(items)) + Last(items).bytes
  }

  lemma DrainedNone(k: Conn)
    requires k.Sub?
    ensures Drained(k, 0) == k
  {
    assert k.inbox[..0] == [] && Tags([]) == [];
  }

  lemma DrainedMore(k: Conn, n: nat)
    requires k.Sub? && n < |k.inbox|
    ensures
      var j, item := Drained(k, n), k.inbox[n];
      && j.inbox != [] && j.inbox[0] == item
      && Drained(k, n + 1) == j.(inbox := j.inbox[1..], taken := j.taken + [item.n], out := j.out + item.bytes)
  {
    assert k.inbox[..n + 1] == k.inbox[..n] + [k.inbox[n]];
    assert Tags(k.inbox[..n + 1]) == Tags(k.inbox[..n]) + [k.inbox[n].n];
    assert Front(k.inbox[..n + 1]) == k.inbox[..n];
    Assoc(k.taken, Tags(k.inbox[..n]), [k.inbox[n].n]);
    Assoc(k.out, Joined(k.inbox[..n]), k.inbox[n].bytes);
  }

  /** `recv` returns the first frame of the queue, and `write_all` writes it. */
  lemma TakeAndSend(s: Bus, c: nat)
    requires Shape(s) && IsSub(s, c, Waiting) && s.conns[c].inbox != []
    ensures
      var k := s.conns[c];
      Leads(s, [Recv(c), Send(c)], SetConn(s, c,
        k.(inbox := k.inbox[1..], taken := k.taken + [k.inbox[0].n], out := k.out + k.inbox[0].bytes)))
  {
    var k := s.conns[c];
    LeadsOne(s, Recv(c));
    var u := Do(s, Recv(c));
    LeadsStep(s, [Recv(c)], u, Send(c));
    assert [Recv(c)] + [Send(c)] == [Recv(c), Send(c)];
    var k' := k.(inbox := k.inbox[1..], taken := k.taken + [k.inbox[0].n], out := k.out + k.inbox[0].bytes);
    assert Do(u, Send(c)).conns == s.conns[c := k'];
  }

  lemma {:induction false} DrainRun(s: Bus, c: nat, n: nat) returns (run: seq<Step>)
    requires Shape(s) && IsSub(s, c, Waiting) && n <= |s.conns[c].inbox|
    ensures OnlySubscriber(run, c) && Leads(s, run, SetConn(s, c, Drained(s.conns[c], n)))
  {
    if n == 0 {
      run := [];
      DrainedNone(s.conns[c]);
      assert SetConn(s, c, s.conns[c]) == s;
      LeadsNowhere(s);
    } else {
      var before := DrainRun(s, c, n - 1);
      var t := SetConn(s, c, Drained(s.conns[c], n - 1));
      DrainedMore(s.conns[c], n - 1);
      TakeAndSend(t, c);
      assert SetConn(t, c, Drained(s.conns[c], n)) == SetConn(s, c, Drained(s.conns[c], n));
      LeadsThrough(s, before, t, [Recv(c), Send(c)], SetConn(s, c, Drained(s.conns[c], n)));
      run := before + [Recv(c), Send(c)];
    }
  }

  lemma {:induction false} RunFromKeepsInv(s: Bus, run: seq<Step>, t: Bus)
    requires Inv(s) && Leads(s, run, t)
    ensures Inv(t)
    decreases |run|
  {
    if run != [] {
      var u := LeadsBack(s, run, t);
      RunFromKeepsInv(s, Front(run), u);
      BS.StepKeepsInv(u, Last(run));
    }
  }

  lemma DrainQueue(s: Bus, c: nat) returns (run: seq<Step>, t: Bus)
    requires Inv(s) && IsSub(s, c, Waiting)
    ensures OnlySubscriber(run, c) && Leads(s, run, t) && Inv(t) && IsSub(t, c, Waiting)
    ensures t == SetConn(s, c, t.conns[c]) && Emptied(s.conns[c], t.conns[c])
  {
    var k := s.conns[c];
    run := DrainRun(s, c, |k.inbox|);
    t := SetConn(s, c, Drained(k, |k.inbox|));
    DrainedAll(k);
    RunFromKeepsInv(s, run, t);
  }

  lemma DrainedAll(k: Conn)
    requires k.Sub?
    ensures Emptied(k, Drained(k, |k.inbox|)) && Drained(k, |k.inbox|).sub == k.sub
  {
    assert k.inbox[..|k.inbox|] == k.inbox;
  }

  /** From every reachable state a subscriber waiting for its queue empties it by its own steps alone, and
      then a reader of its whole connection has the frames of everything ever taken from the queue. */
  lemma SubscriberDrains(s0: Bus, before: seq<Step>, c: nat) returns (run: seq<Step>, t: Bus)
    requires Run(s0, before) && IsSub(After(s0, before), c, Waiting)
    ensures OnlySubscriber(run, c) && Leads(After(s0, before), run, t) && IsSub(t, c, Waiting)
    ensures
      var s := After(s0, before);
      && t == SetConn(s, c, t.conns[c]) && t.conns[c].inbox == []
      && t.conns[c].taken == s.conns[c].taken + Tags(s.conns[c].inbox)
      && AllFit(s.ring.log) && Within(t.conns[c].taken, |s.ring.log|)
      && Parse(t.conns[c].out) == BT.FramesOf(s.ring.log, t.conns[c].taken)
  {
    BS.RunKeepsInv(s0, before);
    run, t := DrainQueue(After(s0, before), c);
    WholeOutputParses(t, c);
  }

  lemma WholeOutputParses(t: Bus, c: nat)
    requires Inv(t) && IsSub(t, c, Waiting)
    ensures AllFit(t.ring.log) && Within(t.conns[c].taken, |t.ring.log|)
    ensures Parse(t.conns[c].out) == BT.FramesOf(t.ring.log, t.conns[c].taken)
  {
    assert SubOk(t.ring.log, t.depth, t.conns[c]);
    BT.WholeOutput(t.ring.log, t.conns[c]);
  }

  // ---- Everything published reaches a subscriber that keeps up ----

  /** Steps of the dispatch thread and of subscriber `c`. */
  ghost predicate DispatchOrSubscriber(run: seq<Step>, c: nat) {
    forall n :: 0 <= n < |run| ==> ByDispatcher(run[n]) || run[n] == Recv(c) || run[n] == Send(c)
  }

  lemma UpToIsNext(s: Bus, c: nat)
    requires Inv(s) && IsSub(s, c, Waiting)
    ensures
      var n, k := s.ring.cursors[0], s.conns[c];
      && n <= |s.ring.log| && (k.upTo == n || k.upTo == n + 1) && k.upTo <= |s.ring.log|
  {
    assert InRegistry(s.conns[c]);
    assert s.conns[c].upTo == Position(s, s.conns[c].id);
    assert SubOk(s.ring.log, s.depth, s.conns[c]);
  }

  /** Offering message `n`, the next one, to a subscriber with an empty queue: it is queued if it matches. */
  lemma OfferedToEmpty(log: seq<Msg>, k: Conn, n: nat, depth: nat)
    requires InRegistry(k) && k.inbox == [] && depth > 0 && AllFit(log) && n < |log|
    ensures
      var k' := Offered(k, k.filter, log[n], n, depth);
      && k'.upTo == n + 1 && k'.sub == k.sub && k'.filter == k.filter && k'.taken == k.taken
      && Tags(k'.inbox) + Matching(log, k.filter, n + 1, |log|) == Matching(log, k.filter, n, |log|)
  {
    Spans.MatchingSplit(log, k.filter, n, n + 1, |log|);
    assert Matching(log, k.filter, n, n) == [];
    assert Matching(log, k.filter, n, n + 1) == if k.filter.Accepts(log[n].channelId) then [n] else [];
    assert Tags(Offered(k, k.filter, log[n], n, depth).inbox) == Matching(log, k.filter, n, n + 1);
  }

  /** The subscriber's queue is about to hold, or holds, what it is still to get of the log. */
  ghost predicate StillToGet(k: Conn, log: seq<Msg>, ns: seq<nat>)
    requires k.Sub?
  {
    k.upTo <= |log| && Tags(k.inbox) + Matching(log, k.filter, k.upTo, |log|) == ns
  }

  lemma ServedWhenEmpty(s: Bus, u: Bus, c: nat, ns: seq<nat>)
    requires IsSub(s, c, Waiting) && s.conns[c].inbox == [] && s.depth > 0 && AllFit(s.ring.log)
    requires |s.ring.cursors| > 0 && s.ring.cursors[0] < |s.ring.log| && Served(s, u, s.ring.cursors[0])
    requires StillToGet(s.conns[c], s.ring.log, ns)
    ensures IsSub(u, c, Waiting) && u.conns[c].filter == s.conns[c].filter && u.conns[c].taken == s.conns[c].taken
    ensures StillToGet(u.conns[c], s.ring.log, ns)
  {
    var k, n := s.conns[c], s.ring.cursors[0];
    assert u.conns[c] == AfterServing(s, n, c);
    if k.upTo == n {
      OfferedToEmpty(s.ring.log, k, n, s.depth);
      assert Tags([]) == [];
    }
  }

  lemma ThenAll(s: Bus, drain: seq<Step>, u: Bus, dispatch: seq<Step>, v: Bus, rest: seq<Step>, t: Bus, c: nat)
    returns (run: seq<Step>)
    requires OnlySubscriber(drain, c) && OnlyDispatcher(dispatch) && DispatchOrSubscriber(rest, c)
    requires Leads(s, drain, u) && Leads(u, dispatch, v) && Leads(v, rest, t)
    ensures DispatchOrSubscriber(run, c) && Leads(s, run, t)
  {
    LeadsThrough(s, drain, u, dispatch, v);
    LeadsThrough(s, drain + dispatch, v, rest, t);
    run := drain + dispatch + rest;
  }

  /** What subscriber `c` has taken in the end: what it had, what was in its queue, and every matching
      message that had not been offered to it. */
  ghost predicate CaughtUp(s: Bus, t: Bus, c: nat) {
    && IsSub(s, c, Waiting) && IsSub(t, c, Waiting) && t.ring.log == s.ring.log
    && t.conns[c].inbox == [] && t.conns[c].filter == s.conns[c].filter
    && s.conns[c].upTo <= |s.ring.log|
    && t.conns[c].taken == s.conns[c].taken + (Tags(s.conns[c].inbox)
         + Matching(s.ring.log, s.conns[c].filter, s.conns[c].upTo, |s.ring.log|))
  }

  /** The subscriber has emptied its queue. */
  ghost predicate Emptied(k: Conn, k': Conn) {
    && k.Sub? && k'.Sub?
    && k' == k.(inbox := [], taken := k.taken + Tags(k.inbox), out := k'.out)
  }

  lemma CaughtUpNow(s: Bus, t: Bus, c: nat)
    requires IsSub(s, c, Waiting) && s.conns[c].upTo == |s.ring.log|
    requires IsSub(t, c, Waiting) && t.ring.log == s.ring.log && Emptied(s.conns[c], t.conns[c])
    ensures CaughtUp(s, t, c)
  {
    var k := s.conns[c];
    assert Matching(s.ring.log, k.filter, k.upTo, |s.ring.log|) == [];
    assert Tags(k.inbox) + [] == Tags(k.inbox);
  }

  lemma CaughtUpLater(k: Conn, k1: Conn, k2: Conn, taken: seq<nat>, log: seq<Msg>)
    requires Emptied(k, k1) && k2.Sub? && k2.taken == k1.taken && k2.filter == k1.filter && k.upTo <= |log|
    requires StillToGet(k2, log, Matching(log, k1.filter, k1.upTo, |log|))
    requires taken == k2.taken + (Tags(k2.inbox) + Matching(log, k2.filter, k2.upTo, |log|))
    ensures taken == k.taken + (Tags(k.inbox) + Matching(log, k.filter, k.upTo, |log|))
  {
    Assoc(k.taken, Tags(k.inbox), Matching(log, k.filter, k.upTo, |log|));
  }

  lemma {:induction false} CatchUp(s: Bus, c: nat) returns (run: seq<Step>, t: Bus)
    requires Inv(s) && IsSub(s, c, Waiting) && s.depth > 0
    ensures DispatchOrSubscriber(run, c) && Leads(s, run, t) && Inv(t) && CaughtUp(s, t, c)
    decreases |s.ring.log| - s.ring.cursors[0]
  {
    var drain, u := DrainQueue(s, c);
    UpToIsNext(s, c);
    if s.ring.cursors[0] == |s.ring.log| {
      run, t := drain, u;
      CaughtUpNow(s, t, c);
    } else {
      var dispatch, v := DispatchCompletes(u);
      NothingQueued(u, c);
      ServedWhenEmpty(u, v, c, Matching(u.ring.log, u.conns[c].filter, u.conns[c].upTo, |u.ring.log|));
      var rest;
      rest, t := CatchUp(v, c);
      run := ThenAll(s, drain, u, dispatch, v, rest, t, c);
      CaughtUpLater(s.conns[c], u.conns[c], v.conns[c], t.conns[c].taken, s.ring.log);
    }
  }

  lemma NothingQueued(u: Bus, c: nat)
    requires IsSub(u, c, Waiting) && u.conns[c].inbox == [] && u.conns[c].upTo <= |u.ring.log|
    ensures
      var k := u.conns[c];
      StillToGet(k, u.ring.log, Matching(u.ring.log, k.filter, k.upTo, |u.ring.log|))
  {
    assert Tags([]) == [];
  }

  /** Nothing is lost on the way to a subscriber that keeps up: from every reachable state, the dispatch
      thread and a waiting subscriber alone can go on so that a reader of the subscriber's connection has,
      after what it had been queued before, every message published so far that the filter accepts and
      that had not been offered to it yet, in ring order; what the other threads do does not matter. */
  lemma PublishedGetsThrough(s0: Bus, before: seq<Step>, c: nat) returns (run: seq<Step>, t: Bus)
    requires Run(s0, before) && IsSub(After(s0, before), c, Waiting) && After(s0, before).depth > 0
    ensures DispatchOrSubscriber(run, c) && Leads(After(s0, before), run, t)
    ensures CaughtUp(After(s0, before), t, c)
    ensures AllFit(t.ring.log) && Within(t.conns[c].taken, |t.ring.log|)
    ensures Parse(t.conns[c].out) == BT.FramesOf(t.ring.log, t.conns[c].taken)
  {
    BS.RunKeepsInv(s0, before);
    run, t := CatchUp(After(s0, before), c);
    WholeOutputParses(t, c);
  }

  // ---- A subscriber joins and leaves ----

  /** A connection that is not registered has not changed, and one that is leaving still is. */
  ghost predicate KeepsRole(s: Bus, t: Bus, c: nat) {
    && c < |s.conns| == |t.conns|
    && (!InRegistry(s.conns[c]) ==> t.conns[c] == s.conns[c])
    && (IsSub(s, c, Leaving) ==> IsSub(t, c, Leaving) && t.conns[c].id == s.conns[c].id)
  }

  lemma ServedKeepsRole(s: Bus, t: Bus, n: nat, c: nat)
    requires n < |s.ring.log| && AllFit(s.ring.log) && Served(s, t, n) && c < |s.conns|
    ensures KeepsRole(s, t, c)
  {
    assert t.conns[c] == AfterServing(s, n, c);
  }

  lemma FanHasWork(s: Bus)
    requires Inv(s) && s.disp.Fan?
    ensures HasWork(s)
  {
  }

  /** The dispatch thread lets go of the registry by its own steps. */
  lemma RegistryBecomesFree(s: Bus, c: nat) returns (run: seq<Step>, t: Bus)
    requires Inv(s) && c < |s.conns|
    ensures OnlyDispatcher(run) && Leads(s, run, t) && Inv(t) && RegistryFree(t) && KeepsRole(s, t, c)
  {
    if s.disp.Fan? {
      FanHasWork(s);
      run, t := DispatchCompletes(s);
      ServedKeepsRole(s, t, s.ring.cursors[0], c);
    } else {
      run, t := [], s;
      LeadsNowhere(s);
    }
  }

  /** Steps of connection `c` and of the dispatch thread. */
  ghost predicate JoinOrDispatch(run: seq<Step>, c: nat) {
    forall n :: 0 <= n < |run| ==> run[n] == ReadHello(c) || ByDispatcher(run[n]) || run[n] == Insert(c)
  }

  ghost predicate Registered(t: Bus, c: nat, filter: Filter) {
    && IsSub(t, c, Waiting) && t.conns[c].filter == filter
    && t.conns[c].id in t.registry && t.registry[t.conns[c].id] == Entry(c, filter)
  }

  lemma JoinerJoins(s: Bus, c: nat) returns (run: seq<Step>, t: Bus)
    requires Inv(s) && IsSub(s, c, Joining)
    ensures JoinOrDispatch(run, c) && Leads(s, run, t) && Registered(t, c, s.conns[c].filter)
  {
    var wait, u := RegistryBecomesFree(s, c);
    InsertRegisters(u, c);
    t := Do(u, Insert(c));
    run := ThenInsert(s, wait, u, c);
  }

  lemma ThenInsert(s: Bus, wait: seq<Step>, u: Bus, c: nat) returns (run: seq<Step>)
    requires OnlyDispatcher(wait) && Leads(s, wait, u) && Enabled(u, Insert(c))
    ensures JoinOrDispatch(run, c) && Leads(s, run, Do(u, Insert(c)))
  {
    LeadsStep(s, wait, u, Insert(c));
    run := wait + [Insert(c)];
  }

  /** A connection that subscribes is registered with its filter, by its own steps and, if a fan-out is
      under way, those of the dispatch thread. */
  lemma SubscriberJoins(s0: Bus, before: seq<Step>, c: nat) returns (run: seq<Step>, t: Bus)
    requires Run(s0, before) && c < |After(s0, before).conns| && After(s0, before).conns[c].Fresh?
    requires Greet(After(s0, before).conns[c].input).Subscribe?
    ensures JoinOrDispatch(run, c) && Leads(After(s0, before), run, t)
    ensures Registered(t, c, Greet(After(s0, before).conns[c].input).filter)
  {
    BS.RunKeepsInv(s0, before);
    run, t := FreshJoins(After(s0, before), c);
  }

  lemma FreshJoins(s: Bus, c: nat) returns (run: seq<Step>, t: Bus)
    requires Inv(s) && c < |s.conns| && s.conns[c].Fresh? && Greet(s.conns[c].input).Subscribe?
    ensures JoinOrDispatch(run, c) && Leads(s, run, t) && Registered(t, c, Greet(s.conns[c].input).filter)
  {
    var u := SayHello(s, c);
    var rest;
    rest, t := JoinerJoins(u, c);
    LeadsThrough(s, [ReadHello(c)], u, rest, t);
    run := [ReadHello(c)] + rest;
  }

  lemma SayHello(s: Bus, c: nat) returns (u: Bus)
    requires Inv(s) && c < |s.conns| && s.conns[c].Fresh? && Greet(s.conns[c].input).Subscribe?
    ensures Leads(s, [ReadHello(c)], u) && Inv(u)
    ensures IsSub(u, c, Joining) && u.conns[c].filter == Greet(s.conns[c].input).filter
  {
    HelloSubscribes(s, c);
    LeadsOne(s, ReadHello(c));
    BS.StepKeepsInv(s, ReadHello(c));
    u := Do(s, ReadHello(c));
  }

  lemma HelloSubscribes(s: Bus, c: nat)
    requires Shape(s) && c < |s.conns| && s.conns[c].Fresh? && Greet(s.conns[c].input).Subscribe?
    ensures Enabled(s, ReadHello(c))
    ensures
      var u := Do(s, ReadHello(c));
      IsSub(u, c, Joining) && u.conns[c].filter == Greet(s.conns[c].input).filter
  {
  }

  lemma InsertRegisters(s: Bus, c: nat)
    requires Shape(s) && IsSub(s, c, Joining) && RegistryFree(s)
    ensures Enabled(s, Insert(c))
    ensures
      var t := Do(s, Insert(c));
      Registered(t, c, s.conns[c].filter)
  {
  }

  ghost predicate LeaveOrDispatch(run: seq<Step>, c: nat) {
    forall n :: 0 <= n < |run| ==> ByDispatcher(run[n]) || run[n] == Remove(c) || run[n] == DropReceiver(c)
  }

  /** A subscriber whose write has failed removes itself from the registry, likewise. */
  lemma SubscriberLeaves(s0: Bus, before: seq<Step>, c: nat) returns (run: seq<Step>, t: Bus)
    requires Run(s0, before) && IsSub(After(s0, before), c, Leaving)
    ensures LeaveOrDispatch(run, c) && Leads(After(s0, before), run, t) && IsSub(t, c, Gone)
    ensures After(s0, before).conns[c].id !in t.registry
  {
    BS.RunKeepsInv(s0, before);
    run, t := LeaverLeaves(After(s0, before), c);
  }

  lemma LeaverLeaves(s: Bus, c: nat) returns (run: seq<Step>, t: Bus)
    requires Inv(s) && IsSub(s, c, Leaving)
    ensures LeaveOrDispatch(run, c) && Leads(s, run, t) && IsSub(t, c, Gone) && s.conns[c].id !in t.registry
  {
    var wait, u := RegistryBecomesFree(s, c);
    t := RemoveAndDrop(u, c);
    run := ThenLeave(s, wait, u, t, c);
  }

  lemma ThenLeave(s: Bus, wait: seq<Step>, u: Bus, t: Bus, c: nat) returns (run: seq<Step>)
    requires OnlyDispatcher(wait) && Leads(s, wait, u) && Leads(u, [Remove(c), DropReceiver(c)], t)
    ensures LeaveOrDispatch(run, c) && Leads(s, run, t)
  {
    LeadsThrough(s, wait, u, [Remove(c), DropReceiver(c)], t);
    run := wait + [Remove(c), DropReceiver(c)];
  }

  lemma RemoveAndDrop(s: Bus, c: nat) returns (t: Bus)
    requires Shape(s) && IsSub(s, c, Leaving) && RegistryFree(s)
    ensures Leads(s, [Remove(c), DropReceiver(c)], t) && IsSub(t, c, Gone) && s.conns[c].id !in t.registry
  {
    LeadsOne(s, Remove(c));
    var u := Do(s, Remove(c));
    LeadsStep(s, [Remove(c)], u, DropReceiver(c));
    assert [Remove(c)] + [DropReceiver(c)] == [Remove(c), DropReceiver(c)];
    t := Do(u, DropReceiver(c));
  }

  // ---- A publisher publishes its whole stream ----

  /** Steps of publisher `c` and of the dispatch thread. */
  ghost predicate PublisherOrDispatch(run: seq<Step>, c: nat) {
    forall n :: 0 <= n < |run| ==> ByDispatcher(run[n]) || InCall(run[n], c) || run[n] == ReadFrame(c)
  }

  /** Publisher `c` is between calls or about to make one. */
  ghost predicate BetweenCalls(s: Bus, c: nat) {
    IsPub(s, c, AwaitFrame) || IsPub(s, c, WantLock) || IsPub(s, c, Ended)
  }

  /** How many frames of publisher `c` are still to be published. */
  ghost function ToPublish(s: Bus, c: nat): nat
    requires BetweenCalls(s, c)
  {
    var k := s.conns[c];
    if k.pub.Ended? then 0 else |Accepted(k.rest)| + if k.pub.WantLock? then 1 else 0
  }

  lemma PublishOneMore(s: Bus, c: nat) returns (run: seq<Step>, t: Bus)
    requires Inv(s) && s.lock.None? && IsPub(s, c, WantLock) && |s.ring.log| < R.MAX_MESSAGES
    ensures PublisherOrDispatch(run, c) && Leads(s, run, t) && Inv(t) && t.lock.None?
    ensures |t.ring.log| == |s.ring.log| + 1
    ensures IsPub(t, c, AwaitFrame)
    ensures t.conns[c] == s.conns[c].(pub := AwaitFrame, at := s.conns[c].at + [|s.ring.log|])
  {
    FreeLockFacts(s, s, c);
    var dispatch, u := RoomIsMade(s);
    var publish;
    publish, t := PublishAtLock(u, c, 0);
    LeadsThrough(s, dispatch, u, publish, t);
    run := dispatch + publish;
  }

  lemma ThenPublish(s: Bus, first: seq<Step>, u: Bus, rest: seq<Step>, t: Bus, c: nat) returns (run: seq<Step>)
    requires PublisherOrDispatch(first, c) && PublisherOrDispatch(rest, c) && Leads(s, first, u) && Leads(u, rest, t)
    ensures PublisherOrDispatch(run, c) && Leads(s, run, t)
  {
    LeadsThrough(s, first, u, rest, t);
    run := first + rest;
  }

  lemma ReadNext(s: Bus, c: nat)
    requires Shape(s) && s.lock.None? && IsPub(s, c, AwaitFrame)
    ensures Enabled(s, ReadFrame(c))
    ensures
      var t := Do(s, ReadFrame(c));
      && t.lock.None? && t.ring == s.ring && BetweenCalls(t, c) && ToPublish(t, c) == ToPublish(s, c)
      && t.conns[c].input == s.conns[c].input
      && ((IsPub(t, c, Ended) && t.conns[c].rest == s.conns[c].rest) || (IsPub(t, c, WantLock) && |t.conns[c].rest| < |s.conns[c].rest|))
  {
  }

  lemma {:induction false} PublishRest(s: Bus, c: nat) returns (run: seq<Step>, t: Bus)
    requires Inv(s) && s.lock.None? && BetweenCalls(s, c)
    requires |s.ring.log| + ToPublish(s, c) <= R.MAX_MESSAGES
    ensures PublisherOrDispatch(run, c) && Leads(s, run, t) && Inv(t) && IsPub(t, c, Ended)
    ensures t.conns[c].input == s.conns[c].input
    decreases |s.conns[c].rest|, if IsPub(s, c, WantLock) then 2 else if IsPub(s, c, AwaitFrame) then 1 else 0
  {
    if IsPub(s, c, Ended) {
      run, t := [], s;
      LeadsNowhere(s);
    } else {
      var first, u := OneStepOfStream(s, c);
      var rest;
      rest, t := PublishRest(u, c);
      run := ThenPublish(s, first, u, rest, t, c);
    }
  }

  /** A frame is read, or one that was read is published. */
  lemma OneStepOfStream(s: Bus, c: nat) returns (run: seq<Step>, t: Bus)
    requires Inv(s) && s.lock.None? && BetweenCalls(s, c) && !IsPub(s, c, Ended)
    requires |s.ring.log| + ToPublish(s, c) <= R.MAX_MESSAGES
    ensures PublisherOrDispatch(run, c) && Leads(s, run, t) && Inv(t) && t.lock.None? && BetweenCalls(t, c)
    ensures |t.ring.log| + ToPublish(t, c) == |s.ring.log| + ToPublish(s, c)
    ensures t.conns[c].input == s.conns[c].input
    ensures if IsPub(s, c, WantLock) then IsPub(t, c, AwaitFrame) && t.conns[c].rest == s.conns[c].rest
            else if IsPub(t, c, Ended) then t.conns[c].rest == s.conns[c].rest
            else IsPub(t, c, WantLock) && |t.conns[c].rest| < |s.conns[c].rest|
  {
    if IsPub(s, c, WantLock) {
      run, t := PublishOneMore(s, c);
    } else {
      t := ReadOneFrame(s, c);
      run := [ReadFrame(c)];
    }
  }

  lemma ReadOneFrame(s: Bus, c: nat) returns (t: Bus)
    requires Inv(s) && s.lock.None? && IsPub(s, c, AwaitFrame)
    ensures Leads(s, [ReadFrame(c)], t) && Inv(t) && t.lock.None? && t.ring == s.ring
    ensures BetweenCalls(t, c) && ToPublish(t, c) == ToPublish(s, c) && t.conns[c].input == s.conns[c].input
    ensures if IsPub(t, c, Ended) then t.conns[c].rest == s.conns[c].rest
            else IsPub(t, c, WantLock) && |t.conns[c].rest| < |s.conns[c].rest|
  {
    ReadNext(s, c);
    LeadsOne(s, ReadFrame(c));
    BS.StepKeepsInv(s, ReadFrame(c));
    t := Do(s, ReadFrame(c));
  }

  /** A publisher that has ended has published everything the bus accepts from its stream. */
  lemma EndedIsAll(s: Bus, c: nat)
    requires Inv(s) && IsPub(s, c, Ended)
    ensures s.conns[c].frames == Accepted(s.conns[c].input) && |s.conns[c].at| == |s.conns[c].frames|
  {
    BT.PubFacts(s, c);
  }

  /** The holder of the lock ends its call, and publisher `c`, the holder or not, is between calls. */
  lemma HolderMakesWay(s: Bus, c: nat) returns (run: seq<Step>, t: Bus)
    requires Inv(s) && c < |s.conns| && s.conns[c].Pub?
    ensures Leads(s, run, t) && Inv(t) && t.lock.None? && BetweenCalls(t, c)
    ensures if s.lock.None? then run == [] else OnlyPublisher(run, s.lock.value)
    ensures t.conns[c].input == s.conns[c].input
    ensures |t.ring.log| <= |s.ring.log| + 1 && ToPublish(t, c) <= |Accepted(s.conns[c].input)|
  {
    run, t := LockBecomesFree(s);
    NotInCall(t, c, s);
    BT.PubFacts(t, c);
  }

  lemma NotInCall(t: Bus, c: nat, s: Bus)
    requires Inv(s) && Inv(t) && t.lock.None? && c < |s.conns| && s.conns[c].Pub?
    requires if s.lock.None? then t == s else CallEnded(s, t, s.lock.value)
    ensures BetweenCalls(t, c) && t.conns[c].input == s.conns[c].input && |t.ring.log| <= |s.ring.log| + 1
  {
    assert IsPub(t, c, InPublish) ==> t.lock == Some(c);
  }

  /** From every reachable state a publisher's thread can publish everything the bus accepts from its
      stream: after the holder of the lock has ended its call, by its own steps and those of the dispatch
      thread. */
  lemma PublisherFinishes(s0: Bus, before: seq<Step>, c: nat) returns (holder: seq<Step>, run: seq<Step>, t: Bus)
    requires Run(s0, before) && c < |After(s0, before).conns| && After(s0, before).conns[c].Pub?
    requires |After(s0, before).ring.log| + 1 + |Accepted(After(s0, before).conns[c].input)| <= R.MAX_MESSAGES
    ensures
      var s := After(s0, before);
      && (if s.lock.None? then holder == [] else OnlyPublisher(holder, s.lock.value))
      && PublisherOrDispatch(run, c) && Leads(s, holder + run, t) && IsPub(t, c, Ended)
      && t.conns[c].input == s.conns[c].input
      && t.conns[c].frames == Accepted(s.conns[c].input) && |t.conns[c].at| == |t.conns[c].frames|
  {
    BS.RunKeepsInv(s0, before);
    var s, u := After(s0, before), After(s0, before);
    holder, u := HolderMakesWay(s, c);
    run, t := PublishRest(u, c);
    LeadsThrough(s, holder, u, run, t);
    EndedIsAll(t, c);
  }

  /** A connection that publishes becomes a publisher with its first frame read. */
  lemma PublisherStarts(s0: Bus, before: seq<Step>, c: nat)
    requires Run(s0, before) && c < |After(s0, before).conns| && After(s0, before).conns[c].Fresh?
    requires Greet(After(s0, before).conns[c].input).Publish?
    ensures Enabled(After(s0, before), ReadHello(c))
    ensures
      var s, t := After(s0, before), Do(After(s0, before), ReadHello(c));
      IsPub(t, c, WantLock) && t.conns[c].input == s.conns[c].input
      && t.conns[c].frames == [Greet(s.conns[c].input).first]
  {
    HelloPublishes(After(s0, before), c);
  }

  lemma HelloPublishes(s: Bus, c: nat)
    requires Shape(s) && c < |s.conns| && s.conns[c].Fresh? && Greet(s.conns[c].input).Publish?
    ensures Enabled(s, ReadHello(c))
    ensures
      var t := Do(s, ReadHello(c));
      IsPub(t, c, WantLock) && t.conns[c].input == s.conns[c].input
      && t.conns[c].frames == [Greet(s.conns[c].input).first]
  {
  }
}
