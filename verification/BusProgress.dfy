/** The dispatch thread is never blocked, whatever the subscriber queues look like, and so a waiting
    publisher can always complete. */
module BusProgress {
  import opened Words
  import opened Slots
  import opened Sequences
  import opened Options
  import opened BusProtocol
  import opened BusInvariant
  import BS = BusSafety
  import R = RingProtocol
  import RS = RingSafety
  import RP = RingProgress

  /** Steps of the dispatch thread. */
  ghost predicate ByDispatcher(a: Step) {
    || (a.Ring? && (a.a.LoadCursor? || a.a.LoadStamp? || a.a.ReadCell? || a.a.Deliver? || a.a.Retry?))
    || ByFanOut(a)
  }

  /** There is a published message the dispatch thread has not finished. */
  ghost predicate HasWork(s: Bus) {
    Inv(s) && s.ring.cursors[0] < |s.ring.log|
  }

  /** How far the dispatch thread is from finishing its message: a stage, and steps within it. */
  ghost function Stage(s: Bus): nat
    requires Shape(s)
  {
    match DispatchPhase(s)
    case Behind(_) => 7
    case Ready => 6
    case Polling(_) => 5
    case Reading(_, _) => 4
    case Delivered(_, _) => if s.disp.Outside? then 3 else if s.disp.Fan? then 2 else 1
  }

  ghost function Left(s: Bus): nat
    requires Shape(s)
  {
    if DispatchPhase(s).Reading? then |Unread(DispatchPhase(s).got)|
    else if s.disp.Fan? then |s.disp.todo|
    else 0
  }

  ghost function Unread(got: map<nat, int>): set<nat> {
    set j: nat | j < CELLS && j !in got
  }

  ghost predicate Closer(s: Bus, t: Bus)
    requires Shape(s) && Shape(t)
  {
    Stage(t) < Stage(s) || (Stage(t) == Stage(s) && Left(t) < Left(s))
  }

  lemma NextCell(got: map<nat, int>, image: seq<int>) returns (j: nat)
    requires FIELDS <= |image| <= CELLS && image[2] == |image| - FIELDS
    requires forall i :: i in got ==> 0 <= i < |image| && got[i] == image[i]
    requires !R.ReadAll(got)
    ensures j < |image| && j !in got && (j < FIELDS || (2 in got && j < FIELDS + got[2]))
  {
    if i: nat :| i < FIELDS && i !in got {
      j := i;
    } else {
      j :| 0 <= j < |image| && j !in got;
    }
  }

  lemma OneReadLess(got: map<nat, int>, j: nat, v: int)
    requires j < CELLS && j !in got
    ensures |Unread(got[j := v])| < |Unread(got)|
  {
    assert Unread(got[j := v]) == Unread(got) - {j};
    assert j in Unread(got);
  }

  lemma ReadingFacts(s: Bus) returns (image: seq<int>)
    requires HasWork(s) && DispatchPhase(s).Reading?
    ensures FIELDS <= |image| <= CELLS && image[2] == |image| - FIELDS
    ensures forall i :: i in DispatchPhase(s).got ==> 0 <= i < |image| && DispatchPhase(s).got[i] == image[i]
  {
    RS.ReachableInv(s.ring);
    assert RS.ClientOk(s.ring, s.ring.clients[0]);
    image := Image(s.ring.log[s.ring.cursors[0]]);
  }

  lemma CanDeliver(s: Bus)
    requires Shape(s) && DispatchPhase(s).Reading? && R.ReadAll(DispatchPhase(s).got)
    ensures
      var a := Ring(R.Deliver(DISPATCHER));
      Enabled(s, a) && Closer(s, Do(s, a))
  {
  }

  lemma CanRead(s: Bus, j: nat)
    requires Shape(s) && DispatchPhase(s).Reading? && j < CELLS && j !in DispatchPhase(s).got
    requires j < FIELDS || (2 in DispatchPhase(s).got && j < FIELDS + DispatchPhase(s).got[2])
    ensures
      var a := Ring(R.ReadCell(DISPATCHER, j));
      Enabled(s, a) && Closer(s, Do(s, a))
  {
    OneReadLess(DispatchPhase(s).got, j, s.ring.cells[Index(DispatchPhase(s).next, s.ring.bits)][j]);
  }

  lemma NextRead(s: Bus) returns (a: Step)
    requires HasWork(s) && DispatchPhase(s).Reading?
    ensures a.Ring? && (a.a.ReadCell? || a.a.Deliver?) && Enabled(s, a) && Closer(s, Do(s, a))
  {
    if R.ReadAll(DispatchPhase(s).got) {
      CanDeliver(s);
      a := Ring(R.Deliver(DISPATCHER));
    } else {
      var image := ReadingFacts(s);
      var j := NextCell(DispatchPhase(s).got, image);
      CanRead(s, j);
      a := Ring(R.ReadCell(DISPATCHER, j));
    }
  }

  lemma NextPoll(s: Bus)
    requires HasWork(s) && DispatchPhase(s).Polling?
    ensures
      var a := Ring(R.LoadStamp(DISPATCHER, true));
      Enabled(s, a) && Closer(s, Do(s, a))
  {
    RS.ReachableInv(s.ring);
    assert RS.ClientOk(s.ring, s.ring.clients[0]);
    RS.LoadStampEffect(s.ring, DISPATCHER, true, DispatchPhase(s).next);
  }

  lemma CanOffer(s: Bus, id: nat)
    requires Shape(s) && RingOk(s) && RegistryOk(s) && s.disp.Fan? && id in s.disp.todo
    requires s.ring.cursors[0] < |s.ring.log|
    ensures Enabled(s, FanOne(id)) && Closer(s, DoDispatch(s, FanOne(id)))
  {
    assert id in s.registry;
    assert InRegistry(s.conns[s.registry[id].conn]);
    assert |s.disp.todo - {id}| < |s.disp.todo|;
  }

  lemma CanBeginOrEnd(s: Bus)
    requires Shape(s) && RingOk(s) && DispatchPhase(s).Delivered?
    ensures
      var m := s.ring.log[s.ring.cursors[0]];
      s.disp.Outside? ==> Enabled(s, FanBegin(m)) && Closer(s, DoDispatch(s, FanBegin(m)))
    ensures s.disp.Fanned? ==> Enabled(s, Advance)
    ensures s.disp.Fan? && s.disp.todo == {} ==> Enabled(s, FanEnd) && Closer(s, DoDispatch(s, FanEnd))
  {
  }

  lemma NextFanOut(s: Bus) returns (a: Step)
    requires Shape(s) && RingOk(s) && RegistryOk(s) && DispatchPhase(s).Delivered?
    ensures ByFanOut(a) && Enabled(s, a)
    ensures a == Advance || Closer(s, Do(s, a))
  {
    CanBeginOrEnd(s);
    if s.disp.Outside? {
      a := FanBegin(s.ring.log[s.ring.cursors[0]]);
    } else if s.disp.Fanned? {
      a := Advance;
    } else if s.disp.todo == {} {
      a := FanEnd;
    } else {
      var id :| id in s.disp.todo;
      CanOffer(s, id);
      a := FanOne(id);
    }
  }

  lemma NextCursor(s: Bus)
    requires Shape(s) && DispatchPhase(s).Ready?
    ensures
      var a := Ring(R.LoadCursor(DISPATCHER));
      Enabled(s, a) && Closer(s, Do(s, a))
  {
  }

  lemma NeverInBehind(s: Bus)
    requires Inv(s)
    ensures !DispatchPhase(s).Behind?
  {
    RS.ReachableInv(s.ring);
    assert RS.ClientOk(s.ring, s.ring.clients[0]);
  }

  /** With a message to finish, the dispatch thread always has a step, no queue and no lock can stop
      it, and every step but the last brings it closer to finishing. */
  lemma DispatcherCanStep(s: Bus) returns (a: Step)
    requires HasWork(s)
    ensures ByDispatcher(a) && Enabled(s, a)
    ensures a == Advance || Closer(s, Do(s, a))
  {
    NeverInBehind(s);
    match DispatchPhase(s) {
      case Ready =>
        NextCursor(s);
        a := Ring(R.LoadCursor(DISPATCHER));
      case Polling(_) =>
        NextPoll(s);
        a := Ring(R.LoadStamp(DISPATCHER, true));
      case Reading(_, _) => a := NextRead(s);
      case Delivered(_, _) => a := NextFanOut(s);
    }
  }

  /** The dispatch thread's progress is as it was. */
  ghost predicate SameProgress(s: Bus, t: Bus)
    requires Shape(s) && Shape(t)
  {
    Stage(t) == Stage(s) && Left(t) == Left(s) && t.ring.cursors == s.ring.cursors && s.ring.log <= t.ring.log
  }

  lemma PublishersKeepProgress(s: Bus, a: Step)
    requires Shape(s) && Enabled(s, a)
    requires ByPublisher(a)
    ensures SameProgress(s, DoPublisher(s, a))
  {
  }

  lemma SubscribersKeepProgress(s: Bus, a: Step)
    requires Shape(s) && Enabled(s, a)
    requires BySubscriber(a)
    ensures SameProgress(s, DoSubscriber(s, a))
  {
  }

  lemma ConnectionsKeepProgress(s: Bus, a: Step)
    requires Shape(s) && Enabled(s, a)
    requires a.Accept? || a.ReadHello? || (a.Ring? && !ByDispatcher(a))
    ensures SameProgress(s, DoOther(s, a))
  {
  }

  /** Nobody else can undo that progress. */
  lemma OthersKeepProgress(s: Bus, a: Step)
    requires Shape(s) && Enabled(s, a) && !ByDispatcher(a)
    ensures SameProgress(s, Do(s, a))
  {
    if ByPublisher(a) {
      PublishersKeepProgress(s, a);
    } else if a.Accept? || a.ReadHello? || a.Ring? {
      ConnectionsKeepProgress(s, a);
    } else {
      SubscribersKeepProgress(s, a);
    }
  }

  /** Every reachable state in which a message waits is one the dispatch thread can move on from. */
  lemma DispatcherNeverBlocked(s0: Bus, run: seq<Step>) returns (a: Step)
    requires Run(s0, run) && After(s0, run).ring.cursors[0] < |After(s0, run).ring.log|
    ensures ByDispatcher(a) && Enabled(After(s0, run), a)
    ensures a == Advance || Closer(After(s0, run), Do(After(s0, run), a))
  {
    BS.RunKeepsInv(s0, run);
    a := DispatcherCanStep(After(s0, run));
  }

  // ---- The dispatch thread completes its message ----

  /** `run` is a schedule of the bus from `s` that ends in `t`. */
  ghost predicate Leads(s: Bus, run: seq<Step>, t: Bus) {
    Shape(s) && Legal(s, run) && After(s, run) == t
  }

  lemma LeadsNowhere(s: Bus)
    requires Shape(s)
    ensures Leads(s, [], s)
  {
  }

  lemma LeadsStep(s: Bus, run: seq<Step>, t: Bus, a: Step)
    requires Leads(s, run, t) && Enabled(t, a)
    ensures Leads(s, run + [a], Do(t, a))
  {
    OneStepMore(s, run, a);
  }

  lemma LeadsBack(s: Bus, run: seq<Step>, t: Bus) returns (u: Bus)
    requires Leads(s, run, t) && run != []
    ensures Leads(s, Front(run), u) && Enabled(u, Last(run)) && Do(u, Last(run)) == t
  {
    LastStep(s, run);
    u := After(s, Front(run));
  }

  lemma {:induction false} LeadsThrough(s: Bus, run: seq<Step>, t: Bus, run': seq<Step>, u: Bus)
    requires Leads(s, run, t) && Leads(t, run', u)
    ensures Leads(s, run + run', u)
    decreases |run'|
  {
    if run' == [] {
      assert run + run' == run;
    } else {
      var v := LeadsBack(t, run', u);
      LeadsThrough(s, run, t, Front(run'), v);
      LeadsStep(s, run + Front(run'), v, Last(run'));
      Unsnoc(run, run');
    }
  }

  /** Nothing a publisher can see has changed, except perhaps the dispatch thread's cursor. */
  ghost predicate PublishersUndisturbed(s: Bus, t: Bus) {
    && t.ring.log == s.ring.log && t.ring.prod == s.ring.prod && t.ring.head == s.ring.head
    && t.ring.bits == s.ring.bits && t.lock == s.lock && |t.conns| == |s.conns|
    && (forall c :: 0 <= c < |s.conns| && s.conns[c].Pub? ==> t.conns[c] == s.conns[c])
  }

  lemma DispatcherDisturbsNobody(s: Bus, a: Step)
    requires Shape(s) && Enabled(s, a) && ByDispatcher(a)
    ensures PublishersUndisturbed(s, Do(s, a))
    ensures a != Advance ==> Do(s, a).ring.cursors == s.ring.cursors
  {
  }

  lemma AdvanceMoves(s: Bus)
    requires Inv(s) && Enabled(s, Advance)
    ensures Do(s, Advance).ring.cursors[0] == s.ring.cursors[0] + 1
  {
    BS.AdvanceEffect(s);
  }

  ghost predicate OnlyDispatcher(run: seq<Step>) {
    forall n :: 0 <= n < |run| ==> ByDispatcher(run[n])
  }

  lemma UndisturbedTwice(s: Bus, t: Bus, u: Bus)
    requires PublishersUndisturbed(s, t) && PublishersUndisturbed(t, u)
    ensures PublishersUndisturbed(s, u)
  {
  }

  /** Message `n` has been offered, once, to exactly the registered subscribers that had not been offered
      it before, each queue taking it or dropping it on its own; no other connection has changed. */
  ghost predicate Served(s: Bus, t: Bus, n: nat)
    requires n < |s.ring.log| && AllFit(s.ring.log)
  {
    && t.registry == s.registry && t.depth == s.depth && |t.conns| == |s.conns|
    && forall c :: 0 <= c < |s.conns| ==> t.conns[c] == AfterServing(s, n, c)
  }

  ghost function AfterServing(s: Bus, n: nat, c: nat): Conn
    requires n < |s.ring.log| && AllFit(s.ring.log) && c < |s.conns|
  {
    var k := s.conns[c];
    if InRegistry(k) && k.upTo == n then Offered(k, k.filter, s.ring.log[n], n, s.depth) else k
  }

  /** One step of the dispatch thread: it offers message `n` to one subscriber, or to nobody. */
  ghost predicate ServesOne(s: Bus, t: Bus, n: nat)
    requires n < |s.ring.log| && AllFit(s.ring.log)
  {
    && t.registry == s.registry && t.depth == s.depth
    && (t.conns == s.conns || exists c: nat :: ServesConn(s, t, n, c))
  }

  ghost predicate ServesConn(s: Bus, t: Bus, n: nat, c: nat)
    requires n < |s.ring.log| && AllFit(s.ring.log)
  {
    && c < |s.conns| && InRegistry(s.conns[c]) && s.conns[c].upTo == n
    && t.conns == s.conns[c := Offered(s.conns[c], s.conns[c].filter, s.ring.log[n], n, s.depth)]
  }

  lemma FanOneServes(s: Bus, id: nat)
    requires Shape(s) && RingOk(s) && RegistryOk(s) && PositionsOk(s) && Enabled(s, FanOne(id))
    requires s.ring.cursors[0] < |s.ring.log|
    ensures ServesOne(s, DoDispatch(s, FanOne(id)), s.ring.cursors[0])
  {
    BS.FanOneTarget(s, id);
    assert ServesConn(s, DoDispatch(s, FanOne(id)), s.ring.cursors[0], s.registry[id].conn);
  }

  lemma OthersServeNobody(s: Bus, a: Step)
    requires Shape(s) && Enabled(s, a) && ByDispatcher(a) && !a.FanOne?
    requires s.ring.cursors[0] < |s.ring.log| && AllFit(s.ring.log)
    ensures ServesOne(s, Do(s, a), s.ring.cursors[0])
  {
  }

  lemma DispatchStepServes(s: Bus, a: Step)
    requires HasWork(s) && Enabled(s, a) && ByDispatcher(a)
    ensures ServesOne(s, Do(s, a), s.ring.cursors[0])
  {
    if a.FanOne? {
      FanOneServes(s, a.id);
    } else {
      OthersServeNobody(s, a);
    }
  }

  /** When the dispatch thread advances, every registered subscriber has been offered its message. */
  lemma AdvanceFindsAllServed(s: Bus)
    requires HasWork(s) && Enabled(s, Advance)
    ensures Served(s, Do(s, Advance), s.ring.cursors[0])
  {
    forall c | 0 <= c < |s.conns| && InRegistry(s.conns[c])
      ensures s.conns[c].upTo == s.ring.cursors[0] + 1
    {
      assert s.conns[c].upTo == Position(s, s.conns[c].id);
    }
  }

  lemma ServedInTurn(s: Bus, u: Bus, t: Bus, n: nat)
    requires n < |s.ring.log| && AllFit(s.ring.log) && u.ring.log == s.ring.log
    requires ServesOne(s, u, n) && Served(u, t, n)
    ensures Served(s, t, n)
  {
  }

  lemma OneDispatchStep(s: Bus) returns (a: Step, t: Bus)
    requires HasWork(s)
    ensures ByDispatcher(a) && Leads(s, [a], t) && Inv(t) && PublishersUndisturbed(s, t)
    ensures ServesOne(s, t, s.ring.cursors[0])
    ensures if a == Advance then
              t.ring.cursors[0] == s.ring.cursors[0] + 1 && t.disp.Outside? && Served(s, t, s.ring.cursors[0])
            else t.ring.cursors[0] == s.ring.cursors[0] && HasWork(t) && Closer(s, t)
  {
    a := DispatcherCanStep(s);
    t := Do(s, a);
    BS.StepKeepsInv(s, a);
    DispatcherDisturbsNobody(s, a);
    DispatchStepServes(s, a);
    LeadsOne(s, a);
    if a == Advance {
      AdvanceMoves(s);
      AdvanceFindsAllServed(s);
    }
  }

  lemma LeadsOne(s: Bus, a: Step)
    requires Shape(s) && Enabled(s, a)
    ensures Leads(s, [a], Do(s, a))
  {
    LeadsNowhere(s);
    LeadsStep(s, [], s, a);
    assert [] + [a] == [a];
  }

  lemma ThenTheRest(s: Bus, a: Step, u: Bus, rest: seq<Step>, t: Bus) returns (run: seq<Step>)
    requires ByDispatcher(a) && OnlyDispatcher(rest) && Leads(s, [a], u) && Leads(u, rest, t)
    requires PublishersUndisturbed(s, u) && PublishersUndisturbed(u, t)
    ensures OnlyDispatcher(run) && Leads(s, run, t) && PublishersUndisturbed(s, t)
  {
    LeadsThrough(s, [a], u, rest, t);
    UndisturbedTwice(s, u, t);
    run := [a] + rest;
  }

  /** By its own steps alone the dispatch thread finishes its message, full queues or not, and in doing
      so serves every registered subscriber that was still waiting for this message. */
  lemma {:induction false} DispatchCompletes(s: Bus) returns (run: seq<Step>, t: Bus)
    requires HasWork(s)
    ensures OnlyDispatcher(run) && Leads(s, run, t) && Inv(t)
    ensures PublishersUndisturbed(s, t) && t.ring.cursors[0] == s.ring.cursors[0] + 1 && t.disp.Outside?
    ensures Served(s, t, s.ring.cursors[0])
    decreases Stage(s), Left(s)
  {
    var a, u := OneDispatchStep(s);
    if a == Advance {
      run, t := [a], u;
    } else {
      var rest;
      rest, t := DispatchCompletes(u);
      run := ThenTheRest(s, a, u, rest, t);
      ServedInTurn(s, u, t, s.ring.cursors[0]);
    }
  }

  /** What that means for each subscriber: the fate of the message there. */
  lemma ServedFate(s: Bus, t: Bus, n: nat, c: nat)
    requires Inv(s) && n < |s.ring.log| && Served(s, t, n)
    requires c < |s.conns| && InRegistry(s.conns[c]) && s.conns[c].upTo == n
    ensures BS.FateOf(s.conns[c], t.conns[c], s.ring.log[n], n, s.depth)
    ensures t.conns[c].upTo == n + 1
  {
    assert SubOk(s.ring.log, s.depth, s.conns[c]);
    BS.OfferedFate(s.ring.log, s.conns[c], n, s.depth);
  }

  // ---- The publisher that holds the lock finishes ----

  /** Steps of publisher `c` in its publish call. */
  ghost predicate InCall(a: Step, c: nat) {
    || (a.Ring? && (a.a.ScanCursor? || a.a.WriteCell?))
    || (a.BeginPublish? && a.c == c) || a == Decide(c) || a == StoreStamp(c) || a == StoreHead(c)
  }

  ghost predicate OnlyPublisher(run: seq<Step>, c: nat) {
    forall n :: 0 <= n < |run| ==> InCall(run[n], c)
  }

  ghost function NextInCall(s: Bus, c: nat): Step {
    match s.ring.prod
    case Scanning(_, _, i, _) => if i == R.MAX_CONSUMERS then Decide(c) else Ring(R.ScanCursor)
    case Writing(m, _, j) => if j == |Image(m)| then StoreStamp(c) else Ring(R.WriteCell)
    case _ => StoreHead(c)
  }

  ghost function CallStage(s: Bus): nat {
    match s.ring.prod
    case Scanning(_, _, _, _) => 3
    case Writing(_, _, _) => 2
    case Stamped(_) => 1
    case Idle => 0
  }

  ghost function CallLeft(s: Bus): nat
    requires Shape(s)
  {
    match s.ring.prod
    case Scanning(_, _, i, _) => R.MAX_CONSUMERS - i
    case Writing(m, _, j) => |Image(m)| - j
    case _ => 0
  }

  /** Nothing has changed that does not belong to publisher `c` or to the publish in flight. */
  ghost predicate OnlyConn(s: Bus, t: Bus, c: nat) {
    && c < |s.conns| == |t.conns| && (forall d :: 0 <= d < |s.conns| && d != c ==> t.conns[d] == s.conns[d])
    && t.ring.cursors == s.ring.cursors && t.ring.clients == s.ring.clients && t.ring.bits == s.ring.bits
    && t.disp == s.disp && t.registry == s.registry && t.depth == s.depth
  }

  ghost predicate Published(s: Bus, t: Bus, c: nat)
    requires s.ring.prod.Scanning? || s.ring.prod.Writing?
  {
    && IsPub(s, c, InPublish) && IsPub(t, c, AwaitFrame)
    && t.ring.log == s.ring.log + [s.ring.prod.msg]
    && t.conns[c] == s.conns[c].(pub := AwaitFrame, at := s.conns[c].at + [|s.ring.log|])
  }

  /** The call has ended: refused, with the frame still to be published, or with it published. It is not
      refused if the scan passes so far and nobody is a lap behind. */
  ghost predicate CallEnded(s: Bus, t: Bus, c: nat) {
    && OnlyConn(s, t, c) && t.lock.None? && IsPub(s, c, InPublish)
    && match s.ring.prod
       case Scanning(_, _, _, _) =>
         || Published(s, t, c)
         || (!RP.ScanPasses(s.ring) && t.ring.log == s.ring.log && t.conns[c] == s.conns[c].(pub := WantLock))
       case Writing(_, _, _) => Published(s, t, c)
       case Stamped(_) => t.ring.log == s.ring.log && t.conns[c] == s.conns[c].(pub := AwaitFrame)
       case Idle => false
  }

  /** One step further into the call. */
  ghost predicate CallMoved(s: Bus, t: Bus, c: nat)
    requires Shape(s) && Shape(t)
  {
    && OnlyConn(s, t, c) && t.lock == s.lock && IsPub(s, c, InPublish) && IsPub(t, c, InPublish)
    && (CallStage(t) < CallStage(s) || (CallStage(t) == CallStage(s) && CallLeft(t) < CallLeft(s)))
    && if s.ring.prod.Writing? && t.ring.prod.Stamped? then
         t.ring.log == s.ring.log + [s.ring.prod.msg]
         && t.conns[c] == s.conns[c].(at := s.conns[c].at + [|s.ring.log|])
       else
         && (s.ring.prod.Scanning? || s.ring.prod.Writing?) && (t.ring.prod.Scanning? || t.ring.prod.Writing?)
         && t.ring.prod.msg == s.ring.prod.msg && t.ring.log == s.ring.log && t.conns == s.conns
         && (RP.ScanPasses(s.ring) && t.ring.prod.Scanning? ==> RP.ScanPasses(t.ring))
  }

  lemma HolderCanStep(s: Bus, c: nat)
    requires Inv(s) && s.lock == Some(c)
    ensures Enabled(s, NextInCall(s, c)) && IsPub(s, c, InPublish) && !s.ring.prod.Idle?
  {
  }

  lemma InnerCallStep(s: Bus, c: nat, a: R.Step)
    requires Shape(s) && RS.Inv(s.ring) && s.lock == Some(c) && IsPub(s, c, InPublish)
    requires Enabled(s, Ring(a)) && (a.ScanCursor? || a.WriteCell?)
    ensures CallMoved(s, DoOther(s, Ring(a)), c)
  {
    if a.ScanCursor? && RP.ScanPasses(s.ring) {
      RP.ScanStillPasses(s.ring);
    }
  }

  lemma OuterCallStep(s: Bus, c: nat)
    requires Shape(s) && RS.Inv(s.ring) && s.lock == Some(c) && IsPub(s, c, InPublish) && !s.ring.prod.Idle?
    requires !NextInCall(s, c).Ring? && Enabled(s, NextInCall(s, c))
    ensures
      var t := DoPublisher(s, NextInCall(s, c));
      CallEnded(s, t, c) || CallMoved(s, t, c)
  {
  }

  lemma CallStep(s: Bus, c: nat)
    requires Shape(s) && RS.Inv(s.ring) && s.lock == Some(c) && IsPub(s, c, InPublish) && !s.ring.prod.Idle?
    requires Enabled(s, NextInCall(s, c))
    ensures
      var t := Do(s, NextInCall(s, c));
      CallEnded(s, t, c) || CallMoved(s, t, c)
  {
    var a := NextInCall(s, c);
    if a.Ring? {
      InnerCallStep(s, c, a.a);
    } else {
      OuterCallStep(s, c);
    }
  }

  lemma CallMovesOn(s: Bus, c: nat) returns (a: Step, t: Bus)
    requires Inv(s) && s.lock == Some(c)
    ensures InCall(a, c) && Leads(s, [a], t) && Inv(t)
    ensures CallEnded(s, t, c) || CallMoved(s, t, c)
  {
    HolderCanStep(s, c);
    RS.ReachableInv(s.ring);
    CallStep(s, c);
    a := NextInCall(s, c);
    t := Do(s, a);
    LeadsOne(s, a);
    BS.StepKeepsInv(s, a);
  }

  lemma EndedInTurn(s: Bus, u: Bus, t: Bus, c: nat)
    requires Shape(s) && Shape(u) && CallMoved(s, u, c) && CallEnded(u, t, c)
    ensures CallEnded(s, t, c)
  {
  }

  lemma ThenTheCall(s: Bus, a: Step, u: Bus, rest: seq<Step>, t: Bus, c: nat) returns (run: seq<Step>)
    requires InCall(a, c) && OnlyPublisher(rest, c) && Leads(s, [a], u) && Leads(u, rest, t)
    ensures OnlyPublisher(run, c) && Leads(s, run, t)
  {
    LeadsThrough(s, [a], u, rest, t);
    run := [a] + rest;
  }

  /** Wherever the publish call of the lock's holder stands, the holder ends it by its own steps alone
      and releases the lock. */
  lemma {:induction false} HolderFinishes(s: Bus, c: nat) returns (run: seq<Step>, t: Bus)
    requires Inv(s) && s.lock == Some(c)
    ensures OnlyPublisher(run, c) && Leads(s, run, t) && Inv(t) && CallEnded(s, t, c)
    decreases CallStage(s), CallLeft(s)
  {
    var a, u := CallMovesOn(s, c);
    if CallEnded(s, u, c) {
      run, t := [a], u;
    } else {
      var rest;
      rest, t := HolderFinishes(u, c);
      EndedInTurn(s, u, t, c);
      run := ThenTheCall(s, a, u, rest, t, c);
    }
  }

  // ---- A waiting publisher completes ----

  lemma CallBegins(s: Bus, c: nat, now: u64)
    requires Shape(s) && s.lock.None? && IsPub(s, c, WantLock) && s.ring.head < R.MAX_MESSAGES && s.ring.prod.Idle?
    requires !exists i: nat :: RP.LapBehind(s.ring, i)
    ensures Enabled(s, BeginPublish(c, now))
    ensures
      var u := Do(s, BeginPublish(c, now));
      && u.lock == Some(c) && u.conns == s.conns[c := s.conns[c].(pub := InPublish)] && u.ring.log == s.ring.log
      && u.ring.prod.Scanning? && u.ring.prod.msg == ToMsg(Last(s.conns[c].frames), now) && RP.ScanPasses(u.ring)
  {
    var u := DoPublisher(s, BeginPublish(c, now));
    assert forall i: nat :: RP.LapBehind(u.ring, i) ==> RP.LapBehind(s.ring, i);
  }

  /** A publisher at the free lock, with nobody a lap behind, publishes its frame by its own steps. */
  lemma PublishAtLock(s: Bus, c: nat, now: u64) returns (run: seq<Step>, t: Bus)
    requires Inv(s) && s.lock.None? && IsPub(s, c, WantLock) && s.ring.head < R.MAX_MESSAGES
    requires !exists i: nat :: RP.LapBehind(s.ring, i)
    ensures OnlyPublisher(run, c) && Leads(s, run, t) && Inv(t) && t.lock.None?
    ensures t.ring.log == s.ring.log + [ToMsg(Last(s.conns[c].frames), now)]
    ensures IsPub(t, c, AwaitFrame)
    ensures t.conns[c] == s.conns[c].(pub := AwaitFrame, at := s.conns[c].at + [|s.ring.log|])
  {
    var a := BeginPublish(c, now);
    var u := Do(s, a);
    CallBegins(s, c, now);
    LeadsOne(s, a);
    BS.StepKeepsInv(s, a);
    var rest;
    rest, t := HolderFinishes(u, c);
    run := ThenTheCall(s, a, u, rest, t, c);
  }

  /** The lock becomes free by the steps of its holder, if it has one. */
  lemma LockBecomesFree(s: Bus) returns (run: seq<Step>, t: Bus)
    requires Inv(s)
    ensures Leads(s, run, t) && Inv(t) && t.lock.None?
    ensures s.lock.None? ==> run == [] && t == s
    ensures s.lock.Some? ==> OnlyPublisher(run, s.lock.value) && CallEnded(s, t, s.lock.value)
  {
    if s.lock.None? {
      run, t := [], s;
      LeadsNowhere(s);
    } else {
      run, t := HolderFinishes(s, s.lock.value);
    }
  }

  /** The dispatch thread makes room, if the ring is full. */
  lemma RoomIsMade(s: Bus) returns (run: seq<Step>, t: Bus)
    requires Inv(s) && s.ring.prod.Idle?
    ensures OnlyDispatcher(run) && Leads(s, run, t) && Inv(t) && PublishersUndisturbed(s, t)
    ensures !exists i: nat :: RP.LapBehind(t.ring, i)
  {
    run, t := [], s;
    LeadsNowhere(s);
    if exists i: nat :: RP.LapBehind(s.ring, i) {
      OnlyTheDispatcherLags(s);
      run, t := DispatchCompletes(s);
    }
    NobodyLags(s, t);
  }

  /** A publisher waiting at the lock publishes its frame, whoever holds the lock and wherever that call
      stands: the holder ends its call, the dispatch thread finishes at most one message to make room, and
      the publisher's own call goes through. No subscriber, however slow, is needed for that. */
  lemma WaitingPublisherCompletes(s0: Bus, before: seq<Step>, c: nat, now: u64)
    returns (holder: seq<Step>, u: Bus, dispatch: seq<Step>, publish: seq<Step>, t: Bus)
    requires Run(s0, before) && IsPub(After(s0, before), c, WantLock)
    requires |After(s0, before).ring.log| + 1 < R.MAX_MESSAGES
    ensures
      var s := After(s0, before);
      && Leads(s, holder, u) && Leads(u, dispatch + publish, t)
      && (if s.lock.None? then holder == [] && u == s
          else OnlyPublisher(holder, s.lock.value) && CallEnded(s, u, s.lock.value))
      && OnlyDispatcher(dispatch) && OnlyPublisher(publish, c)
      && IsPub(t, c, AwaitFrame) && t.lock.None?
      && t.ring.log == u.ring.log + [ToMsg(Last(s.conns[c].frames), now)]
      && t.conns[c].at == s.conns[c].at + [|u.ring.log|]
  {
    BS.RunKeepsInv(s0, before);
    var s, v := After(s0, before), After(s0, before);
    holder, u := LockBecomesFree(s);
    FreeLockFacts(s, u, c);
    dispatch, v := RoomIsMade(u);
    publish, t := PublishAtLock(v, c, now);
    LeadsThrough(u, dispatch, v, publish, t);
  }

  lemma FreeLockFacts(s: Bus, u: Bus, c: nat)
    requires Inv(s) && Inv(u) && IsPub(s, c, WantLock) && u.lock.None?
    requires if s.lock.None? then u == s else CallEnded(s, u, s.lock.value)
    ensures u.ring.prod.Idle? && u.ring.head == |u.ring.log| <= |s.ring.log| + 1
    ensures IsPub(u, c, WantLock) && u.conns[c] == s.conns[c]
  {
    RS.ReachableInv(u.ring);
  }

  lemma OnlyTheDispatcherLags(s: Bus)
    requires Inv(s) && s.ring.prod.Idle?
    ensures |s.ring.log| == s.ring.head <= s.ring.cursors[0] + Pow2(s.ring.bits)
    ensures (exists i: nat :: RP.LapBehind(s.ring, i)) ==> s.ring.cursors[0] < |s.ring.log|
  {
    RS.ReachableInv(s.ring);
    assert RS.ClientOk(s.ring, s.ring.clients[0]);
  }

  lemma NobodyLags(s: Bus, u: Bus)
    requires Inv(s) && Inv(u) && s.ring.prod.Idle? && PublishersUndisturbed(s, u)
    requires if exists i: nat :: RP.LapBehind(s.ring, i) then u.ring.cursors[0] == s.ring.cursors[0] + 1 else u == s
    ensures !exists i: nat :: RP.LapBehind(u.ring, i)
  {
    OnlyTheDispatcherLags(s);
    assert forall i: nat :: RP.LapBehind(u.ring, i) ==> i == 0;
  }
}
