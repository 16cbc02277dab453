/** The whole bus as a concurrent system: connections, publisher threads sharing one mutex, the ring
    with all its atomic steps, the dispatch thread, and the subscriber threads with their queues. */
module BusProtocol {
  import opened Words
  import opened Slots
  import opened Sequences
  import opened Header
  import opened Framing
  import opened Handshake
  import opened Options
  import R = RingProtocol

  /** A queued frame; `n` is its message's number in the ring's log. */
  datatype Item = Item(n: nat, bytes: seq<u8>)

  datatype PubPhase = AwaitFrame | WantLock | InPublish | Ended

  /** A subscriber thread. Joining: has its id. Registered from Waiting to Leaving. Left: removed from
      the registry. Gone: has dropped its receiver. */
  datatype SubPhase = Joining | Waiting | Sending(item: Item) | Leaving | Left | Gone

  /** What became of a matching message that was fanned out: queued or dropped. */
  datatype Fate = Fate(n: nat, kept: bool)

  /** A connection thread. `frames`, `at`, `joinAt`, `upTo`, `fates` and `taken` are history:
      the frames read so far, the log numbers of those published, the message numbers between which
      the subscriber was registered, the fates of its messages, and the numbers taken from its queue. */
  datatype Conn =
    | Fresh(input: seq<u8>)
    | Closed
    | Pub(input: seq<u8>, rest: seq<u8>, frames: seq<Frame>, at: seq<nat>, pub: PubPhase)
    | Sub(input: seq<u8>, id: nat, filter: Filter, inbox: seq<Item>, out: seq<u8>, sub: SubPhase,
          joinAt: nat, upTo: nat, fates: seq<Fate>, taken: seq<nat>)

  /** A registry entry; `conn` is the other end of its queue. */
  datatype Entry = Entry(conn: nat, filter: Filter)

  /** The dispatch thread's callback: not in it, fanning out under the registry lock, or finished. */
  datatype Dispatch = Outside | Fan(msg: Msg, todo: set<nat>) | Fanned

  datatype Bus = Bus(
    ring: R.State,
    depth: nat,
    lock: Option<nat>,
    nextId: nat,
    registry: map<nat, Entry>,
    disp: Dispatch,
    conns: seq<Conn>,
    origin: seq<nat>)

  datatype Step =
    | Ring(a: R.Step)
    | Accept(input: seq<u8>)
    | ReadHello(c: nat)
    | ReadFrame(c: nat)
    | BeginPublish(c: nat, now: u64)
    | Decide(c: nat)
    | StoreStamp(c: nat)
    | StoreHead(c: nat)
    | Insert(c: nat)
    | FanBegin(m: Msg)
    | FanOne(id: nat)
    | FanEnd
    | Advance
    | Recv(c: nat)
    | RecvClosed(c: nat)
    | Send(c: nat)
    | SendFails(c: nat, k: nat)
    | Remove(c: nat)
    | DropReceiver(c: nat)

  /** The dispatch thread's consumer is the ring's only client. */
  const DISPATCHER: nat := 0

  /** Ring steps that touch nothing but the ring. */
  predicate Internal(a: R.Step) {
    || a.ScanCursor? || a.WriteCell?
    || a == R.LoadCursor(DISPATCHER) || (a.LoadStamp? && a.k == DISPATCHER)
    || (a.ReadCell? && a.k == DISPATCHER) || a == R.Deliver(DISPATCHER) || a == R.Retry(DISPATCHER)
  }

  ghost predicate Shape(s: Bus) {
    && R.Shape(s.ring)
    && |s.ring.clients| == 1 && s.ring.clients[0].Holding? && s.ring.clients[0].id == 0
    && (forall c :: 0 <= c < |s.conns| && s.conns[c].Pub? && s.conns[c].pub in {WantLock, InPublish} ==>
          s.conns[c].frames != [] && Small(Last(s.conns[c].frames)))
  }

  ghost function DispatchPhase(s: Bus): R.Phase
    requires Shape(s)
  {
    s.ring.clients[0].phase
  }

  /** The number of the next message the dispatch thread will fan out. */
  ghost function NextFan(s: Bus): nat
    requires Shape(s)
  {
    s.ring.cursors[0] + if s.disp.Fanned? then 1 else 0
  }

  ghost predicate IsPub(s: Bus, c: nat, p: PubPhase) {
    c < |s.conns| && s.conns[c].Pub? && s.conns[c].pub == p
  }

  ghost predicate IsSub(s: Bus, c: nat, p: SubPhase) {
    c < |s.conns| && s.conns[c].Sub? && s.conns[c].sub == p
  }

  ghost predicate IsSending(s: Bus, c: nat) {
    c < |s.conns| && s.conns[c].Sub? && s.conns[c].sub.Sending?
  }

  ghost predicate RegistryFree(s: Bus) {
    !s.disp.Fan?
  }

  /** The entry in the registry still holds the sender of connection `c`'s queue. */
  ghost predicate HasSender(s: Bus, c: nat) {
    exists id :: id in s.registry && s.registry[id].conn == c
  }

  function ToMsg(f: Frame, now: u64): Msg {
    Msg(f.header.channelId, f.header.msgType, now, f.payload)
  }

  /** The frame the dispatch thread builds from a slot. */
  function FromMsg(m: Msg): Frame
    requires Fits(m)
  {
    Frame(MsgHeader(m.msgType, m.channelId, m.timestampNs, |m.payload|), m.payload)
  }

  /** The bytes are one frame, and it carries exactly the message, timestamp included. */
  ghost predicate IsFrameOf(bytes: seq<u8>, m: Msg) {
    && |Parse(bytes)| == 1 && |bytes| == HEADER_SIZE + |m.payload|
    && var g := Parse(bytes)[0];
       && g.header.channelId == m.channelId && g.header.msgType == m.msgType
       && g.header.timestampNs == m.timestampNs && g.payload == m.payload
  }

  lemma WireIsFrame(m: Msg)
    requires Fits(m)
    ensures IsFrameOf(Wire(FromMsg(m)), m)
  {
    ParseOne(FromMsg(m));
  }

  ghost predicate Enabled(s: Bus, a: Step)
    requires Shape(s)
  {
    match a
    case Ring(a) => Internal(a) && R.Enabled(s.ring, a)
    case Accept(input) => true
    case ReadHello(c) => c < |s.conns| && s.conns[c].Fresh?
    case ReadFrame(c) => IsPub(s, c, AwaitFrame)
    case BeginPublish(c, now) =>
      IsPub(s, c, WantLock) && s.lock.None?
      && R.Enabled(s.ring, R.LoadHead(ToMsg(Last(s.conns[c].frames), now)))
    case Decide(c) => IsPub(s, c, InPublish) && s.lock == Some(c) && R.Enabled(s.ring, R.Decide)
    case StoreStamp(c) => IsPub(s, c, InPublish) && s.lock == Some(c) && R.Enabled(s.ring, R.StoreStamp)
    case StoreHead(c) => IsPub(s, c, InPublish) && s.lock == Some(c) && R.Enabled(s.ring, R.StoreHead)
    case Insert(c) => IsSub(s, c, Joining) && RegistryFree(s)
    case FanBegin(m) =>
      && s.disp.Outside? && DispatchPhase(s).Delivered?
      && Fits(m) && DispatchPhase(s).image == Image(m)
    case FanOne(id) =>
      && s.disp.Fan? && id in s.disp.todo && id in s.registry
      && s.registry[id].conn < |s.conns| && s.conns[s.registry[id].conn].Sub?
      && Fits(s.disp.msg)
    case FanEnd => s.disp.Fan? && s.disp.todo == {}
    case Advance => s.disp.Fanned? && R.Enabled(s.ring, R.StoreCursor(DISPATCHER))
    case Recv(c) => IsSub(s, c, Waiting) && s.conns[c].inbox != []
    case RecvClosed(c) => IsSub(s, c, Waiting) && s.conns[c].inbox == [] && !HasSender(s, c)
    case Send(c) => IsSending(s, c)
    case SendFails(c, k) => IsSending(s, c) && k < |s.conns[c].sub.item.bytes|
    case Remove(c) => IsSub(s, c, Leaving) && RegistryFree(s)
    case DropReceiver(c) => IsSub(s, c, Left)
  }

  function SetConn(s: Bus, c: nat, k: Conn): Bus
    requires c < |s.conns|
  {
    s.(conns := s.conns[c := k])
  }

  /** What a fresh connection becomes once its first frame is read. */
  function Greeted(input: seq<u8>, nextId: nat): Conn {
    match Greet(input)
    case Dropped => Closed
    case Publish(f, rest) => Pub(input, rest, [f], [], WantLock)
    case Subscribe(filter) => Sub(input, nextId, filter, [], [], Joining, 0, 0, [], [])
  }

  function AfterRead(k: Conn): Conn
    requires k.Pub?
  {
    match TakeAccepted(k.rest)
    case None => k.(pub := Ended)
    case Some((f, rest)) => k.(rest := rest, frames := k.frames + [f], pub := WantLock)
  }

  /** `try_send` of message `n` to a subscriber that wants it, or nothing. */
  function Offered(k: Conn, filter: Filter, m: Msg, n: nat, depth: nat): Conn
    requires k.Sub? && Fits(m)
  {
    if !filter.Accepts(m.channelId) then k.(upTo := n + 1)
    else if |k.inbox| < depth && !k.sub.Gone? then
      k.(inbox := k.inbox + [Item(n, Wire(FromMsg(m)))], fates := k.fates + [Fate(n, true)], upTo := n + 1)
    else
      k.(fates := k.fates + [Fate(n, false)], upTo := n + 1)
  }

  predicate ByPublisher(a: Step) {
    a.ReadFrame? || a.BeginPublish? || a.Decide? || a.StoreStamp? || a.StoreHead?
  }

  predicate ByFanOut(a: Step) {
    a.FanBegin? || a.FanOne? || a.FanEnd? || a.Advance?
  }

  predicate BySubscriber(a: Step) {
    a.Insert? || a.Recv? || a.RecvClosed? || a.Send? || a.SendFails? || a.Remove? || a.DropReceiver?
  }

  /** Steps of the publisher threads. */
  ghost function DoPublisher(s: Bus, a: Step): (t: Bus)
    requires Shape(s) && Enabled(s, a)
    ensures Shape(t)
  {
    match a
    case ReadFrame(c) => SetConn(s, c, AfterRead(s.conns[c]))
    case BeginPublish(c, now) =>
      SetConn(s, c, s.conns[c].(pub := InPublish))
        .(lock := Some(c), ring := R.Do(s.ring, R.LoadHead(ToMsg(Last(s.conns[c].frames), now))))
    case Decide(c) =>
      var ring := R.Do(s.ring, R.Decide);
      if ring.prod.Idle? then SetConn(s, c, s.conns[c].(pub := WantLock)).(lock := None, ring := ring)
      else s.(ring := ring)
    case StoreStamp(c) =>
      SetConn(s, c, s.conns[c].(at := s.conns[c].at + [|s.ring.log|]))
        .(ring := R.Do(s.ring, R.StoreStamp), origin := s.origin + [c])
    case StoreHead(c) =>
      SetConn(s, c, s.conns[c].(pub := AwaitFrame)).(ring := R.Do(s.ring, R.StoreHead), lock := None)
    case _ => s
  }

  /** Steps of the dispatch thread's callback. */
  ghost function DoDispatch(s: Bus, a: Step): (t: Bus)
    requires Shape(s) && Enabled(s, a)
    ensures Shape(t)
  {
    match a
    case FanBegin(m) => s.(disp := Fan(m, s.registry.Keys))
    case FanOne(id) =>
      var e := s.registry[id];
      var k := Offered(s.conns[e.conn], e.filter, s.disp.msg, s.ring.cursors[0], s.depth);
      SetConn(s, e.conn, k).(disp := Fan(s.disp.msg, s.disp.todo - {id}))
    case FanEnd => s.(disp := Fanned)
    case Advance => s.(ring := R.Do(s.ring, R.StoreCursor(DISPATCHER)), disp := Outside)
    case _ => s
  }

  /** Steps of the subscriber threads. */
  ghost function DoSubscriber(s: Bus, a: Step): (t: Bus)
    requires Shape(s) && Enabled(s, a)
    ensures Shape(t)
  {
    match a
    case Insert(c) =>
      var k := s.conns[c];
      SetConn(s, c, k.(sub := Waiting, joinAt := NextFan(s), upTo := NextFan(s)))
        .(registry := s.registry[k.id := Entry(c, k.filter)])
    case Recv(c) =>
      var k := s.conns[c];
      SetConn(s, c, k.(inbox := k.inbox[1..], taken := k.taken + [k.inbox[0].n], sub := Sending(k.inbox[0])))
    case RecvClosed(c) => SetConn(s, c, s.conns[c].(sub := Leaving))
    case Send(c) =>
      var k := s.conns[c];
      SetConn(s, c, k.(out := k.out + k.sub.item.bytes, sub := Waiting))
    case SendFails(c, n) =>
      var k := s.conns[c];
      SetConn(s, c, k.(out := k.out + k.sub.item.bytes[..n], sub := Leaving))
    case Remove(c) =>
      SetConn(s, c, s.conns[c].(sub := Left)).(registry := s.registry - {s.conns[c].id})
    case DropReceiver(c) => SetConn(s, c, s.conns[c].(sub := Gone))
    case _ => s
  }

  /** Steps inside the ring, and new connections. */
  ghost function DoOther(s: Bus, a: Step): (t: Bus)
    requires Shape(s) && Enabled(s, a)
    ensures Shape(t)
  {
    match a
    case Ring(a) => s.(ring := R.Do(s.ring, a))
    case Accept(input) => s.(conns := s.conns + [Fresh(input)])
    case ReadHello(c) =>
      var k := Greeted(s.conns[c].input, s.nextId);
      SetConn(s, c, k).(nextId := if k.Sub? then s.nextId + 1 else s.nextId)
    case _ => s
  }

  ghost function Do(s: Bus, a: Step): (t: Bus)
    requires Shape(s) && Enabled(s, a)
    ensures Shape(t)
  {
    if ByPublisher(a) then DoPublisher(s, a)
    else if ByFanOut(a) then DoDispatch(s, a)
    else if BySubscriber(a) then DoSubscriber(s, a)
    else DoOther(s, a)
  }

  /** The bus after `main` has registered the dispatch thread's consumer on a new ring. */
  ghost predicate Init(s: Bus) {
    && Shape(s)
    && (exists ring :: R.Init(ring) && |ring.clients| == 1 && s.ring == RegisterDispatcher(ring))
    && s.lock.None? && s.nextId == 0 && s.registry == map[] && s.disp.Outside?
    && s.conns == [] && s.origin == []
  }

  /** A new ring after its one client has loaded the head and won entry 0. */
  ghost function RegisterDispatcher(ring: R.State): R.State
    requires R.Init(ring) && |ring.clients| == 1
  {
    R.Do(R.Do(ring, R.RegisterLoad(0)), R.RegisterCas(0))
  }

  /** A schedule from `s`: each step is enabled where the steps before it lead. */
  ghost predicate Legal(s: Bus, run: seq<Step>)
    requires Shape(s)
    decreases |run|, 1
  {
    run == [] || (Legal(s, Front(run)) && LastEnabled(s, run))
  }

  ghost predicate LastEnabled(s: Bus, run: seq<Step>)
    requires Shape(s) && run != [] && Legal(s, Front(run))
    decreases |run|, 0
  {
    Enabled(After(s, Front(run)), Last(run))
  }

  /** Where the schedule leads. */
  ghost function After(s: Bus, run: seq<Step>): (t: Bus)
    requires Shape(s) && Legal(s, run)
    ensures Shape(t)
    decreases |run|, 3
  {
    if run == [] then s else AfterLast(s, run)
  }

  ghost function AfterLast(s: Bus, run: seq<Step>): (t: Bus)
    requires Shape(s) && run != [] && Legal(s, run)
    ensures Shape(t)
    decreases |run|, 2
  {
    assert LastEnabled(s, run);
    Do(After(s, Front(run)), Last(run))
  }

  /** A schedule that is not empty is a shorter one and one more enabled step. */
  lemma LastStep(s: Bus, run: seq<Step>)
    requires Shape(s) && run != [] && Legal(s, run)
    ensures Legal(s, Front(run)) && Enabled(After(s, Front(run)), Last(run))
    ensures After(s, run) == Do(After(s, Front(run)), Last(run))
  {
    assert LastEnabled(s, run);
    assert After(s, run) == AfterLast(s, run);
  }

  /** A schedule can be continued by any step that is enabled where it leads. */
  lemma OneStepMore(s: Bus, run: seq<Step>, a: Step)
    requires Shape(s) && Legal(s, run) && Enabled(After(s, run), a)
    ensures Legal(s, run + [a]) && After(s, run + [a]) == Do(After(s, run), a)
  {
    var more := run + [a];
    assert Front(more) == run && Last(more) == a;
    assert LastEnabled(s, more);
    assert After(s, more) == AfterLast(s, more);
  }

  /** A schedule of the whole bus. */
  ghost predicate Run(s: Bus, run: seq<Step>) {
    Init(s) && Legal(s, run)
  }
}
