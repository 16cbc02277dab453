/** What every step of the ring protocol keeps, and the safety that follows for whole runs. */
module RingSafety {
  import opened Words
  import opened Slots
  import opened Sequences
  import opened RingProtocol

  ghost predicate Live(s: State, i: nat)
    requires |s.cursors| == MAX_CONSUMERS
  {
    i < MAX_CONSUMERS && s.cursors[i] != CONSUMER_FREE
  }

  /** Sequence number `k` is published and not yet overwritten, nor being overwritten. */
  ghost predicate Intact(s: State, k: nat) {
    k < |s.log| && |s.log| <= k + Pow2(s.bits)
    && (s.prod.Writing? ==> s.prod.sq < k + Pow2(s.bits))
  }

  ghost predicate ProducerOk(s: State)
    requires Shape(s)
  {
    && |s.log| <= MAX_MESSAGES
    && (forall k :: 0 <= k < |s.log| ==> Fits(s.log[k]))
    && match s.prod
       case Idle => s.head == |s.log|
       case Scanning(m, sq, i, min) =>
         && sq == s.head == |s.log| < MAX_MESSAGES
         && (min == U64_MAX || min <= sq)
         && (forall j: nat :: j < i && Live(s, j) ==> min <= s.cursors[j] || sq < s.cursors[j] + Pow2(s.bits))
       case Writing(m, sq, j) =>
         && sq == s.head == |s.log| < MAX_MESSAGES
         && Image(m)[..j] <= s.cells[Index(sq, s.bits)]
         && (forall i: nat :: Live(s, i) ==> sq < s.cursors[i] + Pow2(s.bits))
       case Stamped(sq) => sq == s.head && s.head + 1 == |s.log|
  }

  ghost predicate StampsOk(s: State)
    requires Shape(s)
  {
    && (forall k :: 0 <= k < |s.log| <= k + Pow2(s.bits) ==> s.stamps[Index(k, s.bits)] == k + 1)
    && (forall i :: |s.log| <= i < Pow2(s.bits) ==> s.stamps[i] == 0)
  }

  ghost predicate CellsOk(s: State)
    requires Shape(s)
  {
    forall k :: 0 <= k < |s.log| && Intact(s, k) ==> Image(s.log[k]) <= s.cells[Index(k, s.bits)]
  }

  ghost predicate CursorsOk(s: State)
    requires Shape(s)
  {
    forall i: nat :: Live(s, i) ==> s.cursors[i] <= |s.log| <= s.cursors[i] + Pow2(s.bits)
  }

  /** What a consumer has received: the images of the log from `start` up to `to`. */
  ghost predicate IsSegment(received: seq<seq<int>>, log: seq<Msg>, start: nat, to: nat) {
    && start <= to <= |log|
    && |received| == to - start
    && (forall j :: 0 <= j < |received| ==> received[j] == Image(log[start + j]))
  }

  ghost predicate PhaseOk(log: seq<Msg>, cursor: nat, p: Phase) {
    match p
    case Ready => true
    case Polling(next) => next == cursor
    case Reading(next, got) =>
      && next == cursor < |log|
      && (forall j :: j in got ==> 0 <= j < |Image(log[next])| && got[j] == Image(log[next])[j])
    case Delivered(next, image) => next == cursor < |log| && image == Image(log[next])
    case Behind(next) => false
  }

  ghost predicate ClientOk(s: State, c: Client)
    requires Shape(s) && ShapeOfClient(c)
  {
    match c
    case Absent => true
    case Registering(start, i) => start <= s.head
    case Holding(id, start, received, phase) =>
      && Live(s, id)
      && IsSegment(received, s.log, start, s.cursors[id])
      && PhaseOk(s.log, s.cursors[id], phase)
  }

  ghost predicate ClientsOk(s: State)
    requires Shape(s)
  {
    && (forall k :: 0 <= k < |s.clients| ==> ClientOk(s, s.clients[k]))
    && (forall k, l :: 0 <= k < l < |s.clients| && s.clients[k].Holding? && s.clients[l].Holding? ==>
          s.clients[k].id != s.clients[l].id)
  }

  ghost predicate Inv(s: State) {
    Shape(s) && ProducerOk(s) && StampsOk(s) && CellsOk(s) && CursorsOk(s) && ClientsOk(s)
  }

  lemma InitOk(s: State)
    requires Init(s)
    ensures Inv(s)
  {
    assert forall i: nat :: !Live(s, i);
  }

  /** Consumers only depend on the cursors, on a log that grows and on a head that grows. */
  lemma ClientsFrame(s: State, t: State)
    requires Shape(s) && Shape(t) && ClientsOk(s)
    requires t.clients == s.clients && t.cursors == s.cursors
    requires s.log <= t.log && s.head <= t.head
    ensures ClientsOk(t)
  {
    forall k | 0 <= k < |t.clients|
      ensures ClientOk(t, t.clients[k])
    {
      assert ClientOk(s, s.clients[k]);
    }
  }

  lemma LoadHeadKeepsInv(s: State, m: Msg)
    requires Inv(s) && Enabled(s, LoadHead(m))
    ensures Inv(Do(s, LoadHead(m)))
  {
    var t := Do(s, LoadHead(m));
    ClientsFrame(s, t);
    assert forall k: nat :: Intact(t, k) ==> Intact(s, k);
  }

  lemma ScanCursorKeepsInv(s: State)
    requires Inv(s) && Enabled(s, ScanCursor)
    ensures Inv(Do(s, ScanCursor))
  {
    var t := Do(s, ScanCursor);
    ClientsFrame(s, t);
    assert forall k: nat :: Intact(t, k) ==> Intact(s, k);
    assert forall j: nat :: Live(t, j) ==> Live(s, j);
  }

  lemma DecideKeepsInv(s: State)
    requires Inv(s) && Enabled(s, Decide)
    ensures Inv(Do(s, Decide))
  {
    var t := Do(s, Decide);
    ClientsFrame(s, t);
    assert forall k: nat :: Intact(t, k) ==> Intact(s, k);
    assert forall j: nat :: Live(t, j) ==> Live(s, j);
  }

  lemma WriteCellKeepsInv(s: State)
    requires Inv(s) && Enabled(s, WriteCell)
    ensures Inv(Do(s, WriteCell))
  {
    var t := Do(s, WriteCell);
    var i, j := Index(s.prod.sq, s.bits), s.prod.j;
    assert Image(s.prod.msg)[..j + 1] <= t.cells[i] by {
      assert Image(s.prod.msg)[..j] == s.cells[i][..j];
      assert t.cells[i][..j + 1] == s.cells[i][..j] + [Image(s.prod.msg)[j]];
    }
    forall k | 0 <= k < |t.log| && Intact(t, k)
      ensures Image(t.log[k]) <= t.cells[Index(k, t.bits)]
    {
      assert Intact(s, k);
      IndexApart(k, s.prod.sq, s.bits);
    }
    ClientsFrame(s, t);
    assert forall j: nat :: Live(t, j) ==> Live(s, j);
  }

  lemma StoreStampKeepsInv(s: State)
    requires Inv(s) && Enabled(s, StoreStamp)
    ensures Inv(Do(s, StoreStamp))
  {
    var t := Do(s, StoreStamp);
    var sq, m := s.prod.sq, s.prod.msg;
    assert Image(m)[..|Image(m)|] == Image(m);
    forall k | 0 <= k < |t.log| <= k + Pow2(t.bits)
      ensures t.stamps[Index(k, t.bits)] == k + 1
      ensures Image(t.log[k]) <= t.cells[Index(k, t.bits)]
    {
      if k < sq {
        assert Intact(s, k);
        IndexApart(k, sq, s.bits);
      }
    }
    forall i | |t.log| <= i < Pow2(t.bits)
      ensures t.stamps[i] == 0
    {
      IndexFirstLap(sq, s.bits);
    }
    ClientsFrame(s, t);
    assert forall j: nat :: Live(t, j) ==> Live(s, j);
  }

  lemma StoreHeadKeepsInv(s: State)
    requires Inv(s) && Enabled(s, StoreHead)
    ensures Inv(Do(s, StoreHead))
  {
    var t := Do(s, StoreHead);
    ClientsFrame(s, t);
    assert forall k: nat :: Intact(t, k) ==> Intact(s, k);
    assert forall j: nat :: Live(t, j) ==> Live(s, j);
  }

  /** A step of client `k` that leaves shared memory alone. */
  lemma LocalStepKeepsInv(s: State, k: nat, c: Client)
    requires Inv(s) && k < |s.clients| && ShapeOfClient(c)
    requires ClientOk(s, c)
    requires c.Holding? ==> s.clients[k].Holding? && s.clients[k].id == c.id
    ensures Inv(SetClient(s, k, c))
  {
    var t := SetClient(s, k, c);
    assert forall i: nat :: Live(t, i) <==> Live(s, i);
    assert forall i: nat :: Intact(t, i) <==> Intact(s, i);
    forall l | 0 <= l < |t.clients|
      ensures ShapeOfClient(t.clients[l]) && ClientOk(t, t.clients[l])
    {
      assert l != k ==> ClientOk(s, s.clients[l]);
    }
  }

  /** A step of client `k` that also stores `v` to the cursor of an id no other client holds. */
  lemma CursorStepKeepsInv(s: State, t: State, k: nat, c: Client, id: nat, v: nat)
    requires Inv(s) && k < |s.clients| && id < MAX_CONSUMERS
    requires forall l :: 0 <= l < |s.clients| && l != k && s.clients[l].Holding? ==> s.clients[l].id != id
    requires c.Absent? || (c.Holding? && c.id == id && v != CONSUMER_FREE
                           && IsSegment(c.received, s.log, c.start, v) && PhaseOk(s.log, v, c.phase))
    requires v != CONSUMER_FREE ==>
      && v <= |s.log| <= v + Pow2(s.bits)
      && (if Live(s, id) then s.cursors[id] <= v else MayJoin(s, id, v))
    requires t == SetClient(s, k, c).(cursors := s.cursors[id := v])
    ensures Inv(t)
  {
    assert forall i: nat :: i != id ==> (Live(t, i) <==> Live(s, i));
    assert forall i: nat :: Intact(t, i) <==> Intact(s, i);
    forall l | 0 <= l < |t.clients|
      ensures ShapeOfClient(t.clients[l]) && ClientOk(t, t.clients[l])
    {
      assert l != k ==> ClientOk(s, s.clients[l]);
    }
  }

  lemma RegisterKeepsInv(s: State, a: Step)
    requires Inv(s) && Enabled(s, a) && RegistersSafely(s, a)
    requires a.RegisterLoad? || a.RegisterCas? || a.RegisterFull?
    ensures Inv(Do(s, a))
  {
    if a.RegisterCas? && s.cursors[s.clients[a.k].i] == CONSUMER_FREE {
      var Registering(start, i) := s.clients[a.k];
      assert ClientOk(s, s.clients[a.k]) && !Live(s, i);
      forall l | 0 <= l < |s.clients| && s.clients[l].Holding?
        ensures s.clients[l].id != i
      {
        assert ClientOk(s, s.clients[l]);
      }
      CursorStepKeepsInv(s, Joined(s, a.k), a.k, Holding(i, start, [], Ready), i, start);
    } else {
      assert ClientOk(s, s.clients[a.k]);
      LocalStepKeepsInv(s, a.k, Do(s, a).clients[a.k]);
    }
  }

  /** The stamp of an unfinished consumer's slot: its message's own stamp once that is published,
      and before that the stamp of the message one lap earlier, or zero on the first lap. */
  lemma StampCases(s: State, next: nat)
    requires Inv(s) && next <= |s.log| <= next + Pow2(s.bits)
    ensures next < |s.log| ==> s.stamps[Index(next, s.bits)] == next + 1
    ensures next == |s.log| && next < Pow2(s.bits) ==> s.stamps[Index(next, s.bits)] == 0
    ensures next == |s.log| && next >= Pow2(s.bits) ==>
              s.stamps[Index(next, s.bits)] == next + 1 - Pow2(s.bits)
  {
    if next == |s.log| {
      if next < Pow2(s.bits) {
        IndexFirstLap(next, s.bits);
      } else {
        IndexLap(next - Pow2(s.bits), s.bits);
      }
    }
  }

  lemma LoadCursorKeepsInv(s: State, k: nat)
    requires Inv(s) && Enabled(s, LoadCursor(k))
    ensures Inv(Do(s, LoadCursor(k)))
  {
    var c := s.clients[k];
    assert ClientOk(s, c);
    LocalStepKeepsInv(s, k, c.(phase := Polling(s.cursors[c.id])));
  }

  /** Comparing the stamp with the expected one tells exactly whether the message is published. */
  lemma StampDecides(s: State, next: nat)
    requires Inv(s) && next <= |s.log| <= next + Pow2(s.bits)
    ensures
      var stamp := s.stamps[Index(next, s.bits)];
      if next < |s.log| then stamp == Expected(next) else stamp < Expected(next)
  {
    StampCases(s, next);
    assert Expected(next) == next + 1;
  }

  lemma PollingBounds(s: State, k: nat, next: nat)
    requires Inv(s) && InPhase(s, k) && s.clients[k].phase == Polling(next)
    ensures next <= |s.log| <= next + Pow2(s.bits)
  {
    assert ClientOk(s, s.clients[k]);
  }

  lemma LoadStampEffect(s: State, k: nat, again: bool, next: nat)
    requires Inv(s) && Enabled(s, LoadStamp(k, again)) && s.clients[k].phase == Polling(next)
    ensures next <= |s.log|
    ensures Do(s, LoadStamp(k, again)) == SetPhase(s, k,
      if next < |s.log| then Reading(next, map[]) else if again then Polling(next) else Ready)
  {
    PollingBounds(s, k, next);
    StampDecides(s, next);
  }

  lemma LoadStampKeepsInv(s: State, k: nat, again: bool)
    requires Inv(s) && Enabled(s, LoadStamp(k, again))
    ensures Inv(Do(s, LoadStamp(k, again)))
  {
    var next := s.clients[k].phase.next;
    LoadStampEffect(s, k, again, next);
    assert ClientOk(s, s.clients[k]);
    LocalStepKeepsInv(s, k, s.clients[k].(phase :=
      if next < |s.log| then Reading(next, map[]) else if again then Polling(next) else Ready));
  }

  /** The `FellBehind` return is never reached. */
  lemma NoRetry(s: State, k: nat)
    requires Inv(s)
    ensures !Enabled(s, Retry(k))
  {
    if InPhase(s, k) {
      assert ClientOk(s, s.clients[k]);
    }
  }

  /** A cell read by a consumer is a cell of the message it is consuming. */
  lemma ReadCellKeepsInv(s: State, k: nat, j: nat)
    requires Inv(s) && Enabled(s, ReadCell(k, j))
    ensures Inv(Do(s, ReadCell(k, j)))
  {
    var c := s.clients[k];
    assert ClientOk(s, c);
    var next := c.phase.next;
    assert Intact(s, next);
    assert Image(s.log[next]) <= s.cells[Index(next, s.bits)];
    LocalStepKeepsInv(s, k, Do(s, ReadCell(k, j)).clients[k]);
  }

  lemma DeliverKeepsInv(s: State, k: nat)
    requires Inv(s) && Enabled(s, Deliver(k))
    ensures Inv(Do(s, Deliver(k)))
  {
    var c := s.clients[k];
    assert ClientOk(s, c);
    var next := c.phase.next;
    assert Assemble(c.phase.got) == Image(s.log[next]);
    LocalStepKeepsInv(s, k, Do(s, Deliver(k)).clients[k]);
  }

  lemma SegmentGrows(received: seq<seq<int>>, log: seq<Msg>, start: nat, to: nat)
    requires IsSegment(received, log, start, to) && to < |log|
    ensures IsSegment(received + [Image(log[to])], log, start, to + 1)
  {
  }

  lemma StoreCursorEffect(s: State, k: nat)
    requires Inv(s) && Enabled(s, StoreCursor(k))
    ensures
      var c := s.clients[k];
      var next := s.cursors[c.id];
      && next < |s.log|
      && IsSegment(c.received, s.log, c.start, next)
      && c.phase == Delivered(next, Image(s.log[next]))
      && Do(s, StoreCursor(k)) ==
         SetClient(s, k, Holding(c.id, c.start, c.received + [Image(s.log[next])], Ready))
           .(cursors := s.cursors[c.id := next + 1])
  {
    assert ClientOk(s, s.clients[k]);
    assert Expected(s.clients[k].phase.next) == s.clients[k].phase.next + 1;
  }

  lemma StoreCursorKeepsInv(s: State, k: nat)
    requires Inv(s) && Enabled(s, StoreCursor(k))
    ensures Inv(Do(s, StoreCursor(k)))
  {
    StoreCursorEffect(s, k);
    var c := s.clients[k];
    var next := s.cursors[c.id];
    assert ClientOk(s, c);
    SegmentGrows(c.received, s.log, c.start, next);
    var c' := Holding(c.id, c.start, c.received + [Image(s.log[next])], Ready);
    CursorStepKeepsInv(s, Do(s, StoreCursor(k)), k, c', c.id, next + 1);
  }

  lemma UnregisterKeepsInv(s: State, k: nat)
    requires Inv(s) && Enabled(s, Unregister(k))
    ensures Inv(Do(s, Unregister(k)))
  {
    assert ClientOk(s, s.clients[k]);
    CursorStepKeepsInv(s, Do(s, Unregister(k)), k, Absent, s.clients[k].id, CONSUMER_FREE);
  }

  /** Every step keeps the invariant, provided registrations are safe where they happen. */
  lemma StepKeepsInv(s: State, a: Step)
    requires Inv(s) && Enabled(s, a) && RegistersSafely(s, a)
    ensures Inv(Do(s, a))
  {
    match a
    case LoadHead(m) => LoadHeadKeepsInv(s, m);
    case ScanCursor => ScanCursorKeepsInv(s);
    case Decide => DecideKeepsInv(s);
    case WriteCell => WriteCellKeepsInv(s);
    case StoreStamp => StoreStampKeepsInv(s);
    case StoreHead => StoreHeadKeepsInv(s);
    case RegisterLoad(k) => RegisterKeepsInv(s, a);
    case RegisterCas(k) => RegisterKeepsInv(s, a);
    case RegisterFull(k) => RegisterKeepsInv(s, a);
    case LoadCursor(k) => LoadCursorKeepsInv(s, k);
    case LoadStamp(k, again) => LoadStampKeepsInv(s, k, again);
    case ReadCell(k, j) => ReadCellKeepsInv(s, k, j);
    case Deliver(k) => DeliverKeepsInv(s, k);
    case StoreCursor(k) => StoreCursorKeepsInv(s, k);
    case Retry(k) => NoRetry(s, k);
    case Unregister(k) => UnregisterKeepsInv(s, k);
  }

  lemma {:induction false} RunKeepsInv(s: State, run: seq<Step>)
    requires Run(s, run)
    ensures Inv(After(s, run))
    decreases |run|
  {
    if run == [] {
      InitOk(s);
    } else {
      LastStep(s, run);
      RunKeepsInv(s, Front(run));
      StepKeepsInv(After(s, Front(run)), Last(run));
    }
  }

  /** A state that some run of the whole program leads to. */
  ghost predicate Reachable(s: State) {
    exists s0, run :: Run(s0, run) && After(s0, run) == s
  }

  lemma ReachableInv(s: State)
    requires Reachable(s)
    ensures Inv(s)
  {
    var s0, run :| Run(s0, run) && After(s0, run) == s;
    RunKeepsInv(s0, run);
  }

  lemma ReachStep(s: State, a: Step)
    requires Reachable(s) && Shape(s) && Enabled(s, a) && RegistersSafely(s, a)
    ensures Reachable(Do(s, a))
  {
    var s0, run :| Run(s0, run) && After(s0, run) == s;
    var more := run + [a];
    assert Front(more) == run && Last(more) == a;
    OneStepMore(s0, run, a);
    assert AllRegisterSafely(s0, more);
    assert Run(s0, more) && After(s0, more) == Do(s, a);
  }

  lemma ReachInit(s: State)
    requires Init(s)
    ensures Reachable(s)
  {
    assert Run(s, []) && After(s, []) == s;
  }

  lemma ReachableStoreCursor(s: State, k: nat)
    requires Reachable(s) && Shape(s) && Enabled(s, StoreCursor(k))
    ensures
      var c := s.clients[k];
      var next := s.cursors[c.id];
      && next < |s.log|
      && Do(s, StoreCursor(k)) ==
         SetClient(s, k, Holding(c.id, c.start, c.received + [Image(s.log[next])], Ready))
           .(cursors := s.cursors[c.id := next + 1])
  {
    ReachableInv(s);
    StoreCursorEffect(s, k);
  }
}
