/** The registration premise, exactly. `register_consumer` loads the head and stores it into a free
    entry in two steps; what the producer does in between decides whether the ring stays safe. */
module RingGap {
  import opened Words
  import opened Slots
  import opened Sequences
  import opened RingProtocol
  import opened RingSafety
  import opened RingProgress

  // ---- The premise keeps the invariant, and nothing weaker does ----

  /** A registration keeps the ring's invariant exactly when it is safe where it happens. */
  lemma SafeIsExact(s: State, k: nat)
    requires Inv(s) && Enabled(s, RegisterCas(k))
    ensures Inv(Do(s, RegisterCas(k))) <==> SafeToRegister(s, k)
  {
    var t := Do(s, RegisterCas(k));
    var Registering(start, i) := s.clients[k];
    assert ClientOk(s, s.clients[k]);
    if SafeToRegister(s, k) {
      StepKeepsInv(s, RegisterCas(k));
    } else {
      assert Live(t, i) && t.cursors[i] == start;
    }
  }

  /** A gap of less than one lap is always safe. */
  lemma GapBelowLapIsSafe(s: State, k: nat)
    requires Shape(s) && k < |s.clients| && s.clients[k].Registering?
    requires s.head < s.clients[k].start + Pow2(s.bits)
    ensures SafeToRegister(s, k)
  {
  }

  // ---- What an unsafe registration leads to ----

  /** Client `k`'s compare-exchange would succeed. */
  ghost predicate AboutToJoin(s: State, k: nat) {
    && Shape(s) && k < |s.clients| && s.clients[k].Registering? && s.clients[k].i < MAX_CONSUMERS
    && s.cursors[s.clients[k].i] == CONSUMER_FREE
  }

  /** The scan in progress, if any, will not look at client `k`'s entry again. */
  ghost predicate PastEntry(s: State, k: nat)
    requires AboutToJoin(s, k)
  {
    s.prod.Scanning? ==> s.prod.i > s.clients[k].i
  }

  /** A step of another thread, no registration and no new publish call. */
  ghost predicate Foreign(a: Step, k: nat) {
    Actor(a) != k && !ByRegistration(a) && !a.LoadHead?
  }

  lemma ProducerCommutes(s: State, a: Step, k: nat)
    requires Inv(s) && AboutToJoin(s, k) && PastEntry(s, k) && Enabled(s, a) && ByProducer(a) && !a.LoadHead?
    ensures Shape(Joined(s, k)) && Enabled(Joined(s, k), a)
    ensures DoProducer(s, a).clients == s.clients && DoProducer(s, a).cursors == s.cursors
    ensures AboutToJoin(DoProducer(s, a), k) && PastEntry(DoProducer(s, a), k)
    ensures DoProducer(Joined(s, k), a) == Joined(DoProducer(s, a), k)
  {
  }

  lemma ConsumerCommutes(s: State, a: Step, k: nat)
    requires Inv(s) && AboutToJoin(s, k) && PastEntry(s, k) && Enabled(s, a)
    requires !ByProducer(a) && !ByRegistration(a) && Actor(a) != k
    ensures Shape(Joined(s, k)) && Enabled(Joined(s, k), a)
    ensures AboutToJoin(DoConsumer(s, a), k) && PastEntry(DoConsumer(s, a), k)
    ensures DoConsumer(s, a).clients[k] == s.clients[k]
    ensures DoConsumer(Joined(s, k), a) == Joined(DoConsumer(s, a), k)
  {
    var l := Actor(a);
    assert ClientOk(s, s.clients[l]);
    var t, u := DoConsumer(Joined(s, k), a), Joined(DoConsumer(s, a), k);
    assert t.clients == u.clients;
    assert t.cursors == u.cursors;
  }

  /** A foreign step does the same whether client `k` has joined before it or joins after it. */
  lemma ForeignCommutes(s: State, a: Step, t: State, k: nat)
    requires Inv(s) && AboutToJoin(s, k) && PastEntry(s, k) && Enabled(s, a) && Foreign(a, k) && Do(s, a) == t
    ensures Inv(t) && AboutToJoin(t, k) && PastEntry(t, k) && t.clients[k] == s.clients[k]
    ensures Leads(Joined(s, k), [a], Joined(t, k))
  {
    StepKeepsInv(s, a);
    if ByProducer(a) {
      ProducerCommutes(s, a, k);
    } else {
      ConsumerCommutes(s, a, k);
    }
    OneStep(Joined(s, k), a, Joined(t, k));
  }

  ghost predicate AllForeign(run: seq<Step>, k: nat) {
    forall n :: 0 <= n < |run| ==> Foreign(run[n], k)
  }

  lemma {:induction false} ForeignRunCommutes(s: State, run: seq<Step>, t: State, k: nat)
    requires Inv(s) && AboutToJoin(s, k) && PastEntry(s, k) && Leads(s, run, t) && AllForeign(run, k)
    ensures Inv(t) && AboutToJoin(t, k) && PastEntry(t, k) && t.clients[k] == s.clients[k]
    ensures Leads(Joined(s, k), run, Joined(t, k))
    decreases |run|
  {
    if run == [] {
      LeadsNowhere(Joined(s, k));
    } else {
      var front, u := LastOf(s, run, t);
      ForeignRunCommutes(s, front, u, k);
      ForeignCommutes(u, Last(run), t, k);
      LeadsThrough(Joined(s, k), front, Joined(u, k), [Last(run)], Joined(t, k));
    }
  }

  lemma LastOf(s: State, run: seq<Step>, t: State) returns (front: seq<Step>, u: State)
    requires Leads(s, run, t) && run != []
    ensures run == front + [Last(run)] && Leads(s, front, u) && Enabled(u, Last(run)) && Do(u, Last(run)) == t
  {
    LastStep(s, run);
    front, u := Front(run), After(s, Front(run));
  }

  /** The producer finishes writing and stores the stamp. */
  lemma {:induction false} WriteToStamp(s: State, k: nat) returns (run: seq<Step>, t: State)
    requires Inv(s) && s.prod.Writing?
    ensures AllForeign(run, k) && Leads(s, run, t) && |t.log| == |s.log| + 1 && t.bits == s.bits
    decreases |Image(s.prod.msg)| - s.prod.j
  {
    if s.prod.j == |Image(s.prod.msg)| {
      run, t := [StoreStamp], Do(s, StoreStamp);
      OneStep(s, StoreStamp, t);
    } else {
      var u := Do(s, WriteCell);
      OneStep(s, WriteCell, u);
      StepKeepsInv(s, WriteCell);
      var rest;
      rest, t := WriteToStamp(u, k);
      LeadsThrough(s, [WriteCell], u, rest, t);
      run := [WriteCell] + rest;
    }
  }

  lemma {:induction false} ScanToWrite(s: State, k: nat) returns (run: seq<Step>, t: State)
    requires Inv(s) && ScanPasses(s)
    ensures AllForeign(run, k) && Leads(s, run, t) && Inv(t) && t.prod.Writing? && t.log == s.log && t.bits == s.bits
    decreases MAX_CONSUMERS - s.prod.i
  {
    var a := if s.prod.i == MAX_CONSUMERS then Decide else ScanCursor;
    var u := Do(s, a);
    OneStep(s, a, u);
    StepKeepsInv(s, a);
    if a.Decide? {
      run, t := [a], u;
    } else {
      ScanStillPasses(s);
      var rest;
      rest, t := ScanToWrite(u, k);
      LeadsThrough(s, [a], u, rest, t);
      run := [a] + rest;
    }
  }

  /** The consumers clear the way for the publish whose scan has passed so far. */
  lemma PassScan(s: State, k: nat) returns (run: seq<Step>, t: State)
    requires Inv(s) && LiveAreHeld(s) && s.prod.Scanning? && !Refuses(s.prod.sq, s.prod.min, s.bits)
    requires k < |s.clients| && !s.clients[k].Holding?
    ensures AllForeign(run, k) && Leads(s, run, t) && Inv(t) && t.prod.Writing? && t.log == s.log && t.bits == s.bits
  {
    var drain, u := DrainLaggards(s);
    assert forall i: nat :: LapBehind(u, i) ==> i in Laggards(u);
    var scan;
    scan, t := ScanToWrite(u, k);
    LeadsThrough(s, drain, u, scan, t);
    run := drain + scan;
  }

  /** Once the registration is unsafe, the other threads can bring the stamped count more than a lap
      past the loaded head, and do so in the same way after client `k` has joined. */
  lemma Overtake(s: State, k: nat) returns (run: seq<Step>, t: State)
    requires Inv(s) && LiveAreHeld(s) && AboutToJoin(s, k) && !SafeToRegister(s, k)
    ensures Inv(t) && AboutToJoin(t, k) && |t.log| > t.clients[k].start + Pow2(t.bits)
    ensures NoRegistration(run) && Leads(Joined(s, k), run, Joined(t, k))
  {
    assert ClientOk(s, s.clients[k]);
    if |s.log| > s.clients[k].start + Pow2(s.bits) {
      run, t := [], s;
      LeadsNowhere(Joined(s, k));
    } else {
      run := [];
      var u := s;
      LeadsNowhere(s);
      if s.prod.Scanning? {
        run, u := PassScan(s, k);
      }
      var write;
      write, t := WriteToStamp(u, k);
      LeadsThrough(s, run, u, write, t);
      run := run + write;
      ForeignRunCommutes(s, run, t, k);
    }
  }

  /** A consumer that joined more than a lap behind the stamped count finds a later stamp. */
  lemma JoinedIsBehind(t: State, k: nat) returns (run: seq<Step>, u: State)
    requires Inv(t) && AboutToJoin(t, k) && |t.log| > t.clients[k].start + Pow2(t.bits)
    ensures NoRegistration(run) && Leads(Joined(t, k), run, u)
    ensures InPhase(u, k) && u.clients[k].phase.Behind?
  {
    var j, start := Joined(t, k), t.clients[k].start;
    var n := LaterOccupant(start, |t.log|, t.bits);
    assert t.stamps[Index(n, t.bits)] == n + 1;
    assert ClientOk(t, t.clients[k]);
    OneStep(j, LoadCursor(k), Do(j, LoadCursor(k)));
    LeadsStep(j, [LoadCursor(k)], Do(j, LoadCursor(k)), LoadStamp(k, false));
    run, u := [LoadCursor(k)] + [LoadStamp(k, false)], Do(Do(j, LoadCursor(k)), LoadStamp(k, false));
  }

  /** An unsafe registration can go wrong without any further one: its consumer falls behind. */
  lemma UnsafeFallsBehind(s: State, k: nat) returns (run: seq<Step>, t: State)
    requires Inv(s) && LiveAreHeld(s) && Enabled(s, RegisterCas(k)) && !SafeToRegister(s, k)
    ensures NoRegistration(run) && Leads(s, [RegisterCas(k)] + run, t)
    ensures InPhase(t, k) && t.clients[k].phase.Behind?
  {
    OneStep(s, RegisterCas(k), Joined(s, k));
    var first, u := Overtake(s, k);
    var last;
    last, t := JoinedIsBehind(u, k);
    LeadsThrough(Joined(s, k), first, Joined(u, k), last, t);
    run := first + last;
    LeadsThrough(s, [RegisterCas(k)], Joined(s, k), run, t);
  }

  /** What a consumer is owed: it is not behind, every cell it has read is a cell of the one message it
      is consuming, and it has been given exactly the log from its start to its cursor. */
  ghost predicate ReadsRight(s: State, k: nat)
    requires Shape(s) && InPhase(s, k)
  {
    var Holding(id, start, received, phase) := s.clients[k];
    && !phase.Behind?
    && (phase.Reading? ==> phase.next < |s.log| && forall j :: j in phase.got ==>
          0 <= j < |Image(s.log[phase.next])| && phase.got[j] == Image(s.log[phase.next])[j])
    && (phase.Delivered? ==> phase.next < |s.log| && phase.image == Image(s.log[phase.next]))
    && IsSegment(received, s.log, start, s.cursors[id])
  }

  ghost predicate AllReadRight(s: State)
    requires Shape(s)
  {
    forall k: nat :: InPhase(s, k) ==> ReadsRight(s, k)
  }

  lemma InvReadsRight(s: State)
    requires Inv(s)
    ensures AllReadRight(s)
  {
    forall k: nat | InPhase(s, k)
      ensures ReadsRight(s, k)
    {
      assert ClientOk(s, s.clients[k]);
    }
  }

  /** However the threads go on after client `k`'s compare-exchange, as long as nobody else registers,
      every consumer gets what it is owed. */
  ghost predicate GoesRight(s: State, k: nat)
    requires Shape(s)
  {
    forall run, t :: Leads(s, [RegisterCas(k)] + run, t) && NoRegistration(run) ==> AllReadRight(t)
  }

  /** The exact condition: in every reachable state a registration is safe if and only if nothing
      that can follow it lets a consumer fall behind or read anything but its own message. */
  lemma SafeIffGoesRight(s: State, k: nat)
    requires Reachable(s) && Shape(s) && Enabled(s, RegisterCas(k))
    ensures SafeToRegister(s, k) <==> GoesRight(s, k)
  {
    var s0, before :| Run(s0, before) && After(s0, before) == s;
    RunKeepsHeld(s0, before);
    if SafeToRegister(s, k) {
      forall run, t | Leads(s, [RegisterCas(k)] + run, t) && NoRegistration(run)
        ensures AllReadRight(t)
      {
        SafeRunKeepsInv(s, k, run, t);
        InvReadsRight(t);
      }
    } else {
      var run, t := UnsafeFallsBehind(s, k);
      assert InPhase(t, k) && !ReadsRight(t, k);
      assert !AllReadRight(t);
    }
  }

  lemma {:induction false} SafeRunKeepsInv(s: State, k: nat, run: seq<Step>, t: State)
    requires Inv(s) && Enabled(s, RegisterCas(k)) && SafeToRegister(s, k)
    requires Leads(s, [RegisterCas(k)] + run, t) && NoRegistration(run)
    ensures Inv(t)
    decreases |run|
  {
    var all := [RegisterCas(k)] + run;
    LastStep(s, all);
    if run == [] {
      assert Front(all) == [];
      StepKeepsInv(s, RegisterCas(k));
    } else {
      assert Front(all) == [RegisterCas(k)] + Front(run) && Last(all) == Last(run);
      SafeRunKeepsInv(s, k, Front(run), After(s, Front(all)));
      StepKeepsInv(After(s, Front(all)), Last(all));
    }
  }

  // ---- One lap too late, and the read is torn ----

  function Old(): Msg {
    Msg(1, 1, 0, [])
  }

  function New(): Msg {
    Msg(2, 2, 0, [])
  }

  ghost predicate NobodyLive(s: State)
    requires Shape(s)
  {
    forall i: nat :: !Live(s, i)
  }

  /** With no live consumer, any number of publishes goes through. */
  lemma {:induction false} PublishMany(s: State, n: nat) returns (run: seq<Step>, t: State)
    requires Inv(s) && s.prod.Idle? && NobodyLive(s) && s.head + n <= MAX_MESSAGES
    ensures Leads(s, run, t) && Inv(t)
    ensures t.prod.Idle? && t.cursors == s.cursors && t.clients == s.clients && t.bits == s.bits
    ensures t.head == s.head + n && s.log <= t.log && forall i :: |s.log| <= i < |t.log| ==> t.log[i] == Old()
  {
    if n == 0 {
      run, t := [], s;
      LeadsNowhere(s);
    } else {
      var first, u := PublishMany(s, n - 1);
      var last;
      assert forall i: nat :: LapBehind(u, i) ==> Live(s, i);
      last, t := PublishRun(u, Old());
      LeadsThrough(s, first, u, last, t);
      run := first + last;
    }
  }

  /** What client 0 reads of slot 0 when the new message's first cell has overwritten the old one's. */
  lemma TornReads(s: State) returns (run: seq<Step>, t: State)
    requires Shape(s) && s.clients == [Registering(0, 0)] && s.cursors[0] == CONSUMER_FREE
    requires s.stamps[Index(0, s.bits)] == 1
    ensures Leads(s, run, t) && RegisterCas(0) in run
    ensures |t.clients| == 1 && t.clients[0].Holding? && t.log == s.log
    ensures
      var cell := s.cells[Index(0, s.bits)];
      t.clients[0].phase == Reading(0, map[0 := cell[0], 1 := cell[1]])
  {
    LeadsNowhere(s);
    LeadsStep(s, [], s, RegisterCas(0));
    var s1 := Do(s, RegisterCas(0));
    LeadsStep(s, [] + [RegisterCas(0)], s1, LoadCursor(0));
    var s2 := Do(s1, LoadCursor(0));
    LeadsStep(s, [] + [RegisterCas(0)] + [LoadCursor(0)], s2, LoadStamp(0, false));
    var s3 := Do(s2, LoadStamp(0, false));
    run := [] + [RegisterCas(0)] + [LoadCursor(0)] + [LoadStamp(0, false)];
    assert s3.clients[0].phase == Reading(0, map[]);
    LeadsStep(s, run, s3, ReadCell(0, 0));
    var s4 := Do(s3, ReadCell(0, 0));
    LeadsStep(s, run + [ReadCell(0, 0)], s4, ReadCell(0, 1));
    t := Do(s4, ReadCell(0, 1));
    run := run + [ReadCell(0, 0)] + [ReadCell(0, 1)];
  }

  /** Client 0 has loaded head 0, and the producer, a whole lap further, is about to write slot 0. */
  ghost predicate Lapped(s: State) {
    && Inv(s) && s.clients == [Registering(0, 0)] && NobodyLive(s)
    && s.head == Pow2(s.bits) && s.prod == Writing(New(), s.head, 0)
    && s.log[0] == Old() && Image(Old()) <= s.cells[Index(0, s.bits)]
  }

  lemma Lap(s: State) returns (run: seq<Step>, t: State)
    requires Inv(s) && s.prod.Idle? && NobodyLive(s) && s.head == 0 && Pow2(s.bits) < MAX_MESSAGES
    requires s.clients == [Registering(0, 0)]
    ensures Leads(s, run, t) && Lapped(t) && t.bits == s.bits
  {
    var first, u := PublishMany(s, Pow2(s.bits));
    assert Intact(u, 0) && Image(u.log[0]) <= u.cells[Index(0, u.bits)];
    assert forall i: nat :: Live(u, i) ==> Live(s, i);
    var scan := BackpressureIsExact(u, New());
    t := u.(prod := Writing(New(), u.head, 0));
    OwnRunKeepsInv(u, scan, t, -1);
    assert forall i: nat :: Live(t, i) ==> Live(s, i);
    LeadsThrough(s, first, u, scan, t);
    run := first + scan;
  }

  lemma HalfWritten(s: State)
    requires Shape(s) && Image(Old()) <= s.cells[Index(s.head, s.bits)]
    ensures
      var cell := Overwrite(s, New(), 1)[Index(s.head, s.bits)];
      |cell| == CELLS && cell[0] == New().channelId && cell[1] == Old().msgType
  {
    var cell := s.cells[Index(s.head, s.bits)];
    assert cell[1] == Image(Old())[1];
    assert (Image(New())[..1] + cell[1..])[1] == cell[1];
  }

  /** From there, one more cell written and the registration completed gives the torn read. */
  lemma Tear(s: State) returns (run: seq<Step>, t: State)
    requires Lapped(s)
    ensures Leads(s, run, t) && |t.clients| == 1 && t.clients[0].Holding? && t.log == s.log
    ensures t.clients[0].phase == Reading(0, map[0 := New().channelId, 1 := Old().msgType])
  {
    var write := WriteRun(s, New(), 1);
    var u := Written(s, New(), 1);
    IndexLap(0, s.bits);
    HalfWritten(s);
    assert u.stamps[Index(0, s.bits)] == 1;
    assert !Live(s, 0);
    var torn;
    torn, t := TornReads(u);
    LeadsThrough(s, write, u, torn, t);
    run := write + torn;
  }

  /** Without the premise a torn read is reachable for every ring size: a consumer that loaded the
      head before a whole lap was published reads one cell of a new and one of an old message. */
  lemma LappedRegistrationTears(s0: State) returns (run: seq<Step>, t: State)
    requires Init(s0) && |s0.clients| == 1 && Pow2(s0.bits) < MAX_MESSAGES
    ensures Leads(s0, run, t)
    ensures |t.clients| == 1 && t.clients[0].Holding? && t.log != [] && t.log[0] == Old()
    ensures t.clients[0].phase == Reading(0, map[0 := New().channelId, 1 := Old().msgType])
  {
    InitOk(s0);
    var s1 := Do(s0, RegisterLoad(0));
    OneStep(s0, RegisterLoad(0), s1);
    StepKeepsInv(s0, RegisterLoad(0));
    assert forall i: nat :: Live(s1, i) ==> Live(s0, i);
    var lap, s2 := Lap(s1);
    var tear;
    tear, t := Tear(s2);
    LeadsThrough(s0, [RegisterLoad(0)], s1, lap, s2);
    LeadsThrough(s0, [RegisterLoad(0)] + lap, s2, tear, t);
    run := [RegisterLoad(0)] + lap + tear;
  }
}
