/** What undisturbed calls achieve: exact backpressure, and no deadlock. */
module RingProgress {
  import opened Words
  import opened Slots
  import opened Sequences
  import opened RingProtocol
  import opened RingSafety

  /** The thread that takes a step: -1 is the producer, `k >= 0` is client `k`. */
  function Actor(a: Step): int {
    match a
    case LoadHead(_) => -1
    case ScanCursor => -1
    case Decide => -1
    case WriteCell => -1
    case StoreStamp => -1
    case StoreHead => -1
    case RegisterLoad(k) => k
    case RegisterCas(k) => k
    case RegisterFull(k) => k
    case LoadCursor(k) => k
    case LoadStamp(k, _) => k
    case ReadCell(k, _) => k
    case Deliver(k) => k
    case StoreCursor(k) => k
    case Retry(k) => k
    case Unregister(k) => k
  }

  ghost predicate TakenBy(run: seq<Step>, actor: int) {
    forall n :: 0 <= n < |run| ==> Actor(run[n]) == actor
  }

  /** `run` is a schedule from `s` that ends in `t`. */
  ghost predicate Leads(s: State, run: seq<Step>, t: State) {
    Shape(s) && Legal(s, run) && After(s, run) == t
  }

  lemma LeadsNowhere(s: State)
    requires Shape(s)
    ensures Leads(s, [], s)
  {
  }

  lemma LeadsStep(s: State, run: seq<Step>, t: State, a: Step)
    requires Leads(s, run, t) && Enabled(t, a)
    ensures Leads(s, run + [a], Do(t, a))
  {
    OneStepMore(s, run, a);
  }

  lemma {:induction false} LeadsThrough(s: State, run: seq<Step>, t: State, run': seq<Step>, u: State)
    requires Leads(s, run, t) && Leads(t, run', u)
    ensures Leads(s, run + run', u)
    decreases |run'|
  {
    if run' == [] {
      assert run + run' == run;
    } else {
      LastStep(t, run');
      LeadsThrough(s, run, t, Front(run'), After(t, Front(run')));
      LeadsStep(s, run + Front(run'), After(t, Front(run')), Last(run'));
      assert run + Front(run') + [Last(run')] == run + run';
    }
  }

  // ---- An undisturbed publish ----

  function Least(cursors: seq<nat>): (m: nat)
    ensures m <= U64_MAX
    ensures forall i :: 0 <= i < |cursors| ==> m <= cursors[i] || cursors[i] > U64_MAX
    ensures m == U64_MAX || m in cursors
  {
    if cursors == [] then U64_MAX
    else
      var m := Least(Front(cursors));
      var v := Last(cursors);
      assert forall i :: 0 <= i < |cursors| ==> i == |cursors| - 1 || cursors[i] == Front(cursors)[i];
      if v < m then v else m
  }

  ghost predicate LapBehind(s: State, i: nat)
    requires Shape(s)
  {
    Live(s, i) && s.cursors[i] + Pow2(s.bits) <= s.head
  }

  ghost predicate AllAre(run: seq<Step>, a: Step) {
    forall n :: 0 <= n < |run| ==> run[n] == a
  }

  lemma {:induction false} ScanRun(s: State, m: Msg, i: nat) returns (run: seq<Step>)
    requires Shape(s) && s.prod == Scanning(m, s.head, 0, U64_MAX) && i <= MAX_CONSUMERS
    ensures AllAre(run, ScanCursor)
    ensures Leads(s, run, s.(prod := Scanning(m, s.head, i, Least(s.cursors[..i]))))
  {
    if i == 0 {
      run := [];
      LeadsNowhere(s);
    } else {
      run := ScanRun(s, m, i - 1);
      var t := s.(prod := Scanning(m, s.head, i - 1, Least(s.cursors[..i - 1])));
      assert Front(s.cursors[..i]) == s.cursors[..i - 1];
      LeadsStep(s, run, t, ScanCursor);
      run := run + [ScanCursor];
    }
  }

  /** The scan's minimum fails the test exactly when some live consumer has a whole lap unread. */
  lemma TestIsExact(s: State)
    requires Inv(s) && s.head == |s.log| < MAX_MESSAGES
    ensures Refuses(s.head, Least(s.cursors), s.bits) <==> exists i: nat :: LapBehind(s, i)
  {
    var min := Least(s.cursors);
    if min != U64_MAX {
      var i: nat :| i < |s.cursors| && s.cursors[i] == min;
      assert Live(s, i);
      assert Refuses(s.head, min, s.bits) ==> LapBehind(s, i);
    }
    forall i: nat | LapBehind(s, i)
      ensures Refuses(s.head, min, s.bits)
    {
      assert min <= s.cursors[i];
    }
  }

  /** The scan's minimum passes so far, and nobody is a lap behind. */
  ghost predicate ScanPasses(s: State) {
    && Shape(s) && s.prod.Scanning? && !Refuses(s.prod.sq, s.prod.min, s.bits)
    && !exists i: nat :: LapBehind(s, i)
  }

  lemma ScanStillPasses(s: State)
    requires Inv(s) && ScanPasses(s) && Enabled(s, ScanCursor)
    ensures ScanPasses(Do(s, ScanCursor))
  {
    var t := Do(s, ScanCursor);
    assert !LapBehind(s, s.prod.i);
    assert forall i: nat :: LapBehind(t, i) ==> LapBehind(s, i);
  }

  /** With cursors still during the scan, the publish is refused exactly when some live consumer has
      a whole lap unread; a refusal changes nothing. */
  lemma BackpressureIsExact(s: State, m: Msg) returns (run: seq<Step>)
    requires Inv(s) && Enabled(s, LoadHead(m))
    ensures TakenBy(run, -1)
    ensures Leads(s, run, s.(prod := if exists i: nat :: LapBehind(s, i) then Idle else Writing(m, s.head, 0)))
  {
    var s1 := Do(s, LoadHead(m));
    LeadsNowhere(s);
    LeadsStep(s, [], s, LoadHead(m));
    var scan := ScanRun(s1, m, MAX_CONSUMERS);
    assert s.cursors[..MAX_CONSUMERS] == s.cursors;
    var t := s.(prod := Scanning(m, s.head, MAX_CONSUMERS, Least(s.cursors)));
    LeadsThrough(s, [] + [LoadHead(m)], s1, scan, t);
    LeadsStep(s, [] + [LoadHead(m)] + scan, t, Decide);
    TestIsExact(s);
    run := [] + [LoadHead(m)] + scan + [Decide];
  }

  ghost function Overwrite(s: State, m: Msg, j: nat): seq<seq<int>>
    requires Shape(s) && Fits(m) && j <= |Image(m)|
  {
    var i := Index(s.head, s.bits);
    s.cells[i := Image(m)[..j] + s.cells[i][j..]]
  }

  lemma OverwriteCell(image: seq<int>, cell: seq<int>, j: nat)
    requires j < |image| <= |cell|
    ensures image[..0] + cell[0..] == cell
    ensures (image[..j] + cell[j..])[j := image[j]] == image[..j + 1] + cell[j + 1..]
  {
  }

  /** The state after `j` cells of message `m` are written. */
  ghost function Written(s: State, m: Msg, j: nat): State
    requires Shape(s) && Fits(m) && j <= |Image(m)|
  {
    s.(prod := Writing(m, s.head, j), cells := Overwrite(s, m, j))
  }

  lemma WriteCellEffect(s: State, m: Msg, j: nat)
    requires Shape(s) && Fits(m) && j < |Image(m)|
    ensures Shape(Written(s, m, j)) && Enabled(Written(s, m, j), WriteCell)
    ensures Do(Written(s, m, j), WriteCell) == Written(s, m, j + 1)
  {
    var i := Index(s.head, s.bits);
    OverwriteCell(Image(m), s.cells[i], j);
    var t := Written(s, m, j);
    assert t.cells[i := t.cells[i][j := Image(m)[j]]] == Overwrite(s, m, j + 1);
  }

  lemma NothingWritten(s: State, m: Msg)
    requires Shape(s) && s.prod == Writing(m, s.head, 0)
    ensures Written(s, m, 0) == s
  {
    OverwriteCell(Image(m), s.cells[Index(s.head, s.bits)], 0);
  }

  lemma {:induction false} WriteRun(s: State, m: Msg, j: nat) returns (run: seq<Step>)
    requires Shape(s) && s.prod == Writing(m, s.head, 0) && j <= |Image(m)|
    ensures AllAre(run, WriteCell)
    ensures Leads(s, run, Written(s, m, j))
  {
    if j == 0 {
      run := [];
      NothingWritten(s, m);
      LeadsNowhere(s);
    } else {
      run := WriteRun(s, m, j - 1);
      WriteCellEffect(s, m, j - 1);
      LeadsStep(s, run, Written(s, m, j - 1), WriteCell);
      run := run + [WriteCell];
    }
  }

  /** The state after an undisturbed publish of `m` has committed. */
  ghost function Committed(s: State, m: Msg): State
    requires Shape(s) && Fits(m)
  {
    s.(head := s.head + 1, stamps := s.stamps[Index(s.head, s.bits) := s.head + 1],
      cells := Overwrite(s, m, |Image(m)|), log := s.log + [m], prod := Idle)
  }

  lemma CommitRun(s: State, m: Msg) returns (run: seq<Step>)
    requires Shape(s) && Fits(m)
    ensures TakenBy(run, -1) && Leads(s.(prod := Writing(m, s.head, 0)), run, Committed(s, m))
  {
    var w := s.(prod := Writing(m, s.head, 0));
    var write := WriteRun(w, m, |Image(m)|);
    var u := Written(w, m, |Image(m)|);
    LeadsStep(w, write, u, StoreStamp);
    LeadsStep(w, write + [StoreStamp], Do(u, StoreStamp), StoreHead);
    run := write + [StoreStamp] + [StoreHead];
  }

  /** What an undisturbed publish does: refused, it changes nothing, and otherwise it appends its
      message and stores it with its stamp in its slot. */
  ghost function AfterPublish(s: State, m: Msg): State
    requires Shape(s) && Fits(m)
  {
    if exists i: nat :: LapBehind(s, i) then s else Committed(s, m)
  }

  lemma PublishRun(s: State, m: Msg) returns (run: seq<Step>, t: State)
    requires Inv(s) && Enabled(s, LoadHead(m))
    ensures TakenBy(run, -1) && Leads(s, run, t) && Inv(t) && t == AfterPublish(s, m)
  {
    run := BackpressureIsExact(s, m);
    t := AfterPublish(s, m);
    if exists i: nat :: LapBehind(s, i) {
      assert s.(prod := Idle) == s;
    } else {
      var commit := CommitRun(s, m);
      LeadsThrough(s, run, s.(prod := Writing(m, s.head, 0)), commit, t);
      run := run + commit;
    }
    OwnRunKeepsInv(s, run, t, -1);
  }

  // ---- Invariants along undisturbed runs ----

  ghost predicate NoRegistration(run: seq<Step>) {
    forall n :: 0 <= n < |run| ==> !ByRegistration(run[n])
  }

  lemma {:induction false} QuietRunKeepsInv(s: State, run: seq<Step>, t: State)
    requires Inv(s) && Leads(s, run, t) && NoRegistration(run)
    ensures Inv(t)
    decreases |run|
  {
    if run != [] {
      assert forall n :: 0 <= n < |Front(run)| ==> Front(run)[n] == run[n];
      LastStep(s, run);
      QuietRunKeepsInv(s, Front(run), After(s, Front(run)));
      StepKeepsInv(After(s, Front(run)), Last(run));
    }
  }

  lemma OwnRunKeepsInv(s: State, run: seq<Step>, t: State, actor: int)
    requires Inv(s) && Leads(s, run, t) && TakenBy(run, actor)
    requires actor == -1 || (0 <= actor < |s.clients| && s.clients[actor].Holding? && NoRegistration(run))
    ensures Inv(t)
  {
    QuietRunKeepsInv(s, run, t);
  }

  // ---- An undisturbed consume ----

  /** Client `k` is registered and its cursor is at `c`, a published message. */
  ghost predicate HasWork(s: State, k: nat) {
    Inv(s) && InPhase(s, k) && s.cursors[s.clients[k].id] < |s.log|
  }

  /** The state after client `k` has consumed one message. */
  ghost function Consumed(s: State, k: nat): State
    requires HasWork(s, k)
  {
    var c := s.clients[k];
    var next := s.cursors[c.id];
    SetClient(s, k, Holding(c.id, c.start, c.received + [Image(s.log[next])], Ready))
      .(cursors := s.cursors[c.id := next + 1])
  }

  ghost predicate ConsumeRun(s: State, k: nat, run: seq<Step>)
    requires HasWork(s, k)
  {
    TakenBy(run, k) && NoRegistration(run) && Leads(s, run, Consumed(s, k))
  }

  lemma ConsumedIgnoresPhase(s: State, k: nat, p: Phase)
    requires HasWork(s, k) && Inv(SetPhase(s, k, p))
    ensures HasWork(SetPhase(s, k, p), k)
    ensures Consumed(SetPhase(s, k, p), k) == Consumed(s, k)
  {
    var t := SetPhase(s, k, p);
    var c := s.clients[k];
    var c' := Consumed(s, k).clients[k];
    assert t.clients[k := c'] == s.clients[k := c'];
  }

  /** Own steps that only move the phase on, followed by the rest of the call. */
  lemma ThenConsume(s: State, k: nat, run: seq<Step>, p: Phase, rest: seq<Step>)
    requires HasWork(s, k) && TakenBy(run, k) && NoRegistration(run) && Leads(s, run, SetPhase(s, k, p))
    requires HasWork(SetPhase(s, k, p), k) && ConsumeRun(SetPhase(s, k, p), k, rest)
    ensures ConsumeRun(s, k, run + rest)
  {
    var t := SetPhase(s, k, p);
    ConsumedIgnoresPhase(s, k, p);
    LeadsThrough(s, run, t, rest, Consumed(s, k));
  }

  lemma OneStep(s: State, a: Step, t: State)
    requires Shape(s) && Enabled(s, a) && Do(s, a) == t
    ensures Leads(s, [a], t)
  {
    LeadsNowhere(s);
    LeadsStep(s, [], s, a);
    assert [] + [a] == [a];
  }

  lemma PhaseStepKeepsWork(s: State, k: nat, run: seq<Step>, p: Phase)
    requires HasWork(s, k) && TakenBy(run, k) && NoRegistration(run) && Leads(s, run, SetPhase(s, k, p))
    ensures HasWork(SetPhase(s, k, p), k)
  {
    OwnRunKeepsInv(s, run, SetPhase(s, k, p), k);
  }

  lemma ConsumeFromDelivered(s: State, k: nat) returns (run: seq<Step>)
    requires HasWork(s, k) && s.clients[k].phase.Delivered?
    ensures ConsumeRun(s, k, run)
  {
    StoreCursorEffect(s, k);
    run := [StoreCursor(k)];
    OneStep(s, StoreCursor(k), Consumed(s, k));
  }

  ghost function ReadSoFar(image: seq<int>, got: map<nat, int>, j: nat): map<nat, int>
    requires j <= |image|
  {
    got + map i: nat | i < j :: image[i]
  }

  /** Client `k` is reading, and its slot holds `image`. */
  ghost predicate Readable(s: State, k: nat, image: seq<int>) {
    && Shape(s) && InPhase(s, k) && s.clients[k].phase.Reading?
    && FIELDS <= |image| <= CELLS && image[2] == |image| - FIELDS
    && image <= s.cells[Index(s.clients[k].phase.next, s.bits)]
  }

  /** The phase in which client `k`, besides what it had read, has read the first `j` cells again. */
  ghost function ReadPhase(s: State, k: nat, image: seq<int>, j: nat): Phase
    requires InPhase(s, k) && s.clients[k].phase.Reading? && j <= |image|
  {
    Reading(s.clients[k].phase.next, ReadSoFar(image, s.clients[k].phase.got, j))
  }

  lemma SetPhaseTwice(s: State, k: nat, p: Phase, q: Phase)
    requires InPhase(s, k)
    ensures SetPhase(SetPhase(s, k, p), k, q) == SetPhase(s, k, q)
    ensures SetPhase(s, k, s.clients[k].phase) == s
  {
    var c := s.clients[k];
    assert s.clients[k := c.(phase := p)][k := c.(phase := q)] == s.clients[k := c.(phase := q)];
    assert s.clients[k := c.(phase := c.phase)] == s.clients;
  }

  lemma ReadSoFarStep(image: seq<int>, got: map<nat, int>, j: nat)
    requires j < |image|
    ensures ReadSoFar(image, got, j)[j := image[j]] == ReadSoFar(image, got, j + 1)
    ensures j >= FIELDS ==> 2 in ReadSoFar(image, got, j) && ReadSoFar(image, got, j)[2] == image[2]
  {
  }

  lemma ReadCellEffect(s: State, k: nat, image: seq<int>, j: nat)
    requires Readable(s, k, image) && j < |image|
    ensures
      var t := SetPhase(s, k, ReadPhase(s, k, image, j));
      && Shape(t) && Enabled(t, ReadCell(k, j))
      && Do(t, ReadCell(k, j)) == SetPhase(s, k, ReadPhase(s, k, image, j + 1))
  {
    ReadSoFarStep(image, s.clients[k].phase.got, j);
    SetPhaseTwice(s, k, ReadPhase(s, k, image, j), ReadPhase(s, k, image, j + 1));
  }

  lemma {:induction false} ReadRun(s: State, k: nat, image: seq<int>, j: nat) returns (run: seq<Step>)
    requires Readable(s, k, image) && j <= |image|
    ensures TakenBy(run, k) && NoRegistration(run)
    ensures Leads(s, run, SetPhase(s, k, ReadPhase(s, k, image, j)))
  {
    if j == 0 {
      run := [];
      LeadsNowhere(s);
      assert ReadSoFar(image, s.clients[k].phase.got, 0) == s.clients[k].phase.got;
      SetPhaseTwice(s, k, Ready, Ready);
    } else {
      run := ReadRun(s, k, image, j - 1);
      ReadCellEffect(s, k, image, j - 1);
      LeadsStep(s, run, SetPhase(s, k, ReadPhase(s, k, image, j - 1)), ReadCell(k, j - 1));
      run := run + [ReadCell(k, j - 1)];
    }
  }

  lemma DeliverEffect(s: State, k: nat, image: seq<int>)
    requires Readable(s, k, image)
    requires forall j :: j in s.clients[k].phase.got ==> 0 <= j < |image|
    ensures
      var t := SetPhase(s, k, ReadPhase(s, k, image, |image|));
      && Shape(t) && Enabled(t, Deliver(k))
      && Do(t, Deliver(k)) == SetPhase(s, k, Delivered(s.clients[k].phase.next, image))
  {
    var p := ReadPhase(s, k, image, |image|);
    assert Assemble(p.got) == image;
    SetPhaseTwice(s, k, p, Delivered(p.next, image));
  }

  lemma WorkIsReadable(s: State, k: nat) returns (image: seq<int>)
    requires HasWork(s, k) && s.clients[k].phase.Reading?
    ensures Readable(s, k, image) && image == Image(s.log[s.clients[k].phase.next])
    ensures forall j :: j in s.clients[k].phase.got ==> 0 <= j < |image|
  {
    assert ClientOk(s, s.clients[k]);
    var next := s.clients[k].phase.next;
    image := Image(s.log[next]);
    assert Intact(s, next);
  }

  lemma ConsumeFromReading(s: State, k: nat) returns (run: seq<Step>)
    requires HasWork(s, k) && s.clients[k].phase.Reading?
    ensures ConsumeRun(s, k, run)
  {
    var image := WorkIsReadable(s, k);
    run := ReadRun(s, k, image, |image|);
    DeliverEffect(s, k, image);
    LeadsStep(s, run, SetPhase(s, k, ReadPhase(s, k, image, |image|)), Deliver(k));
    run := run + [Deliver(k)];
    var p := Delivered(s.clients[k].phase.next, image);
    PhaseStepKeepsWork(s, k, run, p);
    var rest := ConsumeFromDelivered(SetPhase(s, k, p), k);
    ThenConsume(s, k, run, p, rest);
    run := run + rest;
  }

  lemma ConsumeFromPolling(s: State, k: nat) returns (run: seq<Step>)
    requires HasWork(s, k) && s.clients[k].phase.Polling?
    ensures ConsumeRun(s, k, run)
  {
    assert ClientOk(s, s.clients[k]);
    var next := s.clients[k].phase.next;
    var p := Reading(next, map[]);
    LoadStampEffect(s, k, true, next);
    OneStep(s, LoadStamp(k, true), SetPhase(s, k, p));
    PhaseStepKeepsWork(s, k, [LoadStamp(k, true)], p);
    var rest := ConsumeFromReading(SetPhase(s, k, p), k);
    ThenConsume(s, k, [LoadStamp(k, true)], p, rest);
    run := [LoadStamp(k, true)] + rest;
  }

  lemma ConsumeFromReady(s: State, k: nat) returns (run: seq<Step>)
    requires HasWork(s, k) && s.clients[k].phase.Ready?
    ensures ConsumeRun(s, k, run)
  {
    var p := Polling(s.cursors[s.clients[k].id]);
    OneStep(s, LoadCursor(k), SetPhase(s, k, p));
    PhaseStepKeepsWork(s, k, [LoadCursor(k)], p);
    var rest := ConsumeFromPolling(SetPhase(s, k, p), k);
    ThenConsume(s, k, [LoadCursor(k)], p, rest);
    run := [LoadCursor(k)] + rest;
  }

  /** Wherever its call stands, a consumer with a published message at its cursor completes that
      message by its own steps alone, and receives exactly it. */
  lemma ConsumeCompletes(s: State, k: nat) returns (run: seq<Step>)
    requires HasWork(s, k)
    ensures ConsumeRun(s, k, run) && Inv(Consumed(s, k))
  {
    assert ClientOk(s, s.clients[k]);
    if s.clients[k].phase.Ready? {
      run := ConsumeFromReady(s, k);
    } else if s.clients[k].phase.Polling? {
      run := ConsumeFromPolling(s, k);
    } else if s.clients[k].phase.Reading? {
      run := ConsumeFromReading(s, k);
    } else {
      run := ConsumeFromDelivered(s, k);
    }
    OwnRunKeepsInv(s, run, Consumed(s, k), k);
  }

  // ---- An undisturbed registration ----

  ghost predicate FirstFree(s: State, i: nat)
    requires |s.cursors| == MAX_CONSUMERS
  {
    i < MAX_CONSUMERS && s.cursors[i] == CONSUMER_FREE && forall j :: 0 <= j < i ==> s.cursors[j] != CONSUMER_FREE
  }

  ghost predicate AllTaken(s: State) {
    forall j :: 0 <= j < |s.cursors| ==> s.cursors[j] != CONSUMER_FREE
  }

  /** Client `k` has got the first free entry, its cursor at `start`, or nothing if all are taken. */
  ghost predicate RegistrationEnds(s: State, t: State, k: nat, start: nat)
    requires |s.cursors| == MAX_CONSUMERS && k < |s.clients|
  {
    if AllTaken(s) then t == SetClient(s, k, Absent) else exists i: nat :: TookEntry(s, t, k, start, i)
  }

  ghost predicate TookEntry(s: State, t: State, k: nat, start: nat, i: nat)
    requires |s.cursors| == MAX_CONSUMERS && k < |s.clients|
  {
    && FirstFree(s, i)
    && t == SetClient(s, k, Holding(i, start, [], Ready)).(cursors := s.cursors[i := start])
  }

  lemma SetClientTwice(s: State, k: nat, c: Client, c': Client)
    requires k < |s.clients|
    ensures SetClient(SetClient(s, k, c), k, c') == SetClient(s, k, c')
  {
  }

  lemma {:induction false} RegisterFrom(s: State, k: nat, start: nat, i: nat) returns (run: seq<Step>, t: State)
    requires Shape(s) && k < |s.clients| && i <= MAX_CONSUMERS
    requires forall j :: 0 <= j < i ==> s.cursors[j] != CONSUMER_FREE
    ensures TakenBy(run, k) && Leads(SetClient(s, k, Registering(start, i)), run, t)
    ensures RegistrationEnds(s, t, k, start)
    decreases MAX_CONSUMERS - i
  {
    var r := SetClient(s, k, Registering(start, i));
    if i == MAX_CONSUMERS {
      run, t := [RegisterFull(k)], SetClient(s, k, Absent);
      SetClientTwice(s, k, Registering(start, i), Absent);
      OneStep(r, RegisterFull(k), t);
    } else if s.cursors[i] == CONSUMER_FREE {
      run, t := [RegisterCas(k)], Joined(r, k);
      SetClientTwice(s, k, Registering(start, i), Holding(i, start, [], Ready));
      OneStep(r, RegisterCas(k), t);
      assert TookEntry(s, t, k, start, i);
    } else {
      var u := SetClient(s, k, Registering(start, i + 1));
      SetClientTwice(s, k, Registering(start, i), Registering(start, i + 1));
      OneStep(r, RegisterCas(k), u);
      var rest;
      rest, t := RegisterFrom(s, k, start, i + 1);
      LeadsThrough(r, [RegisterCas(k)], u, rest, t);
      run := [RegisterCas(k)] + rest;
    }
  }

  /** A thread that registers undisturbed gets the first free entry at the current head, and fails only
      when every entry is taken. */
  lemma RegistrationCompletes(s: State, k: nat) returns (run: seq<Step>, t: State)
    requires Shape(s) && k < |s.clients| && s.clients[k].Absent?
    ensures TakenBy(run, k) && Leads(s, run, t) && RegistrationEnds(s, t, k, s.head)
  {
    OneStep(s, RegisterLoad(k), SetClient(s, k, Registering(s.head, 0)));
    var rest;
    rest, t := RegisterFrom(s, k, s.head, 0);
    LeadsThrough(s, [RegisterLoad(k)], SetClient(s, k, Registering(s.head, 0)), rest, t);
    run := [RegisterLoad(k)] + rest;
  }

  // ---- No deadlock ----

  ghost predicate HolderOf(s: State, i: nat, k: nat) {
    InPhase(s, k) && s.clients[k].id == i
  }

  /** Every live cursor belongs to a registered consumer. */
  ghost predicate LiveAreHeld(s: State)
    requires Shape(s)
  {
    forall i: nat :: Live(s, i) ==> exists k: nat :: HolderOf(s, i, k)
  }

  lemma HolderStays(s: State, a: Step, i: nat, k: nat)
    requires Shape(s) && Enabled(s, a) && HolderOf(s, i, k) && Live(Do(s, a), i)
    ensures HolderOf(Do(s, a), i, k)
  {
  }

  lemma BecomesLive(s: State, a: Step, i: nat)
    requires Inv(s) && Enabled(s, a) && !Live(s, i) && Live(Do(s, a), i)
    ensures a.RegisterCas? && HolderOf(Do(s, a), i, a.k)
  {
    assert forall k :: 0 <= k < |s.clients| ==> ClientOk(s, s.clients[k]);
  }

  lemma StepKeepsHeld(s: State, a: Step)
    requires Inv(s) && Enabled(s, a) && LiveAreHeld(s)
    ensures LiveAreHeld(Do(s, a))
  {
    var t := Do(s, a);
    forall i: nat | Live(t, i)
      ensures exists k: nat :: HolderOf(t, i, k)
    {
      if Live(s, i) {
        var k: nat :| HolderOf(s, i, k);
        HolderStays(s, a, i, k);
      } else {
        BecomesLive(s, a, i);
      }
    }
  }

  lemma {:induction false} RunKeepsHeld(s: State, run: seq<Step>)
    requires Run(s, run)
    ensures Inv(After(s, run)) && LiveAreHeld(After(s, run))
    decreases |run|
  {
    if run == [] {
      InitOk(s);
      assert forall i: nat :: !Live(s, i);
    } else {
      LastStep(s, run);
      RunKeepsHeld(s, Front(run));
      RunKeepsInv(s, Front(run));
      StepKeepsHeld(After(s, Front(run)), Last(run));
      RunKeepsInv(s, run);
    }
  }

  ghost function Laggards(s: State): set<nat>
    requires Shape(s)
  {
    set i: nat | i < MAX_CONSUMERS && LapBehind(s, i)
  }

  /** When a publish would be refused, any of the consumers responsible finds its message ready;
      consuming that one message takes it, and nobody else, off the list. */
  lemma LaggardIsReady(s: State, i: nat, k: nat)
    requires Inv(s) && s.head == |s.log| && LapBehind(s, i) && HolderOf(s, i, k)
    ensures HasWork(s, k) && s.stamps[Index(s.cursors[i], s.bits)] == s.cursors[i] + 1
    ensures Laggards(Consumed(s, k)) == Laggards(s) - {i}
  {
    StampCases(s, s.cursors[i]);
    var t := Consumed(s, k);
    assert forall j: nat :: j != i ==> (LapBehind(t, j) <==> LapBehind(s, j));
    assert !LapBehind(t, i);
  }

  /** Only consumers that are registered in `s` take these steps. */
  ghost predicate ConsumersOnly(s: State, run: seq<Step>) {
    forall n :: 0 <= n < |run| ==>
      0 <= Actor(run[n]) < |s.clients| && s.clients[Actor(run[n])].Holding? && !ByRegistration(run[n])
  }

  ghost predicate SameHolders(s: State, t: State) {
    |t.clients| == |s.clients| && forall k :: 0 <= k < |s.clients| ==> (t.clients[k].Holding? <==> s.clients[k].Holding?)
  }

  lemma ConsumedKeepsHeld(s: State, k: nat)
    requires HasWork(s, k) && LiveAreHeld(s) && Inv(Consumed(s, k))
    ensures LiveAreHeld(Consumed(s, k))
  {
    var u := Consumed(s, k);
    assert ClientOk(s, s.clients[k]);
    forall j: nat | Live(u, j)
      ensures exists l: nat :: HolderOf(u, j, l)
    {
      assert Live(s, j);
      var l: nat :| HolderOf(s, j, l);
      assert HolderOf(u, j, l);
    }
  }

  lemma DrainOne(s: State, i: nat) returns (run: seq<Step>, u: State)
    requires Inv(s) && s.head == |s.log| && LiveAreHeld(s) && LapBehind(s, i)
    ensures ConsumersOnly(s, run) && Leads(s, run, u) && Inv(u) && LiveAreHeld(u) && SameHolders(s, u)
    ensures u.prod == s.prod && u.log == s.log && u.head == s.head && u.bits == s.bits
    ensures Laggards(u) == Laggards(s) - {i} && i in Laggards(s)
  {
    var k: nat :| HolderOf(s, i, k);
    LaggardIsReady(s, i, k);
    run := ConsumeCompletes(s, k);
    u := Consumed(s, k);
    ConsumedKeepsHeld(s, k);
  }

  /** The consumers can always clear the way: finitely many of their steps leave nobody a lap behind. */
  lemma {:induction false} DrainLaggards(s: State) returns (run: seq<Step>, t: State)
    requires Inv(s) && s.head == |s.log| && LiveAreHeld(s)
    ensures ConsumersOnly(s, run) && Leads(s, run, t) && Inv(t)
    ensures t.prod == s.prod && t.log == s.log && t.head == s.head && t.bits == s.bits
    ensures Laggards(t) == {}
    decreases |Laggards(s)|
  {
    if i :| i in Laggards(s) {
      var first, u := DrainOne(s, i);
      var rest;
      rest, t := DrainLaggards(u);
      LeadsThrough(s, first, u, rest, t);
      run := first + rest;
    } else {
      run, t := [], s;
      LeadsNowhere(s);
    }
  }

  /** No deadlock: in every reachable state with no publish in flight, finitely many consumer steps
      followed by one undisturbed publish append any valid message. */
  lemma PublishCanSucceed(s0: State, run: seq<Step>, m: Msg)
    returns (drain: seq<Step>, publish: seq<Step>, t: State)
    requires Run(s0, run) && Enabled(After(s0, run), LoadHead(m))
    ensures ConsumersOnly(After(s0, run), drain) && TakenBy(publish, -1)
    ensures Leads(After(s0, run), drain + publish, t)
    ensures t.log == After(s0, run).log + [m] && t.prod.Idle?
  {
    RunKeepsHeld(s0, run);
    var s, u := After(s0, run), After(s0, run);
    drain, u := DrainLaggards(s);
    assert forall i: nat :: LapBehind(u, i) ==> i in Laggards(u);
    publish, t := PublishRun(u, m);
    LeadsThrough(s, drain, u, publish, t);
  }
}
