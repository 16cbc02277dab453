/** The ring as a concurrent protocol: every atomic load, store and compare-exchange, and every
    plain access to a message cell, is a step of its own, and the steps of the producer and of
    the consumers interleave freely. */
module RingProtocol {
  import opened Words
  import opened Slots
  import opened Sequences

  const MAX_CONSUMERS: nat := 64
  const CONSUMER_FREE: nat := U64_MAX
  /** Fewer messages than this are ever published, so sequence numbers never overflow. */
  const MAX_MESSAGES: nat := U64_MAX - 1

  /** Where the one publish call in flight stands. */
  datatype Producer =
    | Idle
    | Scanning(msg: Msg, sq: nat, i: nat, min: nat)
    | Writing(msg: Msg, sq: nat, j: nat)
    | Stamped(sq: nat)

  /** Where a registered consumer's current consume call stands. */
  datatype Phase =
    | Ready
    | Polling(next: nat)
    | Reading(next: nat, got: map<nat, int>)
    | Delivered(next: nat, image: seq<int>)
    | Behind(next: nat)

  /** A thread that uses the ring as a consumer. `start` and `received` are its history. */
  datatype Client =
    | Absent
    | Registering(start: nat, i: nat)
    | Holding(id: nat, start: nat, received: seq<seq<int>>, phase: Phase)

  /** Shared memory (head, stamps, cells, cursors), the threads' control points, and the log of
      every message whose stamp has been stored. */
  datatype State = State(
    bits: nat,
    head: nat,
    stamps: seq<nat>,
    cells: seq<seq<int>>,
    cursors: seq<nat>,
    prod: Producer,
    clients: seq<Client>,
    log: seq<Msg>)

  datatype Step =
    | LoadHead(m: Msg)
    | ScanCursor
    | Decide
    | WriteCell
    | StoreStamp
    | StoreHead
    | RegisterLoad(k: nat)
    | RegisterCas(k: nat)
    | RegisterFull(k: nat)
    | LoadCursor(k: nat)
    | LoadStamp(k: nat, again: bool)
    | ReadCell(k: nat, j: nat)
    | Deliver(k: nat)
    | StoreCursor(k: nat)
    | Retry(k: nat)
    | Unregister(k: nat)

  ghost predicate ShapeOfProducer(p: Producer) {
    match p
    case Idle => true
    case Scanning(m, sq, i, min) => Fits(m) && i <= MAX_CONSUMERS && min <= U64_MAX && sq < U64_MAX
    case Writing(m, sq, j) => Fits(m) && j <= |Image(m)|
    case Stamped(sq) => true
  }

  ghost predicate ShapeOfClient(c: Client) {
    match c
    case Absent => true
    case Registering(start, i) => i <= MAX_CONSUMERS
    case Holding(id, start, received, phase) => id < MAX_CONSUMERS
  }

  /** Sizes only; nothing about what the cells hold. */
  ghost predicate Shape(s: State) {
    && |s.stamps| == |s.cells| == Pow2(s.bits)
    && (forall i :: 0 <= i < |s.cells| ==> |s.cells[i]| == CELLS)
    && |s.cursors| == MAX_CONSUMERS
    && ShapeOfProducer(s.prod)
    && (forall k :: 0 <= k < |s.clients| ==> ShapeOfClient(s.clients[k]))
  }

  ghost predicate Init(s: State) {
    && Shape(s)
    && s.head == 0 && s.log == [] && s.prod == Idle
    && (forall i :: 0 <= i < |s.stamps| ==> s.stamps[i] == 0)
    && (forall i :: 0 <= i < MAX_CONSUMERS ==> s.cursors[i] == CONSUMER_FREE)
    && (forall k :: 0 <= k < |s.clients| ==> s.clients[k] == Absent)
  }

  /** The refusal test on the scanned minimum. */
  predicate Refuses(sq: nat, min: nat, bits: nat)
    requires sq <= U64_MAX && min <= U64_MAX
  {
    min != U64_MAX && WrappingSub(sq, min) >= Pow2(bits)
  }

  ghost predicate InPhase(s: State, k: nat) {
    k < |s.clients| && s.clients[k].Holding?
  }

  function Expected(next: nat): nat {
    (next + 1) % U64_SIZE
  }

  /** The callback has read the fixed cells and as many payload bytes as they announce. */
  ghost predicate ReadAll(got: map<nat, int>) {
    && (forall j :: 0 <= j < FIELDS ==> j in got)
    && 0 <= got[2] <= PAYLOAD_CAP
    && (forall j :: 0 <= j < FIELDS + got[2] ==> j in got)
  }

  ghost function Assemble(got: map<nat, int>): seq<int>
    requires ReadAll(got)
  {
    seq(FIELDS + got[2], j requires 0 <= j < FIELDS + got[2] => got[j])
  }

  ghost predicate Enabled(s: State, a: Step)
    requires Shape(s)
  {
    match a
    case LoadHead(m) => s.prod.Idle? && Fits(m) && s.head < MAX_MESSAGES
    case ScanCursor => s.prod.Scanning? && s.prod.i < MAX_CONSUMERS
    case Decide => s.prod.Scanning? && s.prod.i == MAX_CONSUMERS
    case WriteCell => s.prod.Writing? && s.prod.j < |Image(s.prod.msg)|
    case StoreStamp => s.prod.Writing? && s.prod.j == |Image(s.prod.msg)|
    case StoreHead => s.prod.Stamped?
    case RegisterLoad(k) => k < |s.clients| && s.clients[k].Absent?
    case RegisterCas(k) => k < |s.clients| && s.clients[k].Registering? && s.clients[k].i < MAX_CONSUMERS
    case RegisterFull(k) => k < |s.clients| && s.clients[k].Registering? && s.clients[k].i == MAX_CONSUMERS
    case LoadCursor(k) => InPhase(s, k) && s.clients[k].phase.Ready?
    case LoadStamp(k, again) => InPhase(s, k) && s.clients[k].phase.Polling?
    case ReadCell(k, j) =>
      && InPhase(s, k) && s.clients[k].phase.Reading? && j < CELLS
      && (j < FIELDS || (2 in s.clients[k].phase.got && j < FIELDS + s.clients[k].phase.got[2]))
    case Deliver(k) => InPhase(s, k) && s.clients[k].phase.Reading? && ReadAll(s.clients[k].phase.got)
    case StoreCursor(k) => InPhase(s, k) && s.clients[k].phase.Delivered?
    case Retry(k) => InPhase(s, k) && s.clients[k].phase.Behind?
    case Unregister(k) => InPhase(s, k) && s.clients[k].phase.Ready?
  }

  function SetClient(s: State, k: nat, c: Client): State
    requires k < |s.clients|
  {
    s.(clients := s.clients[k := c])
  }

  function SetPhase(s: State, k: nat, p: Phase): State
    requires k < |s.clients| && s.clients[k].Holding?
  {
    SetClient(s, k, s.clients[k].(phase := p))
  }

  predicate ByProducer(a: Step) {
    a.LoadHead? || a.ScanCursor? || a.Decide? || a.WriteCell? || a.StoreStamp? || a.StoreHead?
  }

  predicate ByRegistration(a: Step) {
    a.RegisterLoad? || a.RegisterCas? || a.RegisterFull?
  }

  /** Steps of a publish call. */
  ghost function DoProducer(s: State, a: Step): (t: State)
    requires Shape(s) && Enabled(s, a)
    ensures Shape(t)
  {
    match a
    case LoadHead(m) => s.(prod := Scanning(m, s.head, 0, U64_MAX))
    case ScanCursor =>
      var v := s.cursors[s.prod.i];
      s.(prod := s.prod.(i := s.prod.i + 1, min := if v < s.prod.min then v else s.prod.min))
    case Decide =>
      s.(prod := if Refuses(s.prod.sq, s.prod.min, s.bits) then Idle else Writing(s.prod.msg, s.prod.sq, 0))
    case WriteCell =>
      var i, j := Index(s.prod.sq, s.bits), s.prod.j;
      s.(cells := s.cells[i := s.cells[i][j := Image(s.prod.msg)[j]]], prod := s.prod.(j := j + 1))
    case StoreStamp =>
      s.(stamps := s.stamps[Index(s.prod.sq, s.bits) := s.prod.sq + 1],
        log := s.log + [s.prod.msg], prod := Stamped(s.prod.sq))
    case StoreHead => s.(head := s.prod.sq + 1, prod := Idle)
    case _ => s
  }

  /** Steps of a registration call. */
  ghost function DoRegistration(s: State, a: Step): (t: State)
    requires Shape(s) && Enabled(s, a)
    ensures Shape(t)
  {
    match a
    case RegisterLoad(k) => SetClient(s, k, Registering(s.head, 0))
    case RegisterCas(k) =>
      var Registering(start, i) := s.clients[k];
      if s.cursors[i] == CONSUMER_FREE then Joined(s, k)
      else SetClient(s, k, Registering(start, i + 1))
    case RegisterFull(k) => SetClient(s, k, Absent)
    case _ => s
  }

  /** Client `k` has stored the head it loaded into the entry it is at. */
  function Joined(s: State, k: nat): State
    requires k < |s.clients| && s.clients[k].Registering? && s.clients[k].i < |s.cursors|
  {
    var Registering(start, i) := s.clients[k];
    SetClient(s, k, Holding(i, start, [], Ready)).(cursors := s.cursors[i := start])
  }

  /** Steps of a registered consumer. */
  ghost function DoConsumer(s: State, a: Step): (t: State)
    requires Shape(s) && Enabled(s, a)
    ensures Shape(t)
  {
    match a
    case LoadCursor(k) => SetPhase(s, k, Polling(s.cursors[s.clients[k].id]))
    case LoadStamp(k, again) =>
      var next := s.clients[k].phase.next;
      var stamp := s.stamps[Index(next, s.bits)];
      SetPhase(s, k,
        if stamp < Expected(next) then (if again then Polling(next) else Ready)
        else if stamp > Expected(next) then Behind(next)
        else Reading(next, map[]))
    case ReadCell(k, j) =>
      var Reading(next, got) := s.clients[k].phase;
      SetPhase(s, k, Reading(next, got[j := s.cells[Index(next, s.bits)][j]]))
    case Deliver(k) =>
      var Reading(next, got) := s.clients[k].phase;
      SetPhase(s, k, Delivered(next, Assemble(got)))
    case StoreCursor(k) =>
      var Holding(id, start, received, Delivered(next, image)) := s.clients[k];
      SetClient(s, k, Holding(id, start, received + [image], Ready)).(cursors := s.cursors[id := Expected(next)])
    case Retry(k) => SetPhase(s, k, Ready)
    case Unregister(k) => SetClient(s, k, Absent).(cursors := s.cursors[s.clients[k].id := CONSUMER_FREE])
    case _ => s
  }

  ghost function Do(s: State, a: Step): (t: State)
    requires Shape(s) && Enabled(s, a)
    ensures Shape(t)
  {
    if ByProducer(a) then DoProducer(s, a)
    else if ByRegistration(a) then DoRegistration(s, a)
    else DoConsumer(s, a)
  }

  /** Storing the loaded head `start` into the free entry `i` now does no harm: everything from `start`
      on is still in the ring, and the publish in flight, if any, cannot overwrite it unseen. */
  ghost predicate MayJoin(s: State, i: nat, start: nat) {
    match s.prod
    case Idle => s.head <= start + Pow2(s.bits)
    case Scanning(_, _, scanned, min) =>
      || s.head < start + Pow2(s.bits)
      || (s.head == start + Pow2(s.bits) && (i >= scanned || min <= start))
    case Writing(_, _, _) => s.head < start + Pow2(s.bits)
    case Stamped(_) => s.head + 1 <= start + Pow2(s.bits)
  }

  /** The registration premise: where client `k`'s compare-exchange would succeed, it does no harm. */
  ghost predicate SafeToRegister(s: State, k: nat)
    requires Shape(s)
  {
    k < |s.clients| && s.clients[k].Registering? && s.clients[k].i < MAX_CONSUMERS
      && s.cursors[s.clients[k].i] == CONSUMER_FREE ==>
    MayJoin(s, s.clients[k].i, s.clients[k].start)
  }

  ghost predicate RegistersSafely(s: State, a: Step)
    requires Shape(s)
  {
    a.RegisterCas? ==> SafeToRegister(s, a.k)
  }

  /** A schedule from `s`: each step is enabled where the steps before it lead. */
  ghost predicate Legal(s: State, run: seq<Step>)
    requires Shape(s)
    decreases |run|, 1
  {
    run == [] || (Legal(s, Front(run)) && LastEnabled(s, run))
  }

  ghost predicate LastEnabled(s: State, run: seq<Step>)
    requires Shape(s) && run != [] && Legal(s, Front(run))
    decreases |run|, 0
  {
    Enabled(After(s, Front(run)), Last(run))
  }

  /** Where the schedule leads. */
  ghost function After(s: State, run: seq<Step>): (t: State)
    requires Shape(s) && Legal(s, run)
    ensures Shape(t)
    decreases |run|, 3
  {
    if run == [] then s else AfterLast(s, run)
  }

  ghost function AfterLast(s: State, run: seq<Step>): (t: State)
    requires Shape(s) && run != [] && Legal(s, run)
    ensures Shape(t)
    decreases |run|, 2
  {
    assert LastEnabled(s, run);
    Do(After(s, Front(run)), Last(run))
  }

  /** A schedule that is not empty is a shorter one and one more enabled step. */
  lemma LastStep(s: State, run: seq<Step>)
    requires Shape(s) && run != [] && Legal(s, run)
    ensures Legal(s, Front(run)) && Enabled(After(s, Front(run)), Last(run))
    ensures After(s, run) == Do(After(s, Front(run)), Last(run))
  {
    assert LastEnabled(s, run);
    assert After(s, run) == AfterLast(s, run);
  }

  /** A schedule can be continued by any step that is enabled where it leads. */
  lemma OneStepMore(s: State, run: seq<Step>, a: Step)
    requires Shape(s) && Legal(s, run) && Enabled(After(s, run), a)
    ensures Legal(s, run + [a]) && After(s, run + [a]) == Do(After(s, run), a)
  {
    var more := run + [a];
    assert Front(more) == run && Last(more) == a;
    assert LastEnabled(s, more);
    assert After(s, more) == AfterLast(s, more);
  }

  /** Every registration in the schedule meets the premise. */
  ghost predicate AllRegisterSafely(s: State, run: seq<Step>)
    requires Shape(s) && Legal(s, run)
    decreases |run|
  {
    run == [] || (AllRegisterSafely(s, Front(run)) && RegistersSafely(After(s, Front(run)), Last(run)))
  }

  /** A schedule of the whole program, in which every registration is safe where it happens. */
  ghost predicate Run(s: State, run: seq<Step>) {
    Init(s) && Legal(s, run) && AllRegisterSafely(s, run)
  }
}
