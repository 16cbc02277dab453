/** The ring refines an unbounded append-only log with one reading position per consumer. */
module RingRefinement {
  import opened Words
  import opened Slots
  import opened Sequences
  import opened RingProtocol
  import opened RingSafety
  import opened Options

  /** A reader of the log: where it began and what it has read. */
  datatype Reader = Reader(start: nat, received: seq<seq<int>>) {
    function Pos(): nat {
      start + |received|
    }
  }

  datatype Log = Log(entries: seq<Msg>, readers: seq<Option<Reader>>, lap: nat)

  datatype Event = Silent | Append(m: Msg) | Join(k: nat, start: nat) | Take(k: nat) | Leave(k: nat)

  ghost predicate IsReader(a: Log, k: nat) {
    k < |a.readers| && a.readers[k].Some?
  }

  /** The log's own steps. Appending needs every reader less than a lap behind. A reader joins at a
      position no more than a lap old, and takes exactly the entry at its position. */
  ghost predicate LogStep(a: Log, b: Log, e: Event) {
    match e
    case Silent => b == a
    case Append(m) =>
      && b == a.(entries := a.entries + [m])
      && (forall k: nat :: IsReader(a, k) ==> |a.entries| < a.readers[k].value.Pos() + a.lap)
    case Join(k, start) =>
      && k < |a.readers| && a.readers[k] == None
      && start <= |a.entries| <= start + a.lap
      && b == a.(readers := a.readers[k := Some(Reader(start, []))])
    case Take(k) =>
      && IsReader(a, k)
      && var r := a.readers[k].value;
         && r.Pos() < |a.entries|
         && b == a.(readers := a.readers[k := Some(r.(received := r.received + [Image(a.entries[r.Pos()])]))])
    case Leave(k) => IsReader(a, k) && b == a.(readers := a.readers[k := None])
  }

  /** A run of the log from the empty log without readers. */
  ghost predicate LogRun(logs: seq<Log>, events: seq<Event>) {
    && |logs| == |events| + 1
    && logs[0].entries == [] && (forall k: nat :: !IsReader(logs[0], k))
    && (forall n :: 0 <= n < |events| ==> LogStep(logs[n], logs[n + 1], events[n]))
  }

  function ReaderOf(c: Client): Option<Reader> {
    if c.Holding? then Some(Reader(c.start, c.received)) else None
  }

  function Abstract(s: State): Log {
    Log(s.log, seq(|s.clients|, k requires 0 <= k < |s.clients| => ReaderOf(s.clients[k])), Pow2(s.bits))
  }

  lemma AbstractOneClient(s: State, t: State, k: nat)
    requires Shape(s) && Shape(t) && k < |s.clients| == |t.clients| && t.bits == s.bits
    requires t.clients == s.clients[k := t.clients[k]] && t.log == s.log
    ensures Abstract(t) == Abstract(s).(readers := Abstract(s).readers[k := ReaderOf(t.clients[k])])
    ensures ReaderOf(t.clients[k]) == ReaderOf(s.clients[k]) ==> Abstract(t) == Abstract(s)
  {
    assert Abstract(t).readers == Abstract(s).readers[k := ReaderOf(t.clients[k])];
  }

  /** What a step of the ring is to the log. */
  ghost function EventOf(s: State, a: Step): Event
    requires Shape(s) && Enabled(s, a)
  {
    match a
    case StoreStamp => Append(s.prod.msg)
    case RegisterCas(k) =>
      if s.cursors[s.clients[k].i] == CONSUMER_FREE then Join(k, s.clients[k].start) else Silent
    case StoreCursor(k) => Take(k)
    case Unregister(k) => Leave(k)
    case _ => Silent
  }

  /** The stamp store is the append; the backpressure test is what makes it allowed. */
  lemma StoreStampAppends(s: State)
    requires Inv(s) && Enabled(s, StoreStamp)
    ensures LogStep(Abstract(s), Abstract(Do(s, StoreStamp)), Append(s.prod.msg))
  {
    var x, y := Abstract(s), Abstract(Do(s, StoreStamp));
    assert y == x.(entries := x.entries + [s.prod.msg]);
    forall k: nat | IsReader(x, k)
      ensures |x.entries| < x.readers[k].value.Pos() + x.lap
    {
      assert ClientOk(s, s.clients[k]);
    }
  }

  /** A successful compare-exchange joins the log at the loaded head; a failed one is silent. */
  lemma RegisterCasJoins(s: State, k: nat)
    requires Inv(s) && Enabled(s, RegisterCas(k)) && SafeToRegister(s, k)
    ensures
      var e := if s.cursors[s.clients[k].i] == CONSUMER_FREE then Join(k, s.clients[k].start) else Silent;
      LogStep(Abstract(s), Abstract(Do(s, RegisterCas(k))), e)
  {
    assert ClientOk(s, s.clients[k]);
    AbstractOneClient(s, Do(s, RegisterCas(k)), k);
  }

  /** The cursor store takes exactly the entry at the reader's position. */
  lemma StoreCursorTakes(s: State, k: nat)
    requires Inv(s) && Enabled(s, StoreCursor(k))
    ensures LogStep(Abstract(s), Abstract(Do(s, StoreCursor(k))), Take(k))
  {
    StoreCursorEffect(s, k);
    AbstractOneClient(s, Do(s, StoreCursor(k)), k);
  }

  lemma UnregisterLeaves(s: State, k: nat)
    requires Inv(s) && Enabled(s, Unregister(k))
    ensures LogStep(Abstract(s), Abstract(Do(s, Unregister(k))), Leave(k))
  {
    AbstractOneClient(s, Do(s, Unregister(k)), k);
  }

  /** All other steps leave the log alone. */
  lemma OthersAreSilent(s: State, a: Step)
    requires Inv(s) && Enabled(s, a)
    requires !a.StoreStamp? && !a.RegisterCas? && !a.StoreCursor? && !a.Unregister?
    ensures Abstract(Do(s, a)) == Abstract(s)
  {
    assert Abstract(Do(s, a)).readers == Abstract(s).readers;
  }

  lemma StepRefines(s: State, a: Step)
    requires Inv(s) && Enabled(s, a) && RegistersSafely(s, a)
    ensures LogStep(Abstract(s), Abstract(Do(s, a)), EventOf(s, a))
  {
    match a {
      case StoreStamp => StoreStampAppends(s);
      case RegisterCas(k) => RegisterCasJoins(s, k);
      case StoreCursor(k) => StoreCursorTakes(s, k);
      case Unregister(k) => UnregisterLeaves(s, k);
      case _ => OthersAreSilent(s, a);
    }
  }

  /** The logs a run of the ring goes through, and what each of its steps is to them. */
  ghost function LogsOf(s0: State, run: seq<Step>): (logs: seq<Log>)
    requires Shape(s0) && Legal(s0, run)
    ensures |logs| == |run| + 1 && Last(logs) == Abstract(After(s0, run))
    decreases |run|
  {
    if run == [] then [Abstract(s0)]
    else LogsOf(s0, Front(run)) + [Abstract(After(s0, run))]
  }

  ghost function EventsOf(s0: State, run: seq<Step>): (events: seq<Event>)
    requires Shape(s0) && Legal(s0, run)
    ensures |events| == |run|
    decreases |run|
  {
    if run == [] then []
    else
      LastStep(s0, run);
      EventsOf(s0, Front(run)) + [EventOf(After(s0, Front(run)), Last(run))]
  }

  /** Every run of the ring is, step by step, a run of the log from the empty log: what is appended is
      the message whose stamp is stored, and what a consumer takes is the entry at its position. */
  lemma {:induction false} RunRefines(s0: State, run: seq<Step>)
    requires Run(s0, run)
    ensures LogRun(LogsOf(s0, run), EventsOf(s0, run))
    decreases |run|
  {
    if run != [] {
      LastStep(s0, run);
      RunRefines(s0, Front(run));
      RunKeepsInv(s0, Front(run));
      StepRefines(After(s0, Front(run)), Last(run));
      LogRunSnoc(LogsOf(s0, Front(run)), EventsOf(s0, Front(run)),
        Abstract(After(s0, run)), EventOf(After(s0, Front(run)), Last(run)));
    }
  }

  lemma LogRunSnoc(logs: seq<Log>, events: seq<Event>, b: Log, e: Event)
    requires LogRun(logs, events) && LogStep(Last(logs), b, e)
    ensures LogRun(logs + [b], events + [e])
  {
  }
}
