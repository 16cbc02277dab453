/** Where the timestamps of published messages come from: the bus's clock, read by the publish call. */
module BusClock {
  import opened Sequences
  import opened Options
  import opened BusProtocol
  import opened BusInvariant
  import BS = BusSafety

  /** No publish call begins from step `lo` up to step `hi`. */
  ghost predicate NoBegin(run: seq<Step>, lo: nat, hi: nat) {
    forall k :: lo <= k < hi && k < |run| ==> !run[k].BeginPublish?
  }

  /** The publish call in flight began at step `i`: publisher `c` read the clock as `now`. */
  ghost predicate InFlightSince(run: seq<Step>, i: nat, c: nat, now: int) {
    && i < |run| && run[i].BeginPublish? && run[i].c == c && run[i].now == now
    && NoBegin(run, i + 1, |run|)
  }

  /** Message `n` was stamped at step `j`, in the publish call of publisher `c` that began at step `i`
      with the clock at `now`. */
  ghost predicate PublishedAt(s0: Bus, run: seq<Step>, n: nat, i: nat, j: nat, c: nat, now: int)
    requires Shape(s0)
  {
    && i < j < |run| && run[i].BeginPublish? && run[i].c == c && run[i].now == now
    && run[j] == StoreStamp(c) && NoBegin(run, i + 1, j)
    && Legal(s0, run[..j]) && |After(s0, run[..j]).ring.log| == n
  }

  ghost predicate InCallOf(s: Bus, c: nat) {
    s.lock == Some(c) && (s.ring.prod.Scanning? || s.ring.prod.Writing?)
  }

  ghost predicate ClockOfCall(run: seq<Step>, s: Bus) {
    s.ring.prod.Scanning? || s.ring.prod.Writing? ==>
      s.lock.Some? && exists i: nat :: InFlightSince(run, i, s.lock.value, s.ring.prod.msg.timestampNs)
  }

  ghost predicate HasClock(s0: Bus, run: seq<Step>, n: nat, c: nat, now: int)
    requires Shape(s0)
  {
    exists i: nat, j: nat :: PublishedAt(s0, run, n, i, j, c, now)
  }

  ghost predicate ClockOfLog(s0: Bus, run: seq<Step>, s: Bus)
    requires Shape(s0)
  {
    && |s.origin| == |s.ring.log|
    && forall n: nat :: n < |s.ring.log| ==> HasClock(s0, run, n, s.origin[n], s.ring.log[n].timestampNs)
  }

  /** What a step does to the call in flight and to the log. */
  ghost predicate ClockStep(s: Bus, a: Step, t: Bus) {
    && (match a
        case BeginPublish(c, now) =>
          InCallOf(t, c) && t.ring.prod.msg.timestampNs == now
        case _ =>
          t.ring.prod.Scanning? || t.ring.prod.Writing? ==>
            && (s.ring.prod.Scanning? || s.ring.prod.Writing?)
            && t.ring.prod.msg == s.ring.prod.msg && t.lock == s.lock)
    && (match a
        case StoreStamp(c) =>
          InCallOf(s, c) && t.ring.log == s.ring.log + [s.ring.prod.msg] && t.origin == s.origin + [c]
        case _ => t.ring.log == s.ring.log && t.origin == s.origin)
  }

  lemma PublisherClock(s: Bus, a: Step)
    requires Shape(s) && LockOk(s) && Enabled(s, a) && ByPublisher(a)
    ensures ClockStep(s, a, DoPublisher(s, a))
  {
  }

  lemma DispatchClock(s: Bus, a: Step)
    requires Shape(s) && Enabled(s, a) && ByFanOut(a)
    ensures ClockStep(s, a, DoDispatch(s, a))
  {
  }

  lemma SubscriberClock(s: Bus, a: Step)
    requires Shape(s) && Enabled(s, a) && BySubscriber(a)
    ensures ClockStep(s, a, DoSubscriber(s, a))
  {
  }

  lemma OtherClock(s: Bus, a: Step)
    requires Shape(s) && Enabled(s, a) && !ByPublisher(a) && !ByFanOut(a) && !BySubscriber(a)
    ensures ClockStep(s, a, DoOther(s, a))
  {
  }

  lemma StepClock(s: Bus, a: Step)
    requires Shape(s) && LockOk(s) && Enabled(s, a)
    ensures ClockStep(s, a, Do(s, a))
  {
    if ByPublisher(a) {
      PublisherClock(s, a);
    } else if ByFanOut(a) {
      DispatchClock(s, a);
    } else if BySubscriber(a) {
      SubscriberClock(s, a);
    } else {
      OtherClock(s, a);
    }
  }

  lemma CallClockStep(run: seq<Step>, a: Step, s: Bus, t: Bus)
    requires ClockOfCall(run, s) && ClockStep(s, a, t)
    ensures ClockOfCall(run + [a], t)
  {
    if t.ring.prod.Scanning? || t.ring.prod.Writing? {
      if a.BeginPublish? {
        assert InFlightSince(run + [a], |run|, t.lock.value, t.ring.prod.msg.timestampNs);
      } else {
        var i: nat :| InFlightSince(run, i, s.lock.value, s.ring.prod.msg.timestampNs);
        assert InFlightSince(run + [a], i, t.lock.value, t.ring.prod.msg.timestampNs);
      }
    }
  }

  lemma PublishedEarlier(s0: Bus, run: seq<Step>, a: Step, n: nat, c: nat, now: int)
    requires Shape(s0) && HasClock(s0, run, n, c, now)
    ensures HasClock(s0, run + [a], n, c, now)
  {
    var i: nat, j: nat :| PublishedAt(s0, run, n, i, j, c, now);
    assert (run + [a])[..j] == run[..j];
    assert PublishedAt(s0, run + [a], n, i, j, c, now);
  }

  lemma PublishedNow(s0: Bus, run: seq<Step>, c: nat, now: int)
    requires Shape(s0) && Legal(s0, run)
    requires exists i: nat :: InFlightSince(run, i, c, now)
    ensures HasClock(s0, run + [StoreStamp(c)], |After(s0, run).ring.log|, c, now)
  {
    var i: nat :| InFlightSince(run, i, c, now);
    var more := run + [StoreStamp(c)];
    assert more[..|run|] == run;
    assert PublishedAt(s0, more, |After(s0, run).ring.log|, i, |run|, c, now);
  }

  lemma LogClockStep(s0: Bus, run: seq<Step>, a: Step, t: Bus)
    requires Shape(s0) && Legal(s0, run)
    requires ClockOfCall(run, After(s0, run)) && ClockOfLog(s0, run, After(s0, run))
    requires ClockStep(After(s0, run), a, t)
    ensures ClockOfLog(s0, run + [a], t)
  {
    var s := After(s0, run);
    forall n: nat | n < |t.ring.log|
      ensures HasClock(s0, run + [a], n, t.origin[n], t.ring.log[n].timestampNs)
    {
      if n < |s.ring.log| {
        PublishedEarlier(s0, run, a, n, s.origin[n], s.ring.log[n].timestampNs);
      } else {
        PublishedNow(s0, run, t.origin[n], t.ring.log[n].timestampNs);
      }
    }
  }

  ghost predicate ClockOk(s0: Bus, run: seq<Step>)
    requires Shape(s0) && Legal(s0, run)
  {
    ClockOfCall(run, After(s0, run)) && ClockOfLog(s0, run, After(s0, run))
  }

  lemma {:induction false} RunKeepsClock(s0: Bus, run: seq<Step>)
    requires Run(s0, run)
    ensures ClockOk(s0, run)
    decreases |run|
  {
    if run == [] {
      InitIsQuiet(s0);
    } else {
      LastStep(s0, run);
      RunKeepsClock(s0, Front(run));
      RunKeepsLock(s0, Front(run));
      LastKeepsClock(s0, run);
    }
  }

  lemma LastKeepsClock(s0: Bus, run: seq<Step>)
    requires Shape(s0) && Legal(s0, run) && run != [] && Legal(s0, Front(run))
    requires LockOk(After(s0, Front(run))) && ClockOk(s0, Front(run))
    ensures ClockOk(s0, run)
  {
    LastStep(s0, run);
    FrontAndLast(run);
    OneMoreKeepsClock(s0, Front(run), Last(run), run);
  }

  lemma RunKeepsLock(s0: Bus, run: seq<Step>)
    requires Run(s0, run)
    ensures LockOk(After(s0, run))
  {
    BS.RunKeepsInv(s0, run);
  }

  lemma OneMoreKeepsClock(s0: Bus, run: seq<Step>, a: Step, more: seq<Step>)
    requires Shape(s0) && Legal(s0, run) && LockOk(After(s0, run)) && Enabled(After(s0, run), a)
    requires ClockOk(s0, run)
    requires run + [a] == more && Legal(s0, more) && After(s0, more) == Do(After(s0, run), a)
    ensures ClockOk(s0, more)
  {
    StepClock(After(s0, run), a);
    CallClockStep(run, a, After(s0, run), After(s0, more));
    LogClockStep(s0, run, a, After(s0, more));
  }

  lemma InitIsQuiet(s0: Bus)
    requires Init(s0)
    ensures ClockOfCall([], s0) && ClockOfLog(s0, [], s0)
  {
  }

  /** The timestamp of every message in the ring is what the bus's clock said at the start of the very
      publish call that published it, made by the publisher it comes from. */
  lemma TimestampIsClock(s0: Bus, run: seq<Step>, n: nat)
    requires Run(s0, run) && n < |After(s0, run).ring.log|
    ensures
      var s := After(s0, run);
      n < |s.origin| && HasClock(s0, run, n, s.origin[n], s.ring.log[n].timestampNs)
  {
    RunKeepsClock(s0, run);
  }
}
