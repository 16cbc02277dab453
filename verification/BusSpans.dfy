/** Over which messages a subscriber is registered, and what it gets of them. */
module BusSpans {
  import opened Slots
  import opened Sequences
  import opened Handshake
  import opened BusProtocol
  import opened BusInvariant
  import opened BusTheorems
  import BS = BusSafety

  // ---- The span is the registration ----

  /** Step `n` of the run is `a`, taken when message `next` was the next one to be fanned out. */
  ghost predicate TakenAt(s0: Bus, run: seq<Step>, a: Step, n: nat, next: nat)
    requires Shape(s0)
  {
    n < |run| && run[n] == a && Legal(s0, run[..n]) && NextFan(After(s0, run[..n])) == next
  }

  ghost predicate WasTakenAt(s0: Bus, run: seq<Step>, a: Step, next: nat)
    requires Shape(s0)
  {
    exists n: nat :: TakenAt(s0, run, a, n, next)
  }

  /** The subscriber has been inserted into the registry, and perhaps removed again. */
  ghost predicate HasJoined(s: Bus, c: nat) {
    IsSubscriber(s, c) && !s.conns[c].sub.Joining?
  }

  lemma TakenEarlier(s0: Bus, run: seq<Step>, a: Step, next: nat)
    requires Shape(s0) && run != [] && WasTakenAt(s0, Front(run), a, next)
    ensures WasTakenAt(s0, run, a, next)
  {
    var n: nat :| TakenAt(s0, Front(run), a, n, next);
    assert Front(run)[..n] == run[..n];
    assert TakenAt(s0, run, a, n, next);
  }

  lemma TakenLast(s0: Bus, run: seq<Step>)
    requires Shape(s0) && run != [] && Legal(s0, Front(run))
    ensures WasTakenAt(s0, run, Last(run), NextFan(After(s0, Front(run))))
  {
    assert run[..|run| - 1] == Front(run);
    assert TakenAt(s0, run, Last(run), |run| - 1, NextFan(After(s0, Front(run))));
  }

  /** The start of `c`'s span has not moved, nor, if it is removed, the end. */
  ghost predicate SpanKept(s: Bus, t: Bus, c: nat) {
    && (HasJoined(t, c) ==> HasJoined(s, c) && t.conns[c].joinAt == s.conns[c].joinAt)
    && (IsRemoved(t, c) ==> IsRemoved(s, c) && t.conns[c].upTo == s.conns[c].upTo)
  }

  lemma SpanKeptByPublisher(s: Bus, a: Step, c: nat)
    requires Shape(s) && Enabled(s, a) && ByPublisher(a)
    ensures SpanKept(s, DoPublisher(s, a), c)
  {
  }

  lemma SpanKeptByFanOut(s: Bus, a: Step, c: nat)
    requires Shape(s) && RegistryOk(s) && Enabled(s, a) && ByFanOut(a)
    ensures SpanKept(s, DoDispatch(s, a), c)
  {
    if a.FanOne? {
      assert InRegistry(s.conns[s.registry[a.id].conn]);
    }
  }

  lemma SpanKeptBySubscriber(s: Bus, a: Step, c: nat)
    requires Shape(s) && Enabled(s, a) && BySubscriber(a) && a != Insert(c) && a != Remove(c)
    ensures SpanKept(s, DoSubscriber(s, a), c)
  {
  }

  lemma SpanKeptByOther(s: Bus, a: Step, c: nat)
    requires Shape(s) && Enabled(s, a) && !ByPublisher(a) && !ByFanOut(a) && !BySubscriber(a)
    ensures SpanKept(s, DoOther(s, a), c)
  {
  }

  /** No step but a subscriber's own insertion and removal moves the start of its span, or once it is
      removed the end of it. */
  lemma OthersKeepSpan(s: Bus, a: Step, c: nat)
    requires Inv(s) && Enabled(s, a) && a != Insert(c) && a != Remove(c)
    ensures SpanKept(s, Do(s, a), c)
  {
    if ByPublisher(a) {
      SpanKeptByPublisher(s, a, c);
    } else if ByFanOut(a) {
      SpanKeptByFanOut(s, a, c);
    } else if BySubscriber(a) {
      SpanKeptBySubscriber(s, a, c);
    } else {
      SpanKeptByOther(s, a, c);
    }
  }

  lemma InsertStartsSpan(s: Bus, c: nat)
    requires Shape(s) && Enabled(s, Insert(c))
    ensures
      var t := Do(s, Insert(c));
      HasJoined(t, c) && !IsRemoved(t, c) && t.conns[c].joinAt == NextFan(s)
  {
  }

  lemma RemoveEndsSpan(s: Bus, c: nat)
    requires Shape(s) && PositionsOk(s) && Enabled(s, Remove(c))
    ensures
      var t := Do(s, Remove(c));
      && HasJoined(s, c) && HasJoined(t, c)
      && t.conns[c].joinAt == s.conns[c].joinAt && t.conns[c].upTo == NextFan(s)
  {
    assert InRegistry(s.conns[c]);
  }

  /** Where a subscriber's span starts, and once it is removed ends, is where the run inserted it into
      the registry and removed it. */
  lemma {:induction false} SpanEndsInRun(s0: Bus, run: seq<Step>, c: nat)
    requires Run(s0, run) && HasJoined(After(s0, run), c)
    ensures WasTakenAt(s0, run, Insert(c), After(s0, run).conns[c].joinAt)
    ensures IsRemoved(After(s0, run), c) ==> WasTakenAt(s0, run, Remove(c), After(s0, run).conns[c].upTo)
    decreases |run|
  {
    var front, a := Front(run), Last(run);
    LastStep(s0, run);
    BS.RunKeepsInv(s0, front);
    TakenLast(s0, run);
    if a == Insert(c) {
      InsertStartsSpan(After(s0, front), c);
    } else {
      if a == Remove(c) {
        RemoveEndsSpan(After(s0, front), c);
      } else {
        OthersKeepSpan(After(s0, front), a, c);
      }
      SpanEndsInRun(s0, front, c);
      TakenEarlier(s0, run, Insert(c), After(s0, front).conns[c].joinAt);
      if a != Remove(c) && IsRemoved(After(s0, front), c) {
        TakenEarlier(s0, run, Remove(c), After(s0, front).conns[c].upTo);
      }
    }
  }

  /** A subscriber's span is its time in the registry: it starts at the message that was next when the
      subscriber was inserted; while the subscriber is registered it reaches to the last fan-out made to
      it, and afterwards to the message that was next when it was removed. */
  lemma SpanIsRegistration(s0: Bus, run: seq<Step>, c: nat)
    requires Run(s0, run) && HasJoined(After(s0, run), c)
    ensures
      var s := After(s0, run);
      var k := s.conns[c];
      && WasTakenAt(s0, run, Insert(c), k.joinAt)
      && (InRegistry(k) ==> k.upTo == Position(s, k.id))
      && (IsRemoved(s, c) ==> WasTakenAt(s0, run, Remove(c), k.upTo))
  {
    SpanEndsInRun(s0, run, c);
    Conservation(s0, run, c);
  }

  // ---- What a subscriber gets of a span ----

  /** The numbers of the messages that were put into a subscriber's queue, in that order. */
  ghost function Got(k: Conn): seq<nat>
    requires k.Sub?
  {
    k.taken + Tags(k.inbox)
  }

  /** No message numbered from `lo` up to `hi` was dropped. */
  ghost predicate NoDropWithin(fates: seq<Fate>, lo: nat, hi: nat) {
    forall i :: 0 <= i < |fates| && lo <= fates[i].n < hi ==> fates[i].kept
  }

  lemma {:induction false} MatchingSplit(log: seq<Msg>, filter: Filter, lo: nat, mid: nat, hi: nat)
    requires lo <= mid <= hi <= |log|
    ensures Matching(log, filter, lo, hi) == Matching(log, filter, lo, mid) + Matching(log, filter, mid, hi)
    decreases hi
  {
    if hi > mid {
      MatchingSplit(log, filter, lo, mid, hi - 1);
    }
  }

  lemma {:induction false} NumbersAt(fates: seq<Fate>)
    ensures |Numbers(fates)| == |fates|
    ensures forall i :: 0 <= i < |fates| ==> Numbers(fates)[i] == fates[i].n
  {
    if fates != [] {
      NumbersAt(Front(fates));
    }
  }

  lemma {:induction false} KeptConcat(a: seq<Fate>, b: seq<Fate>)
    ensures Kept(a + b) == Kept(a) + Kept(b)
    decreases |b|
  {
    if b == [] {
      assert a + b == a;
    } else {
      KeptConcat(a, Front(b));
      Unsnoc(a, b);
      assert Front(a + b) == a + Front(b);
    }
  }

  lemma {:induction false} AllKept(fates: seq<Fate>)
    requires forall i :: 0 <= i < |fates| ==> fates[i].kept
    ensures Kept(fates) == Numbers(fates)
  {
    if fates != [] {
      AllKept(Front(fates));
    }
  }

  lemma {:induction false} NumbersConcat(a: seq<Fate>, b: seq<Fate>)
    ensures Numbers(a + b) == Numbers(a) + Numbers(b)
    decreases |b|
  {
    if b == [] {
      assert a + b == a;
    } else {
      NumbersConcat(a, Front(b));
      Unsnoc(a, b);
      assert Front(a + b) == a + Front(b);
    }
  }

  lemma SplitUnique<T>(a: seq<T>, b: seq<T>, c: seq<T>, a': seq<T>, b': seq<T>, c': seq<T>)
    requires a + (b + c) == a' + (b' + c') && |a| == |a'| && |b| == |b'|
    ensures b == b'
  {
    Middle(a, b, c);
    Middle(a', b', c');
  }

  /** The fates, split where their numbers are. */
  lemma SplitFates(fates: seq<Fate>, a: seq<nat>, b: seq<nat>, c: seq<nat>)
    returns (before: seq<Fate>, within: seq<Fate>, after: seq<Fate>)
    requires Numbers(fates) == a + (b + c)
    ensures fates == before + (within + after) && Numbers(within) == b
  {
    NumbersAt(fates);
    before, within, after := fates[..|a|], fates[|a|..|a| + |b|], fates[|a| + |b|..];
    assert fates == before + (within + after);
    NumbersConcat(before, within + after);
    NumbersConcat(within, after);
    NumbersAt(before);
    NumbersAt(within);
    SplitUnique(Numbers(before), Numbers(within), Numbers(after), a, b, c);
  }

  lemma NoDropInPart(before: seq<Fate>, within: seq<Fate>, after: seq<Fate>, lo: nat, hi: nat)
    requires NoDropWithin(before + (within + after), lo, hi)
    requires forall j :: 0 <= j < |within| ==> lo <= within[j].n < hi
    ensures Kept(within) == Numbers(within)
  {
    var fates := before + (within + after);
    forall j | 0 <= j < |within|
      ensures within[j].kept
    {
      assert fates[|before| + j] == within[j];
    }
    AllKept(within);
  }

  /** A stretch of numbers none of which was dropped is a stretch of the kept ones. */
  lemma KeptStretch(fates: seq<Fate>, a: seq<nat>, b: seq<nat>, c: seq<nat>, lo: nat, hi: nat) returns (i: nat)
    requires Numbers(fates) == a + (b + c) && NoDropWithin(fates, lo, hi)
    requires forall j :: 0 <= j < |b| ==> lo <= b[j] < hi
    ensures i + |b| <= |Kept(fates)| && Kept(fates)[i..i + |b|] == b
  {
    var before, within, after := SplitFates(fates, a, b, c);
    NumbersAt(within);
    NoDropInPart(before, within, after, lo, hi);
    KeptConcat(before, within + after);
    KeptConcat(within, after);
    i := |Kept(before)|;
    Middle(Kept(before), Kept(within), Kept(after));
  }

  /** Of a part of its span in which nothing was dropped, a subscriber gets every matching message, one
      after the other and with nothing in between. */
  lemma GetsWholeSpan(log: seq<Msg>, depth: nat, k: Conn, lo: nat, hi: nat) returns (i: nat)
    requires k.Sub? && AllFit(log) && SubOk(log, depth, k)
    requires k.joinAt <= lo <= hi <= k.upTo && NoDropWithin(k.fates, lo, hi)
    ensures
      var m := Matching(log, k.filter, lo, hi);
      i + |m| <= |Got(k)| && Got(k)[i..i + |m|] == m
  {
    var before, within, after :=
      Matching(log, k.filter, k.joinAt, lo), Matching(log, k.filter, lo, hi), Matching(log, k.filter, hi, k.upTo);
    MatchingSplit(log, k.filter, k.joinAt, lo, k.upTo);
    MatchingSplit(log, k.filter, lo, hi, k.upTo);
    ElementsBetween(log, k.filter, lo, hi);
    i := KeptStretch(k.fates, before, within, after, lo, hi);
  }

  lemma ElementsBetween(log: seq<Msg>, filter: Filter, lo: nat, hi: nat)
    requires lo <= hi <= |log|
    ensures
      var m := Matching(log, filter, lo, hi);
      forall j :: 0 <= j < |m| ==> lo <= m[j] < hi
  {
    var m := Matching(log, filter, lo, hi);
    MatchingWithin(log, filter, lo, hi);
    forall j | 0 <= j < |m|
      ensures lo <= m[j] < hi
    {
      assert m[j] in m;
    }
  }

  lemma Middle<T>(a: seq<T>, b: seq<T>, c: seq<T>)
    ensures (a + (b + c))[|a|..|a| + |b|] == b
  {
  }

  /** From place `i` on, what subscriber `c` got are all the matching messages from `lo` up to `hi`. */
  ghost predicate GotAll(s: Bus, c: nat, lo: nat, hi: nat, i: nat) {
    && IsSubscriber(s, c) && hi <= |s.ring.log|
    && var m := Matching(s.ring.log, s.conns[c].filter, lo, hi);
       i + |m| <= |Got(s.conns[c])| && Got(s.conns[c])[i..i + |m|] == m
  }

  ghost predicate NoDropFor(s: Bus, c: nat, lo: nat, hi: nat) {
    IsSubscriber(s, c) && s.conns[c].joinAt <= lo <= hi <= s.conns[c].upTo && NoDropWithin(s.conns[c].fates, lo, hi)
  }

  /** Over any stretch in which it was registered and nothing was dropped for it, a subscriber got all
      matching messages of the stretch, in order and with nothing in between. */
  lemma SubscriberGetsAll(s0: Bus, run: seq<Step>, c: nat, lo: nat, hi: nat) returns (i: nat)
    requires Run(s0, run) && NoDropFor(After(s0, run), c, lo, hi)
    ensures GotAll(After(s0, run), c, lo, hi, i)
  {
    BS.RunKeepsInv(s0, run);
    SubFacts(After(s0, run), c);
    i := WholeSpanIsGot(After(s0, run), c, lo, hi);
  }

  lemma SubFacts(s: Bus, c: nat)
    requires Inv(s) && IsSubscriber(s, c)
    ensures AllFit(s.ring.log) && SubOk(s.ring.log, s.depth, s.conns[c])
  {
  }

  lemma WholeSpanIsGot(s: Bus, c: nat, lo: nat, hi: nat) returns (i: nat)
    requires AllFit(s.ring.log) && NoDropFor(s, c, lo, hi) && SubOk(s.ring.log, s.depth, s.conns[c])
    ensures GotAll(s, c, lo, hi, i)
  {
    i := GetsWholeSpan(s.ring.log, s.depth, s.conns[c], lo, hi);
  }

  lemma SameStretch(s: Bus, c: nat, d: nat, lo: nat, hi: nat, i: nat, j: nat) returns (n: nat)
    requires GotAll(s, c, lo, hi, i) && GotAll(s, d, lo, hi, j) && s.conns[c].filter == s.conns[d].filter
    ensures i + n <= |Got(s.conns[c])| && j + n <= |Got(s.conns[d])|
    ensures Got(s.conns[c])[i..i + n] == Got(s.conns[d])[j..j + n]
            == Matching(s.ring.log, s.conns[c].filter, lo, hi)
  {
    n := |Matching(s.ring.log, s.conns[c].filter, lo, hi)|;
  }

  /** Two subscribers with the same filter, over any stretch in which both were registered and nothing
      was dropped for either: both got the identical sequence, all matching messages of the stretch. */
  lemma SameFilterSameSequence(s0: Bus, run: seq<Step>, c: nat, d: nat, lo: nat, hi: nat)
    returns (i: nat, j: nat, n: nat)
    requires Run(s0, run) && NoDropFor(After(s0, run), c, lo, hi) && NoDropFor(After(s0, run), d, lo, hi)
    requires After(s0, run).conns[c].filter == After(s0, run).conns[d].filter
    ensures
      var s := After(s0, run);
      var a, b := s.conns[c], s.conns[d];
      && hi <= |s.ring.log| && i + n <= |Got(a)| && j + n <= |Got(b)|
      && Got(a)[i..i + n] == Got(b)[j..j + n] == Matching(s.ring.log, a.filter, lo, hi)
  {
    i := SubscriberGetsAll(s0, run, c, lo, hi);
    j := SubscriberGetsAll(s0, run, d, lo, hi);
    n := SameStretch(After(s0, run), c, d, lo, hi, i, j);
  }
}
