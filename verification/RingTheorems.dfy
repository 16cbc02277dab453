/** Safety of whole runs of the ring protocol. */
module RingTheorems {
  import opened Words
  import opened Slots
  import opened Sequences
  import opened RingProtocol
  import opened RingSafety

  /** No torn and no overwritten read: in every state of every run, whatever a consumer has read
      so far are cells of the one message it is consuming, and the producer is writing elsewhere. */
  lemma NoTornRead(s0: State, run: seq<Step>, k: nat)
    requires Run(s0, run)
    requires k < |After(s0, run).clients| && After(s0, run).clients[k].Holding?
    requires After(s0, run).clients[k].phase.Reading?
    ensures
      var s := After(s0, run);
      var Reading(next, got) := s.clients[k].phase;
      && next < |s.log|
      && (forall j :: j in got ==> 0 <= j < |Image(s.log[next])| && got[j] == Image(s.log[next])[j])
      && (s.prod.Writing? ==> Index(s.prod.sq, s.bits) != Index(next, s.bits))
  {
    RunKeepsInv(s0, run);
    var s := After(s0, run);
    assert ClientOk(s, s.clients[k]);
    if s.prod.Writing? {
      IndexApart(s.clients[k].phase.next, s.prod.sq, s.bits);
    }
  }

  /** Every message a live consumer still has to read is in its slot, complete and correctly
      stamped, and the producer is not writing there. */
  lemma AwaitedMessagesAreSafe(s0: State, run: seq<Step>, i: nat, n: nat)
    requires Run(s0, run)
    requires Live(After(s0, run), i) && After(s0, run).cursors[i] <= n < |After(s0, run).log|
    ensures
      var s := After(s0, run);
      && s.stamps[Index(n, s.bits)] == n + 1
      && Image(s.log[n]) <= s.cells[Index(n, s.bits)]
      && (s.prod.Writing? ==> Index(s.prod.sq, s.bits) != Index(n, s.bits))
  {
    RunKeepsInv(s0, run);
    var s := After(s0, run);
    assert Intact(s, n);
    if s.prod.Writing? {
      IndexApart(n, s.prod.sq, s.bits);
    }
  }

  /** Whatever a consumer has been given is the log segment from its start to its cursor. */
  lemma ReceivedIsLogSegment(s0: State, run: seq<Step>, k: nat)
    requires Run(s0, run)
    requires k < |After(s0, run).clients| && After(s0, run).clients[k].Holding?
    ensures
      var s := After(s0, run);
      var c := s.clients[k];
      IsSegment(c.received, s.log, c.start, s.cursors[c.id])
  {
    RunKeepsInv(s0, run);
    assert ClientOk(After(s0, run), After(s0, run).clients[k]);
  }

  /** A consumer never falls behind: the stamp it sees is the one it expects or an older one. */
  lemma NeverBehind(s0: State, run: seq<Step>, k: nat)
    requires Run(s0, run)
    requires k < |After(s0, run).clients| && After(s0, run).clients[k].Holding?
    ensures !After(s0, run).clients[k].phase.Behind?
    ensures
      var s := After(s0, run);
      s.clients[k].phase.Polling? ==>
        var next := s.clients[k].phase.next;
        var stamp := s.stamps[Index(next, s.bits)];
        && (stamp == next + 1 <==> next < |s.log|)
        && (next == |s.log| ==> stamp == if next < Pow2(s.bits) then 0 else next + 1 - Pow2(s.bits))
  {
    RunKeepsInv(s0, run);
    var s := After(s0, run);
    assert ClientOk(s, s.clients[k]);
    if s.clients[k].phase.Polling? {
      StampCases(s, s.clients[k].phase.next);
    }
  }

  /** The scan is sound although it is not atomic: from the moment its test passes until the
      publish commits, every cursor live at that moment is less than one lap behind. */
  lemma ScanIsSound(s0: State, run: seq<Step>, i: nat)
    requires Run(s0, run)
    requires After(s0, run).prod.Writing? && Live(After(s0, run), i)
    ensures
      var s := After(s0, run);
      s.cursors[i] <= s.prod.sq < s.cursors[i] + Pow2(s.bits)
  {
    RunKeepsInv(s0, run);
  }

  /** Live cursors stay within one lap of the stamped count, and may be one ahead of the head only
      between the two commit stores. */
  lemma LagIsBounded(s0: State, run: seq<Step>, i: nat)
    requires Run(s0, run) && Live(After(s0, run), i)
    ensures
      var s := After(s0, run);
      && s.cursors[i] <= |s.log| <= s.cursors[i] + Pow2(s.bits)
      && s.cursors[i] < CONSUMER_FREE
      && (s.cursors[i] > s.head ==> s.prod.Stamped? && s.cursors[i] == s.head + 1)
  {
    RunKeepsInv(s0, run);
  }

  /** The subtraction in the refusal test never wraps, so the test says what it seems to say: the scan
      has seen a cursor that is a lap or more behind. */
  lemma TestNeverWraps(s0: State, run: seq<Step>)
    requires Run(s0, run) && After(s0, run).prod.Scanning?
    ensures
      var s := After(s0, run);
      var Scanning(_, sq, _, min) := s.prod;
      && (min != U64_MAX ==> WrappingSub(sq, min) == sq - min)
      && (Refuses(sq, min, s.bits) <==> min + Pow2(s.bits) <= sq)
  {
    RunKeepsInv(s0, run);
  }

  /** The deployed ring: `1 << 16` slots, and the mask keeps the low 16 bits. */
  const RING_BITS: nat := 16

  lemma DeployedSize(n: nat)
    ensures Pow2(RING_BITS) == 65536 && Index(n, RING_BITS) == n % 65536
  {
    assert Pow2(8) == 256;
    assert Pow2(12) == 16 * Pow2(8);
    assert Pow2(16) == 16 * Pow2(12);
    MaskIsModulo(n, RING_BITS);
  }

  /** The ring holds the last lap of messages, each in its own slot with its own stamp, except the
      one being overwritten. */
  lemma WindowInvariant(s0: State, run: seq<Step>, n: nat)
    requires Run(s0, run)
    requires n < |After(s0, run).log| <= n + Pow2(After(s0, run).bits)
    ensures
      var s := After(s0, run);
      && Index(n, s.bits) == n % Pow2(s.bits)
      && s.stamps[Index(n, s.bits)] == n + 1
      && (Image(s.log[n]) <= s.cells[Index(n, s.bits)]
          || (s.prod.Writing? && s.prod.sq == n + Pow2(s.bits)))
      && (forall n' :: n < n' < |s.log| ==> Index(n', s.bits) != Index(n, s.bits))
  {
    RunKeepsInv(s0, run);
    var s := After(s0, run);
    MaskIsModulo(n, s.bits);
    WindowDistinct(n, |s.log|, s.bits);
    assert Intact(s, n) || (s.prod.Writing? && s.prod.sq == n + Pow2(s.bits));
  }

  /** Entry `j` held a cursor at some moment between the start of client `k`'s call and now. */
  ghost predicate SeenTaken(s: State, run: seq<Step>, from: nat, j: nat)
    requires Shape(s) && Legal(s, run)
  {
    exists n :: from <= n <= |run| && Legal(s, run[..n]) && !FreeAt(s, run[..n], j)
  }

  ghost predicate FreeAt(s: State, run: seq<Step>, j: nat)
    requires Shape(s) && Legal(s, run)
  {
    j < MAX_CONSUMERS ==> After(s, run).cursors[j] == CONSUMER_FREE
  }

  /** The call of client `k` that is registering now began after `from` steps. */
  ghost predicate CallBegan(run: seq<Step>, k: nat, from: nat) {
    0 < from <= |run| && run[from - 1] == RegisterLoad(k)
    && (forall n :: from <= n < |run| ==> run[n] != RegisterLoad(k))
  }

  lemma SeenLater(s0: State, run: seq<Step>, from: nat, j: nat)
    requires Shape(s0) && Legal(s0, run) && run != [] && SeenTaken(s0, Front(run), from, j)
    ensures SeenTaken(s0, run, from, j)
  {
    var before := Front(run);
    var n :| from <= n <= |before| && Legal(s0, before[..n]) && !FreeAt(s0, before[..n], j);
    assert before[..n] == run[..n];
  }

  lemma SeenNow(s0: State, run: seq<Step>, from: nat, j: nat)
    requires Shape(s0) && Legal(s0, run) && from < |run| && !FreeAt(s0, Front(run), j)
    ensures SeenTaken(s0, run, from, j)
  {
    assert run[..|run| - 1] == Front(run);
  }

  /** A registration moves on from an entry only after finding it taken. */
  lemma RegistrationMoves(s: State, a: Step, k: nat)
    requires Shape(s) && Enabled(s, a)
    requires k < |Do(s, a).clients| && Do(s, a).clients[k].Registering? && a != RegisterLoad(k)
    ensures k < |s.clients| && s.clients[k].Registering?
    ensures
      var i, i' := s.clients[k].i, Do(s, a).clients[k].i;
      i' == i || (i' == i + 1 && i < MAX_CONSUMERS && s.cursors[i] != CONSUMER_FREE)
  {
  }

  ghost predicate EarlierSeenTaken(s0: State, run: seq<Step>, k: nat, from: nat)
    requires Shape(s0) && Legal(s0, run)
  {
    && k < |After(s0, run).clients| && After(s0, run).clients[k].Registering?
    && CallBegan(run, k, from)
    && forall j :: 0 <= j < After(s0, run).clients[k].i ==> SeenTaken(s0, run, from, j)
  }

  lemma EarlierSeenTakenStep(s0: State, run: seq<Step>, k: nat, from: nat)
    requires Shape(s0) && Legal(s0, run) && run != [] && Last(run) != RegisterLoad(k)
    requires k < |After(s0, run).clients| && After(s0, run).clients[k].Registering?
    requires EarlierSeenTaken(s0, Front(run), k, from)
    ensures EarlierSeenTaken(s0, run, k, from)
  {
    var s := After(s0, Front(run));
    RegistrationMoves(s, Last(run), k);
    forall j | 0 <= j < After(s0, run).clients[k].i
      ensures SeenTaken(s0, run, from, j)
    {
      if j < s.clients[k].i {
        SeenLater(s0, run, from, j);
      } else {
        SeenNow(s0, run, from, j);
      }
    }
  }

  /** While a registration is at entry `i`, every earlier entry was seen taken during this call. */
  lemma {:induction false} EarlierEntriesSeenTaken(s0: State, run: seq<Step>, k: nat) returns (from: nat)
    requires Init(s0) && Legal(s0, run)
    requires k < |After(s0, run).clients| && After(s0, run).clients[k].Registering?
    ensures EarlierSeenTaken(s0, run, k, from)
    decreases |run|
  {
    assert run != [];
    if Last(run) == RegisterLoad(k) {
      from := |run|;
    } else {
      RegistrationMoves(After(s0, Front(run)), Last(run), k);
      from := EarlierEntriesSeenTaken(s0, Front(run), k);
      EarlierSeenTakenStep(s0, run, k, from);
    }
  }

  /** Client `k`'s last call of `register_consumer` loaded `start` as the head. */
  ghost predicate LoadedHead(s0: State, run: seq<Step>, k: nat, start: nat)
    requires Shape(s0)
  {
    exists from: nat ::
      CallBegan(run, k, from) && Legal(s0, run[..from - 1]) && After(s0, run[..from - 1]).head == start
  }

  lemma LoadedEarlier(s0: State, run: seq<Step>, a: Step, k: nat, start: nat)
    requires Shape(s0) && LoadedHead(s0, run, k, start) && a != RegisterLoad(k)
    ensures LoadedHead(s0, run + [a], k, start)
  {
    var from: nat :|
      CallBegan(run, k, from) && Legal(s0, run[..from - 1]) && After(s0, run[..from - 1]).head == start;
    assert (run + [a])[..from - 1] == run[..from - 1];
    assert CallBegan(run + [a], k, from);
  }

  lemma LoadedNow(s0: State, run: seq<Step>, k: nat)
    requires Shape(s0) && Legal(s0, run)
    ensures LoadedHead(s0, run + [RegisterLoad(k)], k, After(s0, run).head)
  {
    var more := run + [RegisterLoad(k)];
    assert more[..|run|] == run;
    assert CallBegan(more, k, |run| + 1);
  }

  ghost predicate HasStart(s: State, k: nat) {
    k < |s.clients| && !s.clients[k].Absent?
  }

  lemma StartStep(s: State, a: Step, k: nat)
    requires Shape(s) && Enabled(s, a) && HasStart(Do(s, a), k)
    ensures if a == RegisterLoad(k) then Do(s, a).clients[k].start == s.head
            else HasStart(s, k) && Do(s, a).clients[k].start == s.clients[k].start
  {
  }

  /** A consumer starts at the head that its own registration call loaded, at the moment of that load. */
  lemma {:induction false} StartIsLoadedHead(s0: State, run: seq<Step>, k: nat)
    requires Init(s0) && Legal(s0, run) && HasStart(After(s0, run), k)
    ensures LoadedHead(s0, run, k, After(s0, run).clients[k].start)
    decreases |run|
  {
    var front, a := Front(run), Last(run);
    LastStep(s0, run);
    StartStep(After(s0, front), a, k);
    assert run == front + [a];
    if a == RegisterLoad(k) {
      LoadedNow(s0, front, k);
    } else {
      StartIsLoadedHead(s0, front, k);
      LoadedEarlier(s0, front, a, k, After(s0, run).clients[k].start);
    }
  }

  /** `Full` is only returned when each entry was taken at some moment of that call. */
  lemma FullMeansEachSeenTaken(s0: State, run: seq<Step>, k: nat) returns (from: nat)
    requires Init(s0) && Legal(s0, run) && run != [] && Last(run) == RegisterFull(k)
    ensures CallBegan(Front(run), k, from)
    ensures forall j :: 0 <= j < MAX_CONSUMERS ==> SeenTaken(s0, Front(run), from, j)
  {
    from := EarlierEntriesSeenTaken(s0, Front(run), k);
  }
}
