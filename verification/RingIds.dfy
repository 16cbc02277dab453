/** Who holds which entry. None of this needs the registration premise: whatever the schedule, the
    compare-exchange alone keeps ids exclusive. */
module RingIds {
  import opened Sequences
  import opened RingProtocol

  /** No number in the system is larger than the stamped count. */
  ghost predicate CountsOk(s: State)
    requires Shape(s)
  {
    && |s.log| <= MAX_MESSAGES
    && (forall i :: 0 <= i < |s.stamps| ==> s.stamps[i] <= |s.log|)
    && match s.prod
       case Idle => s.head == |s.log|
       case Scanning(_, sq, _, _) => sq == s.head == |s.log| < MAX_MESSAGES
       case Writing(_, sq, _) => sq == s.head == |s.log| < MAX_MESSAGES
       case Stamped(sq) => sq == s.head && s.head + 1 == |s.log|
  }

  ghost predicate HolderOk(s: State, c: Client)
    requires Shape(s) && ShapeOfClient(c)
  {
    match c
    case Absent => true
    case Registering(start, _) => start <= |s.log|
    case Holding(id, _, _, phase) =>
      && s.cursors[id] <= |s.log|
      && (phase.Polling? ==> phase.next <= |s.log|)
      && (phase.Reading? || phase.Delivered? ==> phase.next < |s.log|)
  }

  ghost predicate Owned(s: State) {
    && Shape(s) && CountsOk(s)
    && (forall k :: 0 <= k < |s.clients| ==> HolderOk(s, s.clients[k]))
    && (forall k, l :: 0 <= k < l < |s.clients| && s.clients[k].Holding? && s.clients[l].Holding? ==>
          s.clients[k].id != s.clients[l].id)
  }

  lemma ProducerKeepsOwned(s: State, a: Step)
    requires Owned(s) && Enabled(s, a) && ByProducer(a)
    ensures Owned(DoProducer(s, a))
  {
    var t := DoProducer(s, a);
    assert forall k :: 0 <= k < |t.clients| ==> HolderOk(s, s.clients[k]);
  }

  /** Client `k` changes, and with it at most the cursor of an id that no other client holds. */
  lemma ClientKeepsOwned(s: State, t: State, k: nat, id: nat)
    requires Owned(s) && k < |s.clients| == |t.clients| && ShapeOfClient(t.clients[k])
    requires t == s.(clients := s.clients[k := t.clients[k]], cursors := t.cursors)
    requires |t.cursors| == MAX_CONSUMERS && id < MAX_CONSUMERS && t.cursors == s.cursors[id := t.cursors[id]]
    requires HolderOk(t, t.clients[k])
    requires t.cursors != s.cursors || t.clients[k].Holding? ==>
      && (t.clients[k].Holding? ==> t.clients[k].id == id)
      && (forall l :: 0 <= l < |s.clients| && l != k && s.clients[l].Holding? ==> s.clients[l].id != id)
    ensures Owned(t)
  {
    forall l | 0 <= l < |t.clients|
      ensures ShapeOfClient(t.clients[l]) && HolderOk(t, t.clients[l])
    {
      assert l != k ==> HolderOk(s, s.clients[l]);
    }
  }

  lemma RegistrationKeepsOwned(s: State, a: Step)
    requires Owned(s) && Enabled(s, a) && ByRegistration(a)
    ensures Owned(DoRegistration(s, a))
  {
    var t, k := DoRegistration(s, a), a.k;
    assert HolderOk(s, s.clients[k]);
    if a.RegisterCas? && s.cursors[s.clients[k].i] == CONSUMER_FREE {
      var i := s.clients[k].i;
      forall l | 0 <= l < |s.clients| && s.clients[l].Holding?
        ensures s.clients[l].id != i
      {
        assert HolderOk(s, s.clients[l]);
      }
      ClientKeepsOwned(s, t, k, i);
    } else {
      ClientKeepsOwned(s, t, k, 0);
    }
  }

  lemma ConsumerKeepsOwned(s: State, a: Step, k: nat)
    requires Owned(s) && Enabled(s, a) && !ByProducer(a) && !ByRegistration(a)
    requires InPhase(s, k) && DoConsumer(s, a).clients == s.clients[k := DoConsumer(s, a).clients[k]]
    requires DoConsumer(s, a).clients[k].Holding? ==> DoConsumer(s, a).clients[k].id == s.clients[k].id
    requires
      DoConsumer(s, a).cursors == s.cursors[s.clients[k].id := DoConsumer(s, a).cursors[s.clients[k].id]]
    ensures Owned(DoConsumer(s, a))
  {
    assert HolderOk(s, s.clients[k]);
    ClientKeepsOwned(s, DoConsumer(s, a), k, s.clients[k].id);
  }

  lemma StepKeepsOwned(s: State, a: Step)
    requires Owned(s) && Enabled(s, a)
    ensures Owned(Do(s, a))
  {
    if ByProducer(a) {
      ProducerKeepsOwned(s, a);
    } else if ByRegistration(a) {
      RegistrationKeepsOwned(s, a);
    } else {
      ConsumerKeepsOwned(s, a, a.k);
    }
  }

  lemma {:induction false} RunKeepsOwned(s: State, run: seq<Step>)
    requires Init(s) && Legal(s, run)
    ensures Owned(After(s, run))
    decreases |run|
  {
    if run != [] {
      LastStep(s, run);
      RunKeepsOwned(s, Front(run));
      StepKeepsOwned(After(s, Front(run)), Last(run));
    }
  }

  ghost function Holders(s: State): set<nat> {
    set k: nat | k < |s.clients| && s.clients[k].Holding?
  }

  lemma {:induction false} ImageSize(s: State, ks: set<nat>, ids: set<nat>)
    requires forall k :: k in ks ==> k < |s.clients| && s.clients[k].Holding? && s.clients[k].id in ids
    requires forall k, l :: k in ks && l in ks && k != l ==> s.clients[k].id != s.clients[l].id
    ensures |ks| <= |ids|
    decreases |ks|
  {
    if k :| k in ks {
      ImageSize(s, ks - {k}, ids - {s.clients[k].id});
    }
  }

  function Below(n: nat): (r: set<nat>)
    ensures |r| == n
    ensures forall i: nat :: i in r <==> i < n
  {
    if n == 0 then {} else Below(n - 1) + {n - 1}
  }

  /** In every legal schedule, lapped registrations included, an id is held by at most one consumer, at
      most `MAX_CONSUMERS` are held at once, and the cursor of a held id is never the free sentinel. */
  lemma IdsAreExclusive(s0: State, run: seq<Step>)
    requires Init(s0) && Legal(s0, run)
    ensures
      var s := After(s0, run);
      && (forall k, l :: k in Holders(s) && l in Holders(s) && k != l ==> s.clients[k].id != s.clients[l].id)
      && |Holders(s)| <= MAX_CONSUMERS
      && (forall k :: k in Holders(s) ==> s.clients[k].id < MAX_CONSUMERS && s.cursors[s.clients[k].id] < CONSUMER_FREE)
  {
    RunKeepsOwned(s0, run);
    var s := After(s0, run);
    forall k | k in Holders(s)
      ensures s.clients[k].id < MAX_CONSUMERS && s.cursors[s.clients[k].id] < CONSUMER_FREE
    {
      assert HolderOk(s, s.clients[k]);
    }
    ImageSize(s, Holders(s), Below(MAX_CONSUMERS));
  }
}
