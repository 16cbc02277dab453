/** The ring as an object: its calls one at a time, each taken as a whole. */
module Ring {
  import opened Words
  import opened Slots
  import opened Options
  import opened RingProtocol
  import RP = RingProgress

  datatype PublishResult = Published | SlowConsumer | PayloadTooLarge

  datatype ConsumeResult = Consumed(msg: Msg) | NotYet | FellBehind

  class Ring {
    const bits: nat
    const stamps: array<nat>
    const cells: array2<int>
    const cursors: array<nat>
    var head: nat
    /** Every message ever published. */
    ghost var log: seq<Msg>

    ghost predicate Holds(i: nat, m: Msg)
      requires i < cells.Length0 && cells.Length1 == CELLS && Fits(m)
      reads cells
    {
      forall j :: 0 <= j < |Image(m)| ==> cells[i, j] == Image(m)[j]
    }

    ghost predicate ShapeOk() {
      && stamps.Length == cells.Length0 == Pow2(bits) && cells.Length1 == CELLS
      && cursors.Length == MAX_CONSUMERS && stamps != cursors
    }

    ghost predicate StampsOk()
      requires ShapeOk()
      reads this, stamps
    {
      && (forall k :: 0 <= k < |log| <= k + Pow2(bits) ==> stamps[Index(k, bits)] == k + 1)
      && (forall i :: |log| <= i < Pow2(bits) ==> stamps[i] == 0)
    }

    ghost predicate CellsOk()
      requires ShapeOk()
      reads this, cells
    {
      && (forall k :: 0 <= k < |log| ==> Fits(log[k]))
      && (forall k :: 0 <= k < |log| <= k + Pow2(bits) ==> Holds(Index(k, bits), log[k]))
      && (forall i, j :: |log| <= i < Pow2(bits) && 0 <= j < CELLS ==> cells[i, j] == 0)
    }

    ghost predicate CursorsOk()
      requires ShapeOk()
      reads this, cursors
    {
      forall i :: 0 <= i < MAX_CONSUMERS ==> cursors[i] == CONSUMER_FREE || cursors[i] <= |log|
    }

    ghost predicate Valid()
      reads this, stamps, cells, cursors
    {
      ShapeOk() && head == |log| <= MAX_MESSAGES && StampsOk() && CellsOk() && CursorsOk()
    }

    /** The entry is taken, and its consumer has at least a whole lap unread. */
    ghost predicate LapBehind(i: nat)
      requires cursors.Length == MAX_CONSUMERS && i < MAX_CONSUMERS
      reads this, cursors
    {
      cursors[i] != CONSUMER_FREE && cursors[i] + Pow2(bits) <= |log|
    }

    /** The object's memory as a state of the ring protocol with no call in flight. */
    ghost function Memory(): State
      requires ShapeOk()
      reads this, stamps, cells, cursors
    {
      State(bits, head, stamps[..], Rows(), cursors[..], Idle, [], log)
    }

    ghost function Rows(): seq<seq<int>>
      requires cells.Length1 == CELLS
      reads cells
    {
      seq(cells.Length0, x requires 0 <= x < cells.Length0 reads cells =>
        seq(CELLS, y requires 0 <= y < CELLS reads cells => cells[x, y]))
    }

    constructor (bits: nat)
      ensures Valid() && this.bits == bits && log == []
      ensures fresh(stamps) && fresh(cells) && fresh(cursors)
      ensures forall i :: 0 <= i < MAX_CONSUMERS ==> cursors[i] == CONSUMER_FREE
    {
      this.bits := bits;
      stamps := new nat[Pow2(bits)](_ => 0);
      cells := new int[Pow2(bits), CELLS]((_, _) => 0);
      cursors := new nat[MAX_CONSUMERS](_ => CONSUMER_FREE);
      head := 0;
      log := [];
    }

    /** Takes the first free entry at the current head, so that the consumer sees what is published
        from now on; fails exactly when every entry is taken. */
    method RegisterConsumer() returns (r: Option<nat>)
      requires Valid()
      modifies cursors
      ensures Valid()
      ensures r.None? <==> forall i :: 0 <= i < MAX_CONSUMERS ==> old(cursors[i]) != CONSUMER_FREE
      ensures r.None? ==> cursors[..] == old(cursors[..])
      ensures r.Some? ==>
        && r.value < MAX_CONSUMERS && old(cursors[r.value]) == CONSUMER_FREE
        && (forall i :: 0 <= i < r.value ==> old(cursors[i]) != CONSUMER_FREE)
        && cursors[..] == old(cursors[..])[r.value := |log|]
    {
      var start := head;
      for i := 0 to MAX_CONSUMERS
        invariant cursors[..] == old(cursors[..])
        invariant forall j :: 0 <= j < i ==> cursors[j] != CONSUMER_FREE
      {
        if cursors[i] == CONSUMER_FREE {
          cursors[i] := start;
          return Some(i);
        }
      }
      r := None;
    }

    /** Frees an entry; an id out of range is ignored. */
    method UnregisterConsumer(id: nat)
      requires Valid()
      modifies cursors
      ensures Valid()
      ensures cursors[..] == if id < MAX_CONSUMERS then old(cursors[..])[id := CONSUMER_FREE] else old(cursors[..])
    {
      if id < cursors.Length {
        cursors[id] := CONSUMER_FREE;
      }
    }

    /** The least cursor, or the largest word when no entry is taken. */
    method MinConsumerCursor() returns (min: nat)
      requires Valid()
      ensures forall i :: 0 <= i < MAX_CONSUMERS ==> min <= cursors[i]
      ensures min == U64_MAX || exists i :: 0 <= i < MAX_CONSUMERS && cursors[i] == min
      ensures min <= U64_MAX
    {
      min := U64_MAX;
      for i := 0 to cursors.Length
        invariant min <= U64_MAX
        invariant forall j :: 0 <= j < i ==> min <= cursors[j]
        invariant min == U64_MAX || exists j :: 0 <= j < i && cursors[j] == min
      {
        var v := cursors[i];
        if v < min {
          min := v;
        }
      }
    }

    /** Stores a message cell by cell; what follows its payload in the slot is left as it was. */
    method StoreCells(i: nat, m: Msg)
      requires ShapeOk() && i < cells.Length0 && Fits(m)
      modifies cells
      ensures Holds(i, m)
      ensures forall x, y :: 0 <= x < cells.Length0 && 0 <= y < CELLS && (x != i || y >= |Image(m)|) ==>
                cells[x, y] == old(cells[x, y])
      ensures Rows() == old(Rows())[i := Image(m) + old(Rows())[i][|Image(m)|..]]
    {
      cells[i, 0] := m.channelId;
      cells[i, 1] := m.msgType;
      cells[i, 2] := |m.payload|;
      cells[i, 3] := m.timestampNs;
      for j := 0 to |m.payload|
        invariant forall y :: 0 <= y < FIELDS + j ==> cells[i, y] == Image(m)[y]
        invariant forall x, y :: 0 <= x < cells.Length0 && 0 <= y < CELLS && (x != i || y >= FIELDS + j) ==>
                    cells[x, y] == old(cells[x, y])
      {
        cells[i, FIELDS + j] := m.payload[j];
      }
      forall x | 0 <= x < cells.Length0
        ensures Rows()[x] == old(Rows())[i := Image(m) + old(Rows())[i][|Image(m)|..]][x]
      {
      }
    }

    /** Appends exactly one message, or changes nothing: too large a payload, or a consumer that has a
        whole lap unread. */
    method Publish(channelId: u32, msgType: u8, payload: seq<u8>, now: u64) returns (r: PublishResult)
      requires Valid() && |log| < MAX_MESSAGES
      modifies this, stamps, cells
      ensures Valid()
      ensures r.PayloadTooLarge? <==> |payload| > PAYLOAD_CAP
      ensures r.SlowConsumer? <==> |payload| <= PAYLOAD_CAP && exists i :: 0 <= i < MAX_CONSUMERS && old(LapBehind(i))
      ensures log == if r.Published? then old(log) + [Msg(channelId, msgType, now, payload)] else old(log)
      ensures !r.Published? ==> unchanged(this) && unchanged(stamps) && unchanged(cells)
      ensures !r.PayloadTooLarge? ==>
        Memory() == RP.AfterPublish(old(Memory()), Msg(channelId, msgType, now, payload))
    {
      if |payload| > PAYLOAD_CAP {
        return PayloadTooLarge;
      }
      var sq := head;
      var slowest := MinConsumerCursor();
      assert forall i: nat :: RP.LapBehind(Memory(), i) ==> i < MAX_CONSUMERS && LapBehind(i) && slowest <= cursors[i];
      if Refuses(sq, slowest, bits) {
        ghost var i :| 0 <= i < MAX_CONSUMERS && cursors[i] == slowest;
        assert LapBehind(i) && RP.LapBehind(Memory(), i);
        return SlowConsumer;
      }
      Commit(Msg(channelId, msgType, now, payload));
      r := Published;
    }

    /** The data writes and the two commit stores of a publish that was not refused. */
    method Commit(m: Msg)
      requires Valid() && |log| < MAX_MESSAGES && Fits(m)
      modifies this, stamps, cells
      ensures Valid() && log == old(log) + [m]
      ensures Memory() == RP.Committed(old(Memory()), m)
    {
      var sq := head;
      var i := Index(sq, bits);
      assert Image(m)[..|Image(m)|] == Image(m);
      StoreCells(i, m);
      stamps[i] := sq + 1;
      head := sq + 1;
      log := log + [m];
      forall k | 0 <= k < |log| <= k + Pow2(bits)
        ensures stamps[Index(k, bits)] == k + 1 && Fits(log[k]) && Holds(Index(k, bits), log[k])
      {
        if k < sq {
          IndexApart(k, sq, bits);
          assert old(Holds(Index(k, bits), log[k]));
        }
      }
      if sq < Pow2(bits) {
        IndexFirstLap(sq, bits);
      }
    }

    /** What a consumer at `c` finds: nothing new, exactly message `c`, or that it was lapped. */
    ghost predicate Finds(c: nat, r: ConsumeResult)
      reads this
    {
      && (r.NotYet? <==> c >= |log|)
      && (r.FellBehind? <==> c + Pow2(bits) < |log|)
      && (r.Consumed? ==> c < |log| && r.msg == log[c])
    }

    /** What a call on a freed entry finds. The sentinel is taken for a cursor, so the expected stamp wraps
        to zero; the slot the sentinel maps to has that stamp, and zero cells, until it is first written. */
    ghost predicate FindsFreed(r: ConsumeResult)
      reads this
    {
      if |log| <= Index(CONSUMER_FREE, bits) then r == Consumed(Msg(0, 0, 0, [])) else r == FellBehind
    }

    /** What a call finds at its entry's cursor, freed or not, and what it leaves there. */
    ghost predicate Outcome(c: nat, r: ConsumeResult, c': nat)
      reads this
    {
      && (if c == CONSUMER_FREE then FindsFreed(r) else Finds(c, r))
      && c' == (if !r.Consumed? then c else if c == CONSUMER_FREE then 0 else c + 1)
    }

    lemma FreedStamp()
      requires Valid()
      ensures
        var i := Index(CONSUMER_FREE, bits);
        && (bits <= 64 ==> i == Pow2(bits) - 1)
        && (stamps[i] == 0 <==> |log| <= i)
        && (|log| <= i ==> Holds(i, Msg(0, 0, 0, [])))
    {
      var i := Index(CONSUMER_FREE, bits);
      if bits <= 64 {
        IndexOfMax(bits);
      }
      if i < |log| {
        IndexFirstLap(i, bits);
        var k := LaterOccupant(i, |log|, bits);
        assert stamps[Index(k, bits)] == k + 1;
      }
    }

    /** What a consumer at `c` compares: the stamp of the slot that `c` maps to with `c + 1`, wrapped. */
    lemma CallTells(c: nat)
      requires Valid() && (c == CONSUMER_FREE || c <= |log|)
      ensures
        var i, stamp := Index(c, bits), stamps[Index(c, bits)];
        if c == CONSUMER_FREE then
          && stamp >= Expected(c) && (stamp == Expected(c) <==> |log| <= i)
          && (stamp == Expected(c) ==> Holds(i, Msg(0, 0, 0, [])))
        else
          && Expected(c) == c + 1
          && (stamp < Expected(c) <==> c == |log|) && (stamp > Expected(c) <==> c + Pow2(bits) < |log|)
          && (stamp == Expected(c) ==> Holds(i, log[c]))
    {
      if c == CONSUMER_FREE {
        FreedStamp();
      } else {
        StampTells(c);
      }
    }

    lemma StampTells(c: nat)
      requires Valid() && c <= |log|
      ensures
        var stamp := stamps[Index(c, bits)];
        && (stamp < c + 1 <==> c == |log|)
        && (stamp > c + 1 <==> c + Pow2(bits) < |log|)
    {
      if c == |log| {
        if c < Pow2(bits) {
          IndexFirstLap(c, bits);
        } else {
          IndexLap(c - Pow2(bits), bits);
          assert stamps[Index(c - Pow2(bits), bits)] == c - Pow2(bits) + 1;
        }
      } else {
        var k := LaterOccupant(c, |log|, bits);
        assert stamps[Index(k, bits)] == k + 1;
      }
    }

    /** What the callback reads from a slot: the fixed cells and the announced payload bytes. */
    method ReadCells(i: nat, ghost m: Msg) returns (r: Msg)
      requires ShapeOk() && i < cells.Length0 && Fits(m) && Holds(i, m)
      ensures r == m
    {
      assert Image(m)[0] == m.channelId && Image(m)[1] == m.msgType;
      assert Image(m)[2] == |m.payload| && Image(m)[3] == m.timestampNs;
      var payload: seq<u8> := [];
      for j := 0 to cells[i, 2]
        invariant payload == m.payload[..j]
      {
        assert cells[i, FIELDS + j] == Image(m)[FIELDS + j] == m.payload[j];
        payload := payload + [cells[i, FIELDS + j]];
      }
      r := Msg(cells[i, 0], cells[i, 1], cells[i, 3], payload);
    }

    /** Consumes the message at the consumer's cursor, if it is there. A freed entry is not refused. */
    method TryConsume(id: nat) returns (r: ConsumeResult)
      requires Valid() && id < MAX_CONSUMERS
      modifies cursors
      ensures Valid() && Outcome(old(cursors[id]), r, cursors[id])
      ensures cursors[..] == old(cursors[..])[id := cursors[id]]
    {
      var next := cursors[id];
      var i := Index(next, bits);
      var expected := Expected(next);
      var stamp := stamps[i];
      CallTells(next);
      if stamp < expected {
        return NotYet;
      }
      if stamp > expected {
        return FellBehind;
      }
      var m := ReadCells(i, if next == CONSUMER_FREE then Msg(0, 0, 0, []) else log[next]);
      cursors[id] := Expected(next);
      r := Consumed(m);
    }

    /** Polls until the message at the consumer's cursor is there, at most `patience` times. */
    method ConsumeOne(id: nat, patience: nat) returns (r: ConsumeResult)
      requires Valid() && id < MAX_CONSUMERS && patience > 0
      modifies cursors
      ensures Valid() && Outcome(old(cursors[id]), r, cursors[id])
      ensures cursors[..] == old(cursors[..])[id := cursors[id]]
    {
      var next := cursors[id];
      var i := Index(next, bits);
      var expected := Expected(next);
      CallTells(next);
      var backoff := 0;
      while stamps[i] != expected
        invariant backoff <= patience
        decreases patience - backoff
      {
        if stamps[i] > expected {
          return FellBehind;
        }
        if backoff == patience {
          return NotYet;
        }
        backoff := backoff + 1;
      }
      var m := ReadCells(i, if next == CONSUMER_FREE then Msg(0, 0, 0, []) else log[next]);
      cursors[id] := Expected(next);
      r := Consumed(m);
    }

    method ProducerHead() returns (n: nat)
      requires Valid()
      ensures n == |log|
    {
      n := head;
    }
  }
}
