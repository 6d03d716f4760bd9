/** The pending-event array seen as a set of entries. Timers and train events never share a
    key, which bounds the number of slots in use and turns every array operation into a set
    operation. */
module Agenda {
  import opened Crossing
  import opened RailSpec

  datatype Entry = Entry(cx: nat, signal: Signal, at: int)

  function EntryOf(s: Slot): Entry {
    Entry(s.cx, s.signal, s.at)
  }

  ghost function Entries(slots: seq<Slot>): set<Entry> {
    set s | 0 <= s < |slots| && slots[s].active :: EntryOf(slots[s])
  }

  const KEYS_PER_CROSSING := 11

  predicate Queueable(signal: Signal) {
    signal.TrainApproach? || signal.TrainEnter? || signal.TrainExit? || signal.TimerFired?
  }

  /** What an entry is about: a timer of a crossing, or one of the three events of a train on a track. */
  function Key(signal: Signal): (k: nat)
    requires Queueable(signal)
    ensures k < KEYS_PER_CROSSING
    ensures signal.TimerFired? <==> k < NUM_TIMERS
  {
    match signal
    case TimerFired(t, _) =>
      (match t
       case CloseDelay => 0
       case CloseTimeout => 1
       case OpenTimeout => 2
       case TrainTimeoutUp => 3
       case TrainTimeoutDown => 4)
    case TrainApproach(d) => if d.Up? then 5 else 6
    case TrainEnter(d) => if d.Up? then 7 else 8
    case TrainExit(d) => if d.Up? then 9 else 10
  }

  predicate SameKey(cx1: nat, signal1: Signal, cx2: nat, signal2: Signal)
  {
    cx1 == cx2 && Queueable(signal1) && Queueable(signal2) && Key(signal1) == Key(signal2)
  }

  /** Every slot in use is a timer or train event of a crossing, and no two share a key. */
  ghost predicate Sound(slots: seq<Slot>) {
    && |slots| == MAX_PENDING_EVENTS
    && (forall s :: 0 <= s < |slots| && slots[s].active ==> slots[s].cx < NUM_CROSSINGS && Queueable(slots[s].signal))
    && (forall s, r {:trigger SameKey(slots[s].cx, slots[s].signal, slots[r].cx, slots[r].signal)} ::
          0 <= s < |slots| && 0 <= r < |slots| && s != r && slots[s].active && slots[r].active ==>
          !SameKey(slots[s].cx, slots[s].signal, slots[r].cx, slots[r].signal))
  }

  ghost predicate KeyFree(a: set<Entry>, i: nat, signal: Signal) {
    forall e :: e in a ==> !SameKey(e.cx, e.signal, i, signal)
  }

  predicate TimerEntry(e: Entry, i: nat, t: Timer) {
    e.cx == i && e.signal.TimerFired? && e.signal.timer == t
  }

  ghost function Without(a: set<Entry>, i: nat, t: Timer): set<Entry> {
    set e | e in a && !TimerEntry(e, i, t)
  }

  // ----- capacity -----

  /** A number for crossing and key: timers below TIMER_EVENT_RESERVE, train events above. */
  function Code(s: Slot): (r: nat)
    requires s.cx < NUM_CROSSINGS && Queueable(s.signal)
    ensures r < NUM_CROSSINGS * KEYS_PER_CROSSING
    ensures s.signal.TimerFired? ==> r < TIMER_EVENT_RESERVE
  {
    var k := Key(s.signal);
    if k < NUM_TIMERS then s.cx * NUM_TIMERS + k
    else TIMER_EVENT_RESERVE + s.cx * (KEYS_PER_CROSSING - NUM_TIMERS) + (k - NUM_TIMERS)
  }

  ghost function Codes(slots: seq<Slot>, n: nat): set<nat>
    requires Sound(slots) && n <= |slots|
  {
    set s | 0 <= s < n && slots[s].active :: Code(slots[s])
  }

  /** Used slots are counted by their distinct codes. */
  lemma {:induction false} CountCodes(slots: seq<Slot>, n: nat)
    requires Sound(slots) && n <= |slots|
    ensures |Codes(slots, n)| == n - FreeSlots(slots, n)
  {
    if n > 0 {
      CountCodes(slots, n - 1);
      var c := Codes(slots, n - 1);
      if slots[n - 1].active {
        assert Codes(slots, n) == c + {Code(slots[n - 1])};
        forall s | 0 <= s < n - 1 && slots[s].active
          ensures Code(slots[s]) != Code(slots[n - 1])
        {
          assert !SameKey(slots[s].cx, slots[s].signal, slots[n - 1].cx, slots[n - 1].signal);
        }
      } else {
        assert Codes(slots, n) == c;
      }
    }
  }

  lemma {:induction false} BoundedSet(c: set<nat>, n: nat)
    requires forall x :: x in c ==> x < n
    ensures |c| <= n
  {
    if n == 0 {
      assert c == {};
    } else {
      var d := c - {n - 1};
      BoundedSet(d, n - 1);
    }
  }

  /** At least 31 of the 64 slots are always free. */
  lemma Room(slots: seq<Slot>)
    requires Sound(slots)
    ensures FreeSlots(slots, |slots|) >= MAX_PENDING_EVENTS - NUM_CROSSINGS * KEYS_PER_CROSSING
  {
    CountCodes(slots, |slots|);
    BoundedSet(Codes(slots, |slots|), NUM_CROSSINGS * KEYS_PER_CROSSING);
  }

  lemma {:induction false} FreeMeansInactive(slots: seq<Slot>, n: nat)
    requires n <= |slots| && FreeSlots(slots, n) > 0
    ensures exists s :: 0 <= s < n && !slots[s].active
  {
    if slots[n - 1].active {
      FreeMeansInactive(slots, n - 1);
    }
  }

  /** The search for a free slot never fails. */
  lemma NeverFull(slots: seq<Slot>)
    requires Sound(slots)
    ensures FirstFree(slots, 0) < |slots|
  {
    Room(slots);
    FreeMeansInactive(slots, |slots|);
  }

  // ----- array operations as set operations -----

  /** Slots in use after a change are unchanged, or new and due after now. */
  predicate Later(slots: seq<Slot>, slots': seq<Slot>, now: int) {
    && |slots'| == |slots|
    && forall s :: 0 <= s < |slots| && slots'[s].active ==> slots'[s] == slots[s] || slots'[s].at > now
  }

  lemma PutAdds(slots: seq<Slot>, x: Slot)
    requires Sound(slots) && x.active && x.cx < NUM_CROSSINGS && Queueable(x.signal)
    requires KeyFree(Entries(slots), x.cx, x.signal)
    ensures var r := PutSlot(slots, x);
            && Sound(r)
            && Entries(r) == Entries(slots) + {EntryOf(x)}
            && (forall now :: x.at > now ==> Later(slots, r, now))
            && forall s :: 0 <= s < |slots| && slots[s].active ==> r[s] == slots[s]
  {
    NeverFull(slots);
    var r := PutSlot(slots, x);
    var k := FirstFree(slots, 0);
    forall s | 0 <= s < |slots| && slots[s].active
      ensures !SameKey(slots[s].cx, slots[s].signal, x.cx, x.signal)
    {
      assert EntryOf(slots[s]) in Entries(slots);
    }
    assert r[k] == x;
    forall e | e in Entries(slots)
      ensures e in Entries(r)
    {
      var s :| 0 <= s < |slots| && slots[s].active && EntryOf(slots[s]) == e;
      assert r[s] == slots[s];
    }
  }

  lemma FreeRemoves(slots: seq<Slot>, i: nat, t: Timer)
    requires Sound(slots)
    ensures var r := FreeTimer(slots, i, t);
            && Sound(r)
            && Entries(r) == Without(Entries(slots), i, t)
            && (forall now :: Later(slots, r, now))
            && forall s :: 0 <= s < |slots| && !IsTimer(slots[s], i, t) ==> r[s] == slots[s]
  {
    var r := FreeTimer(slots, i, t);
    forall e | e in Without(Entries(slots), i, t)
      ensures e in Entries(r)
    {
      var s :| 0 <= s < |slots| && slots[s].active && EntryOf(slots[s]) == e;
      assert r[s] == slots[s];
    }
  }

  lemma OffRemoves(slots: seq<Slot>, k: nat)
    requires Sound(slots) && k < |slots|
    ensures var r := slots[k := slots[k].(active := false)];
            && Sound(r)
            && Entries(r) == if slots[k].active then Entries(slots) - {EntryOf(slots[k])} else Entries(slots)
  {
    var r := slots[k := slots[k].(active := false)];
    forall e | e in Entries(slots) && !(slots[k].active && e == EntryOf(slots[k]))
      ensures e in Entries(r)
    {
      var s :| 0 <= s < |slots| && slots[s].active && EntryOf(slots[s]) == e;
      assert r[s] == slots[s];
    }
    forall s | 0 <= s < |r| && r[s].active
      ensures EntryOf(r[s]) in Entries(slots)
      ensures slots[k].active ==> EntryOf(r[s]) != EntryOf(slots[k])
    {
      assert s != k && r[s] == slots[s];
      assert SameKey(slots[s].cx, slots[s].signal, slots[s].cx, slots[s].signal);
      assert slots[k].active ==> !SameKey(slots[s].cx, slots[s].signal, slots[k].cx, slots[k].signal);
    }
  }
}
