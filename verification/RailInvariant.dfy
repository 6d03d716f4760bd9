/** The timer invariant over whole runs of the simulator: ticks at any time scale, train
    commands, trains that never leave, injected faults, resets and scale changes. */
module RailInvariant {
  import opened Crossing
  import opened RailSpec
  import opened Agenda
  import opened CrossingSafety
  import opened TimerMirror

  lemma GoodAt(w: World, i: nat)
    requires Inv(w) && i < NUM_CROSSINGS
    ensures Good(w, i, {})
  {
    assert Entries(w.slots) - {} == Entries(w.slots);
  }

  /** A local change of crossing i keeps the whole invariant. */
  lemma ChangedInv(w: World, i: nat, r: World)
    requires Inv(w) && i < NUM_CROSSINGS && Changed(w, i, r, {})
    requires CrossingOk(r.cx[i]) && NoGateTimeout(r.cx[i])
    ensures Inv(r)
    ensures forall n: nat :: n <= NUM_CROSSINGS && GatesAhead(w, n) ==> GatesAhead(r, n)
  {
    assert Entries(r.slots) - {} == Entries(r.slots);
    forall j | 0 <= j < NUM_CROSSINGS && j != i
      ensures Mirrors(r.cx[j], j, r.gates[j], Entries(r.slots))
    {
      FateMirrors(w.cx[j], r.cx[j], j, w.gates[j], r.gates[j], Entries(w.slots), Entries(r.slots)) by {
        forall t
          ensures KeptTimer(w.cx[j], r.cx[j], j, w.gates[j], r.gates[j], Entries(w.slots), Entries(r.slots), t)
        {
        }
      }
    }
  }

  /** No event but a gate timeout can end in a gate timeout fault. */
  lemma NoTimeoutFault(w: World, i: nat, signal: Signal)
    requires w.Wf() && i < NUM_CROSSINGS && CrossingOk(w.cx[i]) && NoGateTimeout(w.cx[i])
    requires signal.TimerFired? ==> !GateTimer(signal.timer)
    ensures NoGateTimeout(Handle(w, i, signal).cx[i])
  {
    HandleOk(w, i, signal);
  }

  // ----- one slot -----

  /** The handler of a due slot leaves that slot alone or frees it: clearing the slot afterwards
      never erases a timer that the handler has armed. */
  ghost predicate SlotSpared(w: World, k: nat, r: World)
    requires w.Wf() && r.Wf() && k < MAX_PENDING_EVENTS
  {
    r.slots[k] == w.slots[k] || (!r.slots[k].active && EntryOf(w.slots[k]) !in Entries(r.slots))
  }

  lemma SameSlot(w: World, k: nat, r: World)
    requires w.Wf() && r.Wf() && Sound(w.slots) && k < MAX_PENDING_EVENTS && SlotDue(w, k)
    requires Later(w.slots, r.slots, w.now) && EntryOf(w.slots[k]) in Entries(r.slots)
    ensures r.slots[k] == w.slots[k]
  {
    var s :| 0 <= s < |r.slots| && r.slots[s].active && EntryOf(r.slots[s]) == EntryOf(w.slots[k]);
    assert r.slots[s] == w.slots[s];
    assert SameKey(w.slots[s].cx, w.slots[s].signal, w.slots[k].cx, w.slots[k].signal) by {
      assert Queueable(w.slots[k].signal);
    }
  }

  lemma UniqueTimer(slots: seq<Slot>, e: Entry, x: Entry, t: Timer)
    requires Sound(slots) && e in Entries(slots) && x in Entries(slots)
    requires TimerEntry(e, x.cx, t) && TimerEntry(x, x.cx, t)
    ensures e == x
  {
    var s :| 0 <= s < |slots| && slots[s].active && EntryOf(slots[s]) == e;
    var r :| 0 <= r < |slots| && slots[r].active && EntryOf(slots[r]) == x;
    assert SameKey(slots[s].cx, slots[s].signal, slots[r].cx, slots[r].signal);
  }

  /** Handling a due slot. */
  lemma DueHandled(w: World, k: nat)
    requires Inv(w) && GatesAhead(w, NUM_CROSSINGS) && k < MAX_PENDING_EVENTS && SlotDue(w, k)
    ensures var i := w.slots[k].cx;
            var r := Handle(w, i, w.slots[k].signal);
            Changed(w, i, r, {EntryOf(w.slots[k])}) && SlotSpared(w, k, r) && NoGateTimeout(r.cx[i])
  {
    var i, signal, e := w.slots[k].cx, w.slots[k].signal, EntryOf(w.slots[k]);
    assert e in Entries(w.slots);
    GoodAt(w, i);
    if signal.TimerFired? {
      TimerHandled(w, k);
    } else {
      if !w.cx[i].fault.NoFault? {
        Untimed(w, i, w);
      } else {
        match signal
        case TrainApproach(d) => ApproachChanged(w, i, d);
        case TrainEnter(d) => EnterChanged(w, i, d);
        case TrainExit(d) => ExitChanged(w, i, d);
      }
      TrainHandled(w, k, Handle(w, i, signal));
    }
    NoTimeoutFault(w, i, signal);
  }

  lemma TrainHandled(w: World, k: nat, r: World)
    requires Inv(w) && k < MAX_PENDING_EVENTS && SlotDue(w, k) && !w.slots[k].signal.TimerFired?
    requires Changed(w, w.slots[k].cx, r, {})
    ensures Changed(w, w.slots[k].cx, r, {EntryOf(w.slots[k])}) && SlotSpared(w, k, r)
  {
    var i, e := w.slots[k].cx, EntryOf(w.slots[k]);
    assert e in Entries(w.slots);
    SameSlot(w, k, r);
    SetAside(w, i, r, e);
  }

  lemma SetAside(w: World, i: nat, r: World, e: Entry)
    requires w.Wf() && i < NUM_CROSSINGS && Changed(w, i, r, {})
    requires e !in Entries(r.slots) || !e.signal.TimerFired?
    ensures Changed(w, i, r, {e})
  {
    var a, c := Entries(r.slots), r.cx[i];
    assert a - {} == a;
    FateMirrors(c, c, i, r.gates[i], r.gates[i], a, a - {e}) by {
      forall t
        ensures KeptTimer(c, c, i, r.gates[i], r.gates[i], a, a - {e}, t)
      {
      }
    }
  }

  lemma TimerHandled(w: World, k: nat)
    requires Inv(w) && GatesAhead(w, NUM_CROSSINGS)
    requires k < MAX_PENDING_EVENTS && SlotDue(w, k) && w.slots[k].signal.TimerFired?
    ensures var i := w.slots[k].cx;
            var r := Handle(w, i, w.slots[k].signal);
            && !GateTimer(w.slots[k].signal.timer)
            && Changed(w, i, r, {EntryOf(w.slots[k])}) && SlotSpared(w, k, r)
  {
    var i, t, e := w.slots[k].cx, w.slots[k].signal.timer, EntryOf(w.slots[k]);
    assert e in Entries(w.slots);
    GoodAt(w, i);
    assert Armed(w.cx[i], t) && w.slots[k].signal.generation == w.cx[i].generations.Get(t);
    if t.CloseDelay? {
      forall x | x in Entries(w.slots) && TimerEntry(x, i, CloseDelay)
        ensures x == e
      {
        UniqueTimer(w.slots, x, e, CloseDelay);
      }
      CloseDelayChanged(w, i, e);
    } else {
      FaultEffect(w, i, TrainTimeout);
      SetAside(w, i, EnterFault(w, i, TrainTimeout), e);
    }
  }

  /** The invariant during delivery: gates are on time and the first n slots are not due. */
  ghost predicate Delivered(w: World, n: nat) {
    && Inv(w) && GatesAhead(w, NUM_CROSSINGS) && n <= MAX_PENDING_EVENTS
    && forall s: nat :: s < n ==> !SlotDue(w, s)
  }

  /** Clock, time scale and layout are the same. */
  predicate SameClock(w: World, r: World) {
    r.now == w.now && r.scale == w.scale && r.layout == w.layout
  }

  /** Delivering one slot keeps the invariant, and leaves every earlier slot not due. */
  lemma DeliverSlotInv(w: World, k: nat)
    requires Delivered(w, k) && k < MAX_PENDING_EVENTS
    ensures Delivered(DeliverSlot(w, k), k + 1) && SameClock(w, DeliverSlot(w, k))
  {
    if SlotDue(w, k) {
      var i, e := w.slots[k].cx, EntryOf(w.slots[k]);
      var h := Handle(w, i, w.slots[k].signal);
      DueHandled(w, k);
      HandleOk(w, i, w.slots[k].signal);
      Cleared(w, k, h, Deactivate(h, k));
    }
  }

  lemma Cleared(w: World, k: nat, h: World, r: World)
    requires Delivered(w, k) && k < MAX_PENDING_EVENTS && SlotDue(w, k)
    requires Changed(w, w.slots[k].cx, h, {EntryOf(w.slots[k])}) && SlotSpared(w, k, h)
    requires CrossingOk(h.cx[w.slots[k].cx]) && NoGateTimeout(h.cx[w.slots[k].cx])
    requires r == Deactivate(h, k)
    ensures Delivered(r, k + 1) && SameClock(w, r)
  {
    var i, e := w.slots[k].cx, EntryOf(w.slots[k]);
    OffRemoves(h.slots, k);
    assert Entries(r.slots) == Entries(h.slots) - {e};
    forall j | 0 <= j < NUM_CROSSINGS && j != i
      ensures Mirrors(r.cx[j], j, r.gates[j], Entries(r.slots))
    {
      FateMirrors(w.cx[j], r.cx[j], j, w.gates[j], r.gates[j], Entries(w.slots), Entries(r.slots)) by {
        forall t
          ensures KeptTimer(w.cx[j], r.cx[j], j, w.gates[j], r.gates[j], Entries(w.slots), Entries(r.slots), t)
        {
        }
      }
    }
    forall s: nat | s < k + 1
      ensures !SlotDue(r, s)
    {
      if s < k {
        assert !SlotDue(w, s);
      }
    }
  }

  lemma {:induction false} DeliverInv(w: World, n: nat)
    requires Delivered(w, 0) && n <= MAX_PENDING_EVENTS
    ensures Delivered(Deliver(w, n), n) && SameClock(w, Deliver(w, n))
  {
    if n > 0 {
      DeliverInv(w, n - 1);
      DeliverSlotInv(Deliver(w, n - 1), n - 1);
    }
  }

  // ----- gate completions -----

  /** The end of a gate movement. */
  lemma ArrivalInv(w: World, i: nat, signal: Signal)
    requires Inv(w) && i < NUM_CROSSINGS && GatesAhead(w, i) && 0 <= w.gates[i] <= w.now
    requires if w.cx[i].gate.GateClosing? then signal.GateHasClosed?
             else w.cx[i].gate.GateOpening? && signal.GateHasOpened?
    ensures var r := Handle(w.(gates := w.gates[i := -1]), i, signal);
            Inv(r) && GatesAhead(r, i + 1) && SameClock(w, r)
  {
    var w0 := w.(gates := w.gates[i := -1]);
    GoodAt(w, i);
    if signal.GateHasClosed? {
      GateClosedChanged(w, i);
    } else {
      GateOpenedChanged(w, i);
    }
    HandleOk(w0, i, signal);
    ChangedInv(w, i, Handle(w0, i, signal));
  }

  lemma FireGateInv(w: World, i: nat)
    requires Inv(w) && i < NUM_CROSSINGS && GatesAhead(w, i)
    ensures var r := FireGate(w, i);
            Inv(r) && GatesAhead(r, i + 1) && SameClock(w, r)
  {
    if 0 <= w.gates[i] <= w.now {
      if w.cx[i].gate.GateClosing? {
        ArrivalInv(w, i, GateHasClosed);
      } else if w.cx[i].gate.GateOpening? {
        ArrivalInv(w, i, GateHasOpened);
      } else {
        GoodAt(w, i);
        Untimed(w, i, FireGate(w, i));
        ChangedInv(w, i, FireGate(w, i));
      }
    }
  }

  lemma {:induction false} FireGatesInv(w: World, n: nat)
    requires Inv(w) && n <= NUM_CROSSINGS
    ensures var r := FireGates(w, n);
            Inv(r) && GatesAhead(r, n) && SameClock(w, r)
  {
    if n > 0 {
      FireGatesInv(w, n - 1);
      FireGateInv(FireGates(w, n - 1), n - 1);
    }
  }

  /** What holds between ticks: no gate is late, and only events queued since the tick are due. */
  ghost predicate Settled(w: World) {
    && Inv(w) && GatesAhead(w, NUM_CROSSINGS) && w.layout.Accepted()
    && forall e :: e in Entries(w.slots) ==> e.at >= w.now && (e.signal.TimerFired? ==> e.at > w.now)
  }

  lemma AdvanceInv(w: World)
    requires Inv(w)
    ensures Inv(Advance(w))
  {
  }

  lemma TickSettled(w: World)
    requires Inv(w) && w.layout.Accepted()
    ensures Settled(Tick(w)) && Tick(w).layout == w.layout && Tick(w).scale == w.scale
    ensures forall e :: e in Entries(Tick(w).slots) ==> e.at > Tick(w).now
  {
    AdvanceInv(w);
    FireGatesInv(Advance(w), NUM_CROSSINGS);
    DeliverInv(FireGates(Advance(w), NUM_CROSSINGS), MAX_PENDING_EVENTS);
    var r := Tick(w);
    forall e | e in Entries(r.slots)
      ensures e.at > r.now
    {
      var s: nat :| s < |r.slots| && r.slots[s].active && EntryOf(r.slots[s]) == e;
      assert !SlotDue(r, s);
    }
  }

  // ----- trains -----

  predicate TrainEntry(e: Entry, i: nat, d: Direction) {
    && e.cx == i
    && (e.signal.TrainApproach? || e.signal.TrainEnter? || e.signal.TrainExit?) && e.signal.dir == d
  }

  ghost predicate TrackFree(a: set<Entry>, i: nat, d: Direction) {
    forall e :: e in a ==> !TrainEntry(e, i, d)
  }

  lemma NotPending(w: World, i: nat, d: Direction)
    requires w.Wf() && !TrainPending(w, i, d)
    ensures TrackFree(Entries(w.slots), i, d)
  {
  }

  /** The events of one train at one crossing, as entries. */
  function TrainEntries(l: Layout, i: nat, d: Direction, warnAt: int, noExit: bool): set<Entry> {
    var enter := warnAt + 1000 * l.warning;
    {Entry(i, TrainApproach(d), warnAt), Entry(i, TrainEnter(d), enter)}
    + if noExit then {} else {Entry(i, TrainExit(d), enter + 1000 * l.trainLength)}
  }

  /** Of the events of a train at one crossing, at most the first k are queued. */
  ghost predicate UpTo(a: set<Entry>, i: nat, d: Direction, k: nat) {
    forall e :: e in a && TrainEntry(e, i, d) ==>
      (k >= 1 && e.signal.TrainApproach?) || (k >= 2 && e.signal.TrainEnter?)
  }

  lemma PutTrainEvent(slots: seq<Slot>, x: Slot, d: Direction, k: nat)
    requires Sound(slots) && x.active && x.cx < NUM_CROSSINGS && UpTo(Entries(slots), x.cx, d, k)
    requires x.signal == if k == 0 then TrainApproach(d) else if k == 1 then TrainEnter(d) else TrainExit(d)
    ensures var r := PutSlot(slots, x);
            && Sound(r) && Entries(r) == Entries(slots) + {EntryOf(x)}
            && (k <= 1 ==> UpTo(Entries(r), x.cx, d, k + 1))
  {
    forall e | e in Entries(slots)
      ensures !SameKey(e.cx, e.signal, x.cx, x.signal)
    {
      assert SameKey(e.cx, e.signal, x.cx, x.signal) ==> TrainEntry(e, x.cx, d);
    }
    PutAdds(slots, x);
  }

  /** Every event of an accepted train finds a slot. */
  lemma TrainSlotsAdd(slots: seq<Slot>, l: Layout, i: nat, d: Direction, warnAt: int, noExit: bool)
    requires Sound(slots) && i < NUM_CROSSINGS && TrackFree(Entries(slots), i, d)
    ensures var r := TrainSlots(slots, l, i, d, warnAt, noExit);
            Sound(r) && Entries(r) == Entries(slots) + TrainEntries(l, i, d, warnAt, noExit)
  {
    var enter := warnAt + 1000 * l.warning;
    var x, y := Slot(warnAt, i, TrainApproach(d), true), Slot(enter, i, TrainEnter(d), true);
    assert UpTo(Entries(slots), i, d, 0);
    PutTrainEvent(slots, x, d, 0);
    var s1 := PutSlot(slots, x);
    PutTrainEvent(s1, y, d, 1);
    var s2 := PutSlot(s1, y);
    assert noExit ==> TrainSlots(slots, l, i, d, warnAt, noExit) == s2;
    assert Entries(s2) == Entries(slots) + {EntryOf(x), EntryOf(y)};
    if !noExit {
      var z := Slot(enter + 1000 * l.trainLength, i, TrainExit(d), true);
      PutTrainEvent(s2, z, d, 2);
      assert TrainSlots(slots, l, i, d, warnAt, noExit) == PutSlot(s2, z);
    }
  }

  /** Queuing train events leaves the timers alone. */
  lemma TrainsSettled(w: World, r: World, trains: set<Entry>)
    requires Settled(w) && r.Wf() && Sound(r.slots) && r == w.(slots := r.slots)
    requires Entries(r.slots) == Entries(w.slots) + trains
    requires forall e :: e in trains ==> !e.signal.TimerFired? && e.at >= w.now
    ensures Settled(r)
  {
    forall j | 0 <= j < NUM_CROSSINGS
      ensures Mirrors(r.cx[j], j, r.gates[j], Entries(r.slots))
    {
      FateMirrors(w.cx[j], r.cx[j], j, w.gates[j], r.gates[j], Entries(w.slots), Entries(r.slots)) by {
        forall t
          ensures KeptTimer(w.cx[j], r.cx[j], j, w.gates[j], r.gates[j], Entries(w.slots), Entries(r.slots), t)
        {
        }
      }
    }
  }

  lemma QueueTrainSettled(w: World, i: nat, d: Direction, warn: int, noExit: bool)
    requires Settled(w) && i < NUM_CROSSINGS && TrackFree(Entries(w.slots), i, d) && warn >= 0
    ensures var r := QueueTrain(w, i, d, warn, noExit);
            && Settled(r) && SameClock(w, r)
            && Entries(r.slots) == Entries(w.slots) + TrainEntries(w.layout, i, d, w.now + 1000 * warn, noExit)
  {
    var at := w.now + 1000 * warn;
    var slots := TrainSlots(w.slots, w.layout, i, d, at, noExit);
    TrainSlotsAdd(w.slots, w.layout, i, d, at, noExit);
    TrainsSettled(w, w.(slots := slots), TrainEntries(w.layout, i, d, at, noExit));
    assert QueueTrain(w, i, d, warn, noExit) == w.(slots := slots);
  }

  lemma StaysFree(a: set<Entry>, l: Layout, i: nat, d: Direction, at: int, j: nat, f: Direction)
    requires TrackFree(a, j, f) && (j != i || f != d)
    ensures TrackFree(a + TrainEntries(l, i, d, at, false), j, f)
  {
  }

  /** Tracks not yet visited by a line train, and all tracks of the other direction that were free. */
  ghost predicate LineAhead(a: set<Entry>, a': set<Entry>, d: Direction, n: nat) {
    && (forall i: nat :: i < NUM_CROSSINGS && (exists m: nat :: n <= m < NUM_CROSSINGS && Visit(d, m) == i)
          ==> TrackFree(a', i, d))
    && (forall i: nat :: i < NUM_CROSSINGS && TrackFree(a, i, Other(d)) ==> TrackFree(a', i, Other(d)))
  }

  /** A line train queued at its first n crossings. */
  ghost predicate LineQueued(w: World, r: World, d: Direction, n: nat) {
    Settled(r) && SameClock(w, r) && LineAhead(Entries(w.slots), Entries(r.slots), d, n)
  }

  lemma {:induction false} QueueLineSettled(w: World, d: Direction, n: nat)
    requires Settled(w) && n <= NUM_CROSSINGS
    requires forall i: nat :: i < NUM_CROSSINGS ==> TrackFree(Entries(w.slots), i, d)
    ensures LineQueued(w, QueueLine(w, d, n), d, n)
  {
    if n > 0 {
      QueueLineSettled(w, d, n - 1);
      var i := Visit(d, n - 1);
      LineGrows(w, QueueLine(w, d, n - 1), d, n, i, WarnDelay(w.layout, d, i));
    }
  }

  lemma LineGrows(w: World, p: World, d: Direction, n: nat, i: nat, warn: int)
    requires 0 < n <= NUM_CROSSINGS && LineQueued(w, p, d, n - 1) && warn >= 0 && i == Visit(d, n - 1)
    ensures LineQueued(w, QueueTrain(p, i, d, warn, false), d, n)
  {
    QueueTrainSettled(p, i, d, warn, false);
    LineStep(Entries(w.slots), Entries(p.slots), d, n, p.layout, p.now + 1000 * warn);
  }

  lemma LineStep(a: set<Entry>, b: set<Entry>, d: Direction, n: nat, l: Layout, at: int)
    requires 0 < n <= NUM_CROSSINGS && LineAhead(a, b, d, n - 1)
    ensures LineAhead(a, b + TrainEntries(l, Visit(d, n - 1), d, at, false), d, n)
  {
    var b' := b + TrainEntries(l, Visit(d, n - 1), d, at, false);
    forall i: nat, m: nat | i < NUM_CROSSINGS && n <= m < NUM_CROSSINGS && Visit(d, m) == i
      ensures TrackFree(b', i, d)
    {
      StaysFree(b, l, Visit(d, n - 1), d, at, i, d);
    }
    forall i: nat | i < NUM_CROSSINGS && TrackFree(a, i, Other(d))
      ensures TrackFree(b', i, Other(d))
    {
      StaysFree(b, l, Visit(d, n - 1), d, at, i, Other(d));
    }
  }

  // ----- runs -----

  lemma EventSettled(w: World, i: nat, signal: Signal)
    requires Settled(w) && i < NUM_CROSSINGS && (signal.InjectFault? || signal.ResetFault?)
    ensures Settled(Handle(w, i, signal)) && SameClock(w, Handle(w, i, signal))
  {
    var r := Handle(w, i, signal);
    GoodAt(w, i);
    if signal.ResetFault? {
      ResetChanged(w, i);
    } else if w.cx[i].fault.NoFault? {
      FaultEffect(w, i, Injected);
    } else {
      Untimed(w, i, w);
    }
    HandleOk(w, i, signal);
    ChangedInv(w, i, r);
    forall e | e in Entries(r.slots)
      ensures e.at >= r.now && (e.signal.TimerFired? ==> e.at > r.now)
    {
      var s: nat :| s < |r.slots| && r.slots[s].active && EntryOf(r.slots[s]) == e;
      assert r.slots[s] == w.slots[s] ==> e in Entries(w.slots);
    }
  }

  lemma NoneQueued(w: World, i: nat, d: Direction)
    requires w.Wf() && TrackFree(Entries(w.slots), i, d)
    ensures !TrainPending(w, i, d)
  {
    forall s | 0 <= s < |w.slots| && w.slots[s].active
      ensures !IsTrainSlot(w.slots[s], i, d)
    {
      assert EntryOf(w.slots[s]) in Entries(w.slots);
    }
  }

  lemma LineSettled(w: World, d: Direction)
    requires Settled(w) && LineFree(w, d)
    ensures var r := QueueLine(w, d, NUM_CROSSINGS);
            Settled(r) && SameClock(w, r) && (LineFree(w, Other(d)) ==> LineFree(r, Other(d)))
  {
    forall i: nat, f | i < NUM_CROSSINGS && LineFree(w, f)
      ensures TrackFree(Entries(w.slots), i, f)
    {
      NotPending(w, i, f);
    }
    QueueLineSettled(w, d, NUM_CROSSINGS);
    var r := QueueLine(w, d, NUM_CROSSINGS);
    if LineFree(w, Other(d)) {
      forall i: nat | i < NUM_CROSSINGS
        ensures !TrainPending(r, i, Other(d))
      {
        NoneQueued(r, i, Other(d));
      }
    }
  }

  lemma TrainCommandSettled(w: World, i: nat, d: Direction, noExit: bool)
    requires Settled(w) && i < NUM_CROSSINGS && !TrainPending(w, i, d)
    ensures Settled(QueueTrain(w, i, d, 0, noExit)) && SameClock(w, QueueTrain(w, i, d, 0, noExit))
  {
    NotPending(w, i, d);
    QueueTrainSettled(w, i, d, 0, noExit);
  }

  /** Every command, accepted or refused, keeps the simulator settled. */
  lemma StepSettled(w: World, c: Command)
    requires Settled(w)
    ensures Settled(Step(w, c)) && Step(w, c).layout == w.layout
  {
    match c
    case TickCmd => TickSettled(w);
    case TrainLine(d) => if LineFree(w, d) { LineSettled(w, d); }
    case TrainBoth =>
      if LineFree(w, Up) && LineFree(w, Down) {
        LineSettled(w, Up);
        LineSettled(QueueLine(w, Up, NUM_CROSSINGS), Down);
      }
    case TrainAt(i, d) =>
      if i < NUM_CROSSINGS && !TrainPending(w, i, d) { TrainCommandSettled(w, i, d, false); }
    case NoExit(i, d) =>
      if i < NUM_CROSSINGS && !TrainPending(w, i, d) { TrainCommandSettled(w, i, d, true); }
    case InjectCmd(i) => if i < NUM_CROSSINGS { EventSettled(w, i, InjectFault); }
    case ResetCmd(i) => if i < NUM_CROSSINGS { EventSettled(w, i, ResetFault); }
    case Scale(n) =>
  }

  lemma InitSettled(layout: Layout, scale: int)
    requires layout.Accepted()
    ensures Settled(Init(layout, scale))
  {
    assert Entries(Init(layout, scale).slots) == {};
  }

  /** In every run the queued timers mirror the crossings and no gate timeout is ever raised. */
  lemma {:induction false} EveryRunSettled(layout: Layout, scale: int, cmds: seq<Command>)
    requires layout.Accepted()
    ensures Settled(Run(Init(layout, scale), cmds)) && Run(Init(layout, scale), cmds).layout == layout
    decreases |cmds|
  {
    if cmds == [] {
      InitSettled(layout, scale);
    } else {
      var n := |cmds| - 1;
      EveryRunSettled(layout, scale, cmds[..n]);
      StepSettled(Run(Init(layout, scale), cmds[..n]), cmds[n]);
    }
  }

  /** At every point of a tick the event array has a free slot: while gates arrive and between any two
      deliveries. */
  lemma AlwaysRoomInTick(w: World, gates: nat, delivered: nat)
    requires Inv(w) && gates <= NUM_CROSSINGS && delivered <= MAX_PENDING_EVENTS
    ensures HasFree(FireGates(Advance(w), gates).slots)
    ensures HasFree(Deliver(FireGates(Advance(w), NUM_CROSSINGS), delivered).slots)
  {
    AdvanceInv(w);
    FireGatesInv(Advance(w), gates);
    NeverFull(FireGates(Advance(w), gates).slots);
    FireGatesInv(Advance(w), NUM_CROSSINGS);
    DeliverInv(FireGates(Advance(w), NUM_CROSSINGS), delivered);
    NeverFull(Deliver(FireGates(Advance(w), NUM_CROSSINGS), delivered).slots);
  }

  lemma RoomWhenSettled(w: World)
    requires Settled(w)
    ensures HasFree(w.slots)
  {
    NeverFull(w.slots);
  }
}
