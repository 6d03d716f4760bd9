/** The queued timers mirror the state of the crossings, the event array never overflows and a
    gate never outlives its timeout: in every run, at every time scale. */
module TimerMirror {
  import opened Crossing
  import opened RailSpec
  import opened Agenda
  import opened CrossingSafety

  const MOVE_MS := 1000 * GATE_MOVE_SEC
  /** How long after the end of a gate movement its timeout is due. */
  const SLACK_MS := 1000 * (GATE_CLOSE_TIMEOUT_SEC - GATE_MOVE_SEC)

  /** The crossing waits for this timer. */
  predicate Armed(c: Crossing, t: Timer) {
    match t
    case CloseDelay => c.closeDelayPending
    case CloseTimeout => c.gate.GateClosing?
    case OpenTimeout => c.gate.GateOpening?
    case TrainTimeoutUp => c.up.OnCrossing? && c.fault.NoFault?
    case TrainTimeoutDown => c.down.OnCrossing? && c.fault.NoFault?
  }

  predicate GateTimer(t: Timer) {
    t.CloseTimeout? || t.OpenTimeout?
  }

  /** Among the entries a, crossing i has exactly the timers it waits for, with current
      generations; a gate timeout is due SLACK_MS after the end of the movement. */
  ghost predicate Mirrors(c: Crossing, i: nat, gate: int, a: set<Entry>) {
    && (forall e :: e in a && e.cx == i && e.signal.TimerFired? ==>
          && Armed(c, e.signal.timer)
          && e.signal.generation == c.generations.Get(e.signal.timer)
          && (GateTimer(e.signal.timer) ==> e.at == gate + SLACK_MS))
    && (forall t :: Armed(c, t) ==> exists e :: e in a && TimerEntry(e, i, t))
  }

  /** A travelling gate has a completion time; a gate at rest has none. */
  predicate GateOk(c: Crossing, gate: int, now: int) {
    && (c.Moving() ==> 0 <= gate <= now + MOVE_MS)
    && (c.gate.GateOpen? || c.gate.GateClosed? ==> gate == -1)
  }

  predicate NoGateTimeout(c: Crossing) {
    !c.fault.GateCloseTimeout? && !c.fault.GateOpenTimeout?
  }

  /** The invariant of the simulator. */
  ghost predicate Inv(w: World) {
    && w.Wf() && Sound(w.slots) && w.now >= 0 && w.scale >= 1
    && forall i :: 0 <= i < NUM_CROSSINGS ==>
         && CrossingOk(w.cx[i]) && NoGateTimeout(w.cx[i])
         && GateOk(w.cx[i], w.gates[i], w.now)
         && Mirrors(w.cx[i], i, w.gates[i], Entries(w.slots))
  }

  /** Every travelling gate among the first n arrives after now. */
  predicate GatesAhead(w: World, n: nat)
    requires w.Wf() && n <= NUM_CROSSINGS
  {
    forall i :: 0 <= i < n && w.cx[i].Moving() ==> w.gates[i] > w.now
  }

  function TimerDelay(t: Timer): int {
    match t
    case CloseDelay => GATE_CLOSE_DELAY_SEC
    case CloseTimeout => GATE_CLOSE_TIMEOUT_SEC
    case OpenTimeout => GATE_OPEN_TIMEOUT_SEC
    case _ => TRAIN_TIMEOUT_SEC
  }

  /** Only timers that were not armed are started, each with its own delay. */
  ghost predicate NewTimers(w: World, i: nat, r: World)
    requires w.Wf() && i < NUM_CROSSINGS
  {
    forall e :: e in Entries(r.slots) && e !in Entries(w.slots) ==>
      && e.cx == i && e.signal.TimerFired? && !Armed(w.cx[i], e.signal.timer)
      && e.at == w.now + 1000 * TimerDelay(e.signal.timer)
  }

  /** A change to crossing i that keeps the invariant of crossing i with the entries ex set aside,
      and leaves the train events, the other crossings and the clock alone. */
  ghost predicate Changed(w: World, i: nat, r: World, ex: set<Entry>)
    requires w.Wf() && i < NUM_CROSSINGS
  {
    && r.Wf() && Sound(r.slots)
    && r == w.(cx := w.cx[i := r.cx[i]], slots := r.slots, gates := w.gates[i := r.gates[i]], sent := r.sent)
    && (r.cx[i].Moving() ==> r.gates[i] > w.now || (w.cx[i].Moving() && r.gates[i] == w.gates[i]))
    && (r.cx[i].Moving() && r.cx[i].gate == w.cx[i].gate ==> r.gates[i] == w.gates[i])
    && GateOk(r.cx[i], r.gates[i], r.now)
    && Mirrors(r.cx[i], i, r.gates[i], Entries(r.slots) - ex)
    && NewTimers(w, i, r)
    && (forall e: Entry :: e.cx != i || !e.signal.TimerFired? ==> (e in Entries(r.slots) <==> e in Entries(w.slots)))
    && Later(w.slots, r.slots, w.now)
  }

  // ----- effects of the helpers -----

  lemma GateCloseEffect(w: World, i: nat)
    requires w.Wf() && i < NUM_CROSSINGS
    requires w.cx[i].gate.GateOpen? || w.cx[i].gate.GateOpening?
    ensures var r := StartGateClose(w, i);
            var g := r.cx[i].generations;
            && r.slots == CloseSlots(w.slots, i, w.cx[i].gate.GateOpening?, g.closeTimeout, w.now)
            && r == w.(cx := r.cx, slots := r.slots, gates := w.gates[i := w.now + MOVE_MS])
            && r.cx == w.cx[i := w.cx[i].(gate := GateClosing, closeDelayPending := false, generations := g)]
            && g == w.cx[i].generations.(closeTimeout := g.closeTimeout, openTimeout := g.openTimeout)
  {
  }

  lemma GateOpenEffect(w: World, i: nat)
    requires w.Wf() && i < NUM_CROSSINGS
    requires w.cx[i].gate.GateClosed? || w.cx[i].gate.GateClosing?
    ensures var r := StartGateOpen(w, i);
            var g := r.cx[i].generations;
            && r.slots == OpenSlots(w.slots, i, g.openTimeout, w.now)
            && r == w.(cx := r.cx, slots := r.slots, gates := w.gates[i := w.now + MOVE_MS])
            && r.cx == w.cx[i := w.cx[i].(gate := GateOpening, closeDelayPending := false, generations := g)]
            && g == w.cx[i].generations.(closeDelay := g.closeDelay, closeTimeout := g.closeTimeout,
                                         openTimeout := g.openTimeout)
  {
  }

  function TimerSlot(i: nat, t: Timer, g: nat, at: int): Slot {
    Slot(at, i, TimerFired(t, g), true)
  }

  function CloseSlots(slots: seq<Slot>, i: nat, opening: bool, g: nat, now: int): seq<Slot> {
    PutSlot(if opening then FreeTimer(slots, i, OpenTimeout) else slots,
            TimerSlot(i, CloseTimeout, g, now + MOVE_MS + SLACK_MS))
  }

  lemma CloseEntries(slots: seq<Slot>, i: nat, opening: bool, g: nat, now: int)
    requires Sound(slots) && i < NUM_CROSSINGS
    requires KeyFree(Entries(slots), i, TimerFired(CloseTimeout, 0))
    ensures var r := CloseSlots(slots, i, opening, g, now);
            && Sound(r) && Later(slots, r, now)
            && Entries(r) == (if opening then Without(Entries(slots), i, OpenTimeout) else Entries(slots))
                             + {Entry(i, TimerFired(CloseTimeout, g), now + MOVE_MS + SLACK_MS)}
            && forall s :: 0 <= s < |slots| && slots[s].active && !IsTimer(slots[s], i, OpenTimeout)
                 ==> r[s] == slots[s]
  {
    if opening {
      FreeRemoves(slots, i, OpenTimeout);
    }
    PutAdds(if opening then FreeTimer(slots, i, OpenTimeout) else slots,
            TimerSlot(i, CloseTimeout, g, now + MOVE_MS + SLACK_MS));
  }

  function OpenSlots(slots: seq<Slot>, i: nat, g: nat, now: int): seq<Slot> {
    PutSlot(FreeTimer(FreeTimer(slots, i, CloseDelay), i, CloseTimeout),
            TimerSlot(i, OpenTimeout, g, now + MOVE_MS + SLACK_MS))
  }

  lemma OpenEntries(slots: seq<Slot>, i: nat, g: nat, now: int)
    requires Sound(slots) && i < NUM_CROSSINGS
    requires KeyFree(Entries(slots), i, TimerFired(OpenTimeout, 0))
    ensures var r := OpenSlots(slots, i, g, now);
            && Sound(r) && Later(slots, r, now)
            && Entries(r) == Without(Without(Entries(slots), i, CloseDelay), i, CloseTimeout)
                             + {Entry(i, TimerFired(OpenTimeout, g), now + MOVE_MS + SLACK_MS)}
            && forall s :: 0 <= s < |slots| && slots[s].active
                 && !IsTimer(slots[s], i, CloseDelay) && !IsTimer(slots[s], i, CloseTimeout)
                 ==> r[s] == slots[s]
  {
    var a := FreeTimer(slots, i, CloseDelay);
    FreeRemoves(slots, i, CloseDelay);
    FreeRemoves(a, i, CloseTimeout);
    PutAdds(FreeTimer(a, i, CloseTimeout), TimerSlot(i, OpenTimeout, g, now + MOVE_MS + SLACK_MS));
  }

  /** Dropping timers keeps what is queued, except the dropped timers of this crossing. */
  lemma {:induction false} DropTimersEffect(w: World, i: nat, n: nat)
    requires w.Wf() && i < NUM_CROSSINGS && n <= |ALL_TIMERS| && Sound(w.slots)
    ensures var r := DropTimers(w, i, n);
            && Sound(r.slots)
            && (forall e :: e in Entries(r.slots) <==>
                  e in Entries(w.slots) && forall k :: 0 <= k < n ==> !TimerEntry(e, i, ALL_TIMERS[k]))
            && forall s :: 0 <= s < MAX_PENDING_EVENTS && r.slots[s].active ==> r.slots[s] == w.slots[s]
  {
    if n > 0 {
      DropTimersEffect(w, i, n - 1);
      FreeRemoves(DropTimers(w, i, n - 1).slots, i, ALL_TIMERS[n - 1]);
    }
  }

  lemma EveryTimerListed(t: Timer)
    ensures exists k :: 0 <= k < |ALL_TIMERS| && ALL_TIMERS[k] == t
  {
    assert ALL_TIMERS[0] == CloseDelay && ALL_TIMERS[1] == CloseTimeout && ALL_TIMERS[2] == OpenTimeout
           && ALL_TIMERS[3] == TrainTimeoutUp && ALL_TIMERS[4] == TrainTimeoutDown;
  }

  /** A fault leaves no timer of the crossing queued. */
  lemma FaultEffect(w: World, i: nat, f: Fault)
    requires w.Wf() && i < NUM_CROSSINGS && Sound(w.slots) && !f.NoFault?
    ensures var r := EnterFault(w, i, f);
            && Changed(w, i, r, {})
            && r.cx[i].fault == f
            && forall s :: 0 <= s < MAX_PENDING_EVENTS && r.slots[s].active ==>
                 r.slots[s] == w.slots[s] && (r.slots[s].cx == i ==> !r.slots[s].signal.TimerFired?)
  {
    var r := EnterFault(w, i, f);
    var w1 := w.Put(i, w.cx[i].(fault := f, gate := GateFault, closeDelayPending := false, flashOn := true));
    DropTimersEffect(w1, i, |ALL_TIMERS|);
    EnterFaultFrame(w, i, f);
    forall e | e in Entries(r.slots) && e.cx == i
      ensures !e.signal.TimerFired?
    {
      if e.signal.TimerFired? {
        EveryTimerListed(e.signal.timer);
      }
    }
    forall s | 0 <= s < MAX_PENDING_EVENTS && r.slots[s].active
      ensures r.slots[s].cx == i ==> !r.slots[s].signal.TimerFired?
    {
      assert EntryOf(r.slots[s]) in Entries(r.slots);
    }
  }

  // ----- what can happen to a timer -----

  /** The timer keeps its entries, its state and (for a gate timer) its completion time. */
  ghost predicate KeptTimer(c: Crossing, c': Crossing, i: nat, gate: int, gate': int,
                            a: set<Entry>, a': set<Entry>, t: Timer) {
    && Armed(c, t) == Armed(c', t)
    && c.generations.Get(t) == c'.generations.Get(t)
    && (Armed(c, t) && GateTimer(t) ==> gate == gate')
    && forall e :: TimerEntry(e, i, t) ==> (e in a <==> e in a')
  }

  /** The crossing no longer waits for the timer, and it is not queued. */
  ghost predicate GoneTimer(c': Crossing, i: nat, a': set<Entry>, t: Timer) {
    !Armed(c', t) && forall e :: e in a' ==> !TimerEntry(e, i, t)
  }

  /** The timer has just been started. */
  ghost predicate FreshTimer(c': Crossing, i: nat, gate': int, a': set<Entry>, t: Timer, at: int) {
    var e0 := Entry(i, TimerFired(t, c'.generations.Get(t)), at);
    && Armed(c', t)
    && (GateTimer(t) ==> at == gate' + SLACK_MS)
    && e0 in a'
    && forall e :: e in a' && TimerEntry(e, i, t) ==> e == e0
  }

  lemma FateMirrors(c: Crossing, c': Crossing, i: nat, gate: int, gate': int, a: set<Entry>, a': set<Entry>)
    requires Mirrors(c, i, gate, a)
    requires forall t :: || KeptTimer(c, c', i, gate, gate', a, a', t) || GoneTimer(c', i, a', t)
                         || exists at :: FreshTimer(c', i, gate', a', t, at)
    ensures Mirrors(c', i, gate', a')
  {
    forall t | Armed(c', t)
      ensures exists e :: e in a' && TimerEntry(e, i, t)
    {
      if KeptTimer(c, c', i, gate, gate', a, a', t) {
        var e :| e in a && TimerEntry(e, i, t);
        assert e in a';
      } else {
        var at :| FreshTimer(c', i, gate', a', t, at);
        assert TimerEntry(Entry(i, TimerFired(t, c'.generations.Get(t)), at), i, t);
      }
    }
    forall e | e in a' && e.cx == i && e.signal.TimerFired?
      ensures Armed(c', e.signal.timer)
      ensures e.signal.generation == c'.generations.Get(e.signal.timer)
      ensures GateTimer(e.signal.timer) ==> e.at == gate' + SLACK_MS
    {
      var t := e.signal.timer;
      assert TimerEntry(e, i, t);
      if KeptTimer(c, c', i, gate, gate', a, a', t) {
        assert e in a;
      } else if GoneTimer(c', i, a', t) {
        assert false;
      } else {
        var at :| FreshTimer(c', i, gate', a', t, at);
      }
    }
  }

  // ----- the kinds of change an event makes -----

  /** Crossing i satisfies its part of the timer invariant with the entries ex set aside. */
  ghost predicate Good(w: World, i: nat, ex: set<Entry>) {
    && w.Wf() && i < NUM_CROSSINGS && Sound(w.slots)
    && GateOk(w.cx[i], w.gates[i], w.now)
    && Mirrors(w.cx[i], i, w.gates[i], Entries(w.slots) - ex)
  }

  /** Only crossing i, its gate, the slots and the outbox differ. */
  ghost predicate Local(w: World, i: nat, r: World)
    requires w.Wf() && i < NUM_CROSSINGS && r.Wf()
  {
    r == w.(cx := w.cx[i := r.cx[i]], slots := r.slots, gates := w.gates[i := r.gates[i]], sent := r.sent)
  }

  lemma Untimed(w: World, i: nat, r: World)
    requires Good(w, i, {}) && r.Wf() && Local(w, i, r)
    requires r.slots == w.slots
    requires r.gates[i] == w.gates[i] || (r.gates[i] == -1 && w.cx[i].gate.GateFault?)
    requires r.cx[i].generations == w.cx[i].generations && r.cx[i].gate == w.cx[i].gate
    requires forall t :: Armed(r.cx[i], t) == Armed(w.cx[i], t)
    ensures Changed(w, i, r, {})
  {
  }

  lemma Starts(w: World, i: nat, r: World, t: Timer, at: int)
    requires Good(w, i, {}) && r.Wf() && Local(w, i, r)
    requires !Armed(w.cx[i], t) && Armed(r.cx[i], t) && !GateTimer(t) && at == w.now + 1000 * TimerDelay(t)
    requires r.slots == PutSlot(w.slots, TimerSlot(i, t, r.cx[i].generations.Get(t), at))
    requires r.gates[i] == w.gates[i] && r.cx[i].gate == w.cx[i].gate
    requires forall u :: u != t ==> && Armed(r.cx[i], u) == Armed(w.cx[i], u)
                                    && r.cx[i].generations.Get(u) == w.cx[i].generations.Get(u)
    ensures Changed(w, i, r, {})
    ensures forall s :: 0 <= s < MAX_PENDING_EVENTS && w.slots[s].active ==> r.slots[s] == w.slots[s]
  {
    var c, c', a, a' := w.cx[i], r.cx[i], Entries(w.slots), Entries(r.slots);
    assert a - {} == a && a' - {} == a';
    PutAdds(w.slots, TimerSlot(i, t, c'.generations.Get(t), at));
    assert FreshTimer(c', i, r.gates[i], a', t, at);
    forall u | u != t
      ensures KeptTimer(c, c', i, w.gates[i], r.gates[i], a, a', u)
    {
    }
    FateMirrors(c, c', i, w.gates[i], r.gates[i], a, a');
  }

  lemma Drops(w: World, i: nat, r: World, t: Timer)
    requires Good(w, i, {}) && r.Wf() && Local(w, i, r)
    requires !Armed(r.cx[i], t) && r.slots == FreeTimer(w.slots, i, t)
    requires r.gates[i] == w.gates[i] || (r.gates[i] == -1 && !r.cx[i].Moving())
    requires (r.cx[i].Moving() ==> w.cx[i].Moving()) && GateOk(r.cx[i], r.gates[i], r.now)
    requires forall u :: u != t ==> && Armed(r.cx[i], u) == Armed(w.cx[i], u)
                                    && r.cx[i].generations.Get(u) == w.cx[i].generations.Get(u)
    ensures Changed(w, i, r, {})
  {
    var c, c', a, a' := w.cx[i], r.cx[i], Entries(w.slots), Entries(r.slots);
    assert a - {} == a && a' - {} == a';
    FreeRemoves(w.slots, i, t);
    assert GoneTimer(c', i, a', t);
    forall u | u != t
      ensures KeptTimer(c, c', i, w.gates[i], r.gates[i], a, a', u)
    {
    }
    FateMirrors(c, c', i, w.gates[i], r.gates[i], a, a');
  }

  lemma Closes(w: World, i: nat, ex: set<Entry>)
    requires Good(w, i, ex) && !w.cx[i].closeDelayPending && w.now >= 0
    requires w.cx[i].gate.GateOpen? || w.cx[i].gate.GateOpening?
    requires KeyFree(ex, i, TimerFired(CloseTimeout, 0))
    ensures Changed(w, i, StartGateClose(w, i), ex)
    ensures forall s :: 0 <= s < MAX_PENDING_EVENTS && w.slots[s].active && !IsTimer(w.slots[s], i, OpenTimeout)
              ==> StartGateClose(w, i).slots[s] == w.slots[s]
  {
    GateCloseEffect(w, i);
    ClosesTo(w, i, ex, StartGateClose(w, i));
  }

  lemma ClosesTo(w: World, i: nat, ex: set<Entry>, r: World)
    requires Good(w, i, ex) && !w.cx[i].closeDelayPending
    requires w.cx[i].gate.GateOpen? || w.cx[i].gate.GateOpening?
    requires KeyFree(ex, i, TimerFired(CloseTimeout, 0))
    requires r.Wf() && r == w.(cx := r.cx, slots := r.slots, gates := w.gates[i := w.now + MOVE_MS]) && w.now >= 0
    requires r.cx == w.cx[i := w.cx[i].(gate := GateClosing, closeDelayPending := false,
                                        generations := r.cx[i].generations)]
    requires var g := r.cx[i].generations;
             && g == w.cx[i].generations.(closeTimeout := g.closeTimeout, openTimeout := g.openTimeout)
             && r.slots == CloseSlots(w.slots, i, w.cx[i].gate.GateOpening?, g.closeTimeout, w.now)
    ensures Changed(w, i, r, ex)
    ensures forall s :: 0 <= s < MAX_PENDING_EVENTS && w.slots[s].active && !IsTimer(w.slots[s], i, OpenTimeout)
              ==> r.slots[s] == w.slots[s]
  {
    var c, c', a, a' := w.cx[i], r.cx[i], Entries(w.slots), Entries(r.slots);
    assert KeyFree(a, i, TimerFired(CloseTimeout, 0));
    CloseEntries(w.slots, i, c.gate.GateOpening?, c'.generations.closeTimeout, w.now);
    ClosingMirrors(c, c', i, w.gates[i], r.gates[i], a - ex, a' - ex);
  }

  lemma ClosingMirrors(c: Crossing, c': Crossing, i: nat, gate: int, gate': int, a: set<Entry>, a': set<Entry>)
    requires Mirrors(c, i, gate, a) && !c.closeDelayPending && (c.gate.GateOpen? || c.gate.GateOpening?)
    requires c' == c.(gate := GateClosing, generations := c'.generations)
    requires var g := c'.generations;
             && g == c.generations.(closeTimeout := g.closeTimeout, openTimeout := g.openTimeout)
             && a' == (if c.gate.GateOpening? then Without(a, i, OpenTimeout) else a)
                      + {Entry(i, TimerFired(CloseTimeout, g.closeTimeout), gate' + SLACK_MS)}
    ensures Mirrors(c', i, gate', a')
  {
    assert FreshTimer(c', i, gate', a', CloseTimeout, gate' + SLACK_MS);
    assert GoneTimer(c', i, a', OpenTimeout) && GoneTimer(c', i, a', CloseDelay);
    assert KeptTimer(c, c', i, gate, gate', a, a', TrainTimeoutUp);
    assert KeptTimer(c, c', i, gate, gate', a, a', TrainTimeoutDown);
    FateMirrors(c, c', i, gate, gate', a, a');
  }

  lemma Opens(w: World, i: nat)
    requires Good(w, i, {}) && (w.cx[i].gate.GateClosed? || w.cx[i].gate.GateClosing?) && w.now >= 0
    ensures Changed(w, i, StartGateOpen(w, i), {})
  {
    GateOpenEffect(w, i);
    OpensTo(w, i, StartGateOpen(w, i));
  }

  lemma OpensTo(w: World, i: nat, r: World)
    requires Good(w, i, {}) && (w.cx[i].gate.GateClosed? || w.cx[i].gate.GateClosing?) && w.now >= 0
    requires r.Wf() && r == w.(cx := r.cx, slots := r.slots, gates := w.gates[i := w.now + MOVE_MS])
    requires r.cx == w.cx[i := w.cx[i].(gate := GateOpening, closeDelayPending := false,
                                        generations := r.cx[i].generations)]
    requires var g := r.cx[i].generations;
             && g == w.cx[i].generations.(closeDelay := g.closeDelay, closeTimeout := g.closeTimeout,
                                          openTimeout := g.openTimeout)
             && r.slots == OpenSlots(w.slots, i, g.openTimeout, w.now)
    ensures Changed(w, i, r, {})
  {
    var c, c', a, a' := w.cx[i], r.cx[i], Entries(w.slots), Entries(r.slots);
    assert a - {} == a && a' - {} == a';
    assert KeyFree(a, i, TimerFired(OpenTimeout, 0));
    OpenEntries(w.slots, i, c'.generations.openTimeout, w.now);
    OpeningMirrors(c, c', i, w.gates[i], r.gates[i], a, a');
  }

  lemma OpeningMirrors(c: Crossing, c': Crossing, i: nat, gate: int, gate': int, a: set<Entry>, a': set<Entry>)
    requires Mirrors(c, i, gate, a) && (c.gate.GateClosed? || c.gate.GateClosing?)
    requires c' == c.(gate := GateOpening, closeDelayPending := false, generations := c'.generations)
    requires var g := c'.generations;
             && g == c.generations.(closeDelay := g.closeDelay, closeTimeout := g.closeTimeout,
                                    openTimeout := g.openTimeout)
             && a' == Without(Without(a, i, CloseDelay), i, CloseTimeout)
                      + {Entry(i, TimerFired(OpenTimeout, g.openTimeout), gate' + SLACK_MS)}
    ensures Mirrors(c', i, gate', a')
  {
    assert FreshTimer(c', i, gate', a', OpenTimeout, gate' + SLACK_MS);
    assert GoneTimer(c', i, a', CloseDelay) && GoneTimer(c', i, a', CloseTimeout);
    assert KeptTimer(c, c', i, gate, gate', a, a', TrainTimeoutUp);
    assert KeptTimer(c, c', i, gate, gate', a, a', TrainTimeoutDown);
    FateMirrors(c, c', i, gate, gate', a, a');
  }

  lemma ChangedTwice(w: World, i: nat, w1: World, r: World)
    requires w.Wf() && i < NUM_CROSSINGS && Changed(w, i, w1, {}) && Changed(w1, i, r, {})
    requires forall t :: Armed(w.cx[i], t) && Armed(r.cx[i], t) ==> Armed(w1.cx[i], t)
    requires w.cx[i].gate == r.cx[i].gate ==> w1.cx[i].gate == r.cx[i].gate
    ensures Changed(w, i, r, {})
  {
    assert w.cx[i := w1.cx[i]][i := r.cx[i]] == w.cx[i := r.cx[i]];
    assert w.gates[i := w1.gates[i]][i := r.gates[i]] == w.gates[i := r.gates[i]];
    assert Entries(r.slots) - {} == Entries(r.slots);
    forall e | e in Entries(r.slots) && e !in Entries(w.slots)
      ensures e.cx == i && e.signal.TimerFired? && !Armed(w.cx[i], e.signal.timer)
      ensures e.at == w.now + 1000 * TimerDelay(e.signal.timer)
    {
    }
  }

  // ----- one event -----

  lemma ApproachChanged(w: World, i: nat, d: Direction)
    requires Good(w, i, {}) && CrossingOk(w.cx[i]) && w.cx[i].fault.NoFault? && w.now >= 0
    ensures Changed(w, i, OnApproach(w, i, d), {})
  {
    var c := w.cx[i];
    if c.TrackOf(d).NoTrain? {
      var w1 := w.Put(i, c.SetTrack(d, Approaching).(flashOn := true)).Send(Preempt(i));
      if c.gate.GateOpen? && !c.closeDelayPending {
        Starts(w, i, OnApproach(w, i, d), CloseDelay, w.now + 1000 * GATE_CLOSE_DELAY_SEC);
      } else {
        ApproachAnnounced(w, i, d, w1);
      }
    } else {
      Untimed(w, i, w);
    }
  }

  lemma ApproachAnnounced(w: World, i: nat, d: Direction, w1: World)
    requires Good(w, i, {}) && CrossingOk(w.cx[i]) && w.now >= 0 && w.cx[i].TrackOf(d).NoTrain?
    requires w1 == w.Put(i, w.cx[i].SetTrack(d, Approaching).(flashOn := true)).Send(Preempt(i))
    ensures Changed(w, i, if w.cx[i].gate.GateOpening? then StartGateClose(w1, i) else w1, {})
  {
    Untimed(w, i, w1);
    if w.cx[i].gate.GateOpening? {
      Closes(w1, i, {});
      ChangedTwice(w, i, w1, StartGateClose(w1, i));
    }
  }

  lemma EnterChanged(w: World, i: nat, d: Direction)
    requires Good(w, i, {}) && CrossingOk(w.cx[i]) && w.cx[i].fault.NoFault? && w.now >= 0
    ensures Changed(w, i, OnEnter(w, i, d), {})
  {
    var c := w.cx[i];
    if !c.TrackOf(d).Approaching? {
      Untimed(w, i, w);
    } else if !c.gate.GateClosed? {
      FaultEffect(w, i, TrainEarly);
    } else {
      Starts(w, i, OnEnter(w, i, d), TrainTimeoutTimer(d), w.now + 1000 * TRAIN_TIMEOUT_SEC);
    }
  }

  lemma ExitChanged(w: World, i: nat, d: Direction)
    requires Good(w, i, {}) && CrossingOk(w.cx[i]) && w.cx[i].fault.NoFault? && w.now >= 0
    ensures Changed(w, i, OnExit(w, i, d), {})
  {
    var c := w.cx[i];
    if c.TrackOf(d).OnCrossing? {
      var w1 := DropTimer(w.Put(i, c.SetTrack(d, Cleared)), i, TrainTimeoutTimer(d));
      Drops(w, i, w1, TrainTimeoutTimer(d));
      if w1.cx[i].BothTracksClear() {
        var w2 := w1.Put(i, w1.cx[i].ReleaseCleared());
        Untimed(w1, i, w2);
        ChangedTwice(w, i, w1, w2);
        Opens(w2, i);
        ChangedTwice(w, i, w2, OnExit(w, i, d));
      }
    } else {
      Untimed(w, i, w);
    }
  }

  /** The gate reports the end of its movement: its completion time is cleared first. */
  lemma GateClosedChanged(w: World, i: nat)
    requires Good(w, i, {}) && CrossingOk(w.cx[i]) && w.cx[i].gate.GateClosing? && w.now >= 0
    ensures Changed(w, i, Handle(w.(gates := w.gates[i := -1]), i, GateHasClosed), {})
  {
    var w0 := w.(gates := w.gates[i := -1]);
    var w1 := DropTimer(w0.Put(i, w0.cx[i].(gate := GateClosed)), i, CloseTimeout);
    Drops(w, i, w1, CloseTimeout);
    if w1.cx[i].resetPending {
      var w2 := w1.Put(i, w1.cx[i].(resetPending := false));
      Untimed(w1, i, w2);
      ChangedTwice(w, i, w1, w2);
      Opens(w2, i);
      ChangedTwice(w, i, w2, OnGateClosed(w0, i));
    }
  }

  lemma GateOpenedChanged(w: World, i: nat)
    requires Good(w, i, {}) && CrossingOk(w.cx[i]) && w.cx[i].gate.GateOpening? && w.now >= 0
    ensures Changed(w, i, Handle(w.(gates := w.gates[i := -1]), i, GateHasOpened), {})
  {
    var w0 := w.(gates := w.gates[i := -1]);
    var w1 := DropTimer(w0.Put(i, w0.cx[i].(gate := GateOpen)), i, OpenTimeout);
    Drops(w, i, w1, OpenTimeout);
    var r := OnGateOpened(w0, i);
    if w1.cx[i].BothTracksClear() {
      Untimed(w1, i, r);
    } else {
      Closes(w1, i, {});
    }
    ChangedTwice(w, i, w1, r);
  }

  lemma CloseDelayChanged(w: World, i: nat, e: Entry)
    requires Good(w, i, {}) && CrossingOk(w.cx[i]) && w.cx[i].fault.NoFault? && w.now >= 0
    requires e in Entries(w.slots) && TimerEntry(e, i, CloseDelay)
    requires forall x :: x in Entries(w.slots) && TimerEntry(x, i, CloseDelay) ==> x == e
    ensures Changed(w, i, OnTimer(w, i, CloseDelay, e.signal.generation), {e})
    ensures forall s :: 0 <= s < MAX_PENDING_EVENTS && w.slots[s].active && EntryOf(w.slots[s]) == e
              ==> OnTimer(w, i, CloseDelay, e.signal.generation).slots[s] == w.slots[s]
  {
    var c := w.cx[i];
    assert Entries(w.slots) - {} == Entries(w.slots);
    var w1 := w.Put(i, c.(closeDelayPending := false));
    var a := Entries(w.slots);
    assert GoneTimer(w1.cx[i], i, a - {e}, CloseDelay);
    forall t | t != CloseDelay
      ensures KeptTimer(c, w1.cx[i], i, w.gates[i], w.gates[i], a, a - {e}, t)
    {
    }
    FateMirrors(c, w1.cx[i], i, w.gates[i], w.gates[i], a, a - {e});
    Closes(w1, i, {e});
  }

  lemma ResetMirrors(c: Crossing, c': Crossing, i: nat, gate: int, gate': int, a: set<Entry>, a': set<Entry>)
    requires Mirrors(c, i, gate, a) && c.gate.GateFault? && !c.fault.NoFault? && !c.closeDelayPending
    requires c'.gate.GateClosing? && c'.up.NoTrain? && c'.down.NoTrain? && !c'.closeDelayPending
    requires a' == a + {Entry(i, TimerFired(CloseTimeout, c'.generations.closeTimeout), gate' + SLACK_MS)}
    ensures Mirrors(c', i, gate', a')
  {
    assert FreshTimer(c', i, gate', a', CloseTimeout, gate' + SLACK_MS);
    forall t | t != CloseTimeout
      ensures GoneTimer(c', i, a', t)
    {
    }
    FateMirrors(c, c', i, gate, gate', a, a');
  }

  lemma ResetTo(w: World, i: nat, r: World)
    requires Good(w, i, {}) && CrossingOk(w.cx[i]) && !w.cx[i].fault.NoFault? && w.now >= 0
    requires r.Wf() && r == w.(cx := w.cx[i := r.cx[i]], slots := r.slots, gates := w.gates[i := w.now + MOVE_MS])
    requires r.cx[i] == w.cx[i].(fault := NoFault, up := NoTrain, down := NoTrain, gate := GateClosing,
                                 resetPending := true, generations := r.cx[i].generations)
    requires r.slots == PutSlot(w.slots, TimerSlot(i, CloseTimeout, r.cx[i].generations.closeTimeout,
                                                   w.now + MOVE_MS + SLACK_MS))
    ensures Changed(w, i, r, {})
  {
    var a, g := Entries(w.slots), r.cx[i].generations.closeTimeout;
    assert a - {} == a && Entries(r.slots) - {} == Entries(r.slots);
    assert KeyFree(a, i, TimerFired(CloseTimeout, 0));
    PutAdds(w.slots, TimerSlot(i, CloseTimeout, g, w.now + MOVE_MS + SLACK_MS));
    ResetMirrors(w.cx[i], r.cx[i], i, w.gates[i], r.gates[i], a, Entries(r.slots));
  }

  lemma ResetChanged(w: World, i: nat)
    requires Good(w, i, {}) && CrossingOk(w.cx[i]) && w.now >= 0
    ensures Changed(w, i, OnReset(w, i), {})
  {
    if w.cx[i].fault.NoFault? {
      Untimed(w, i, w);
    } else {
      ResetTo(w, i, OnReset(w, i));
    }
  }
}
