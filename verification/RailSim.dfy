/** The simulator as it runs: crossings, pending events and gates are arrays changed in place, and
    the crossing logic re-enters the simulator to arm and cancel timers. Every method refines the
    function of the same name in RailSpec. */
module RailSim {
  import opened Crossing
  import Spec = RailSpec
  import opened RailSpec
  import RailInvariant
  import RailCommands

  class Simulator {
    const crossings: array<Crossing>
    const events: array<Slot>
    const gates: array<int>
    const layout: Layout
    var simTimeMs: int
    var timeScale: int
    var sent: seq<Notice>
    /** An event was refused for want of a free slot. The program ignores this result of QueueEvent. */
    ghost var refused: bool

    ghost predicate Valid()
      reads this, crossings, events, gates
    {
      && crossings.Length == NUM_CROSSINGS && events.Length == MAX_PENDING_EVENTS && gates.Length == NUM_CROSSINGS
      && crossings as object != events as object && events as object != gates as object
      && gates as object != crossings as object
    }

    ghost function Contents(): (w: World)
      reads this, crossings, events, gates
      requires Valid()
      ensures w.Wf()
    {
      World(crossings[..], events[..], gates[..], simTimeMs, timeScale, layout, sent)
    }

    constructor (units01: int, units12: int, length: int, warning: int, scale: int)
      ensures Valid() && fresh(crossings) && fresh(events) && fresh(gates)
      ensures Contents() == Init(ApplyConfig(units01, units12, length, warning), scale)
      ensures RailInvariant.Settled(Contents()) && !refused
    {
      crossings := new Crossing[NUM_CROSSINGS](_ => Initial);
      events := new Slot[MAX_PENDING_EVENTS](_ => Slot(0, NO_CROSSING, ResetFault, false));
      gates := new int[NUM_CROSSINGS](_ => -1);
      layout := ApplyConfig(units01, units12, length, warning);
      simTimeMs := 0;
      timeScale := if scale > 0 then scale else 1;
      sent := [];
      refused := false;
      new;
      assert crossings[..] == seq(NUM_CROSSINGS, _ => Initial);
      assert events[..] == seq(MAX_PENDING_EVENTS, _ => Slot(0, NO_CROSSING, ResetFault, false));
      assert gates[..] == seq(NUM_CROSSINGS, _ => -1);
      RailInvariant.InitSettled(layout, scale);
    }

    // ----- the event array -----

    method QueueEvent(i: nat, signal: Signal, delaySec: int) returns (queued: bool)
      requires Valid() && i < NUM_CROSSINGS
      modifies events, this`refused
      ensures Contents() == Spec.QueueEvent(old(Contents()), i, signal, delaySec)
      ensures queued <==> HasFree(old(events[..]))
      ensures refused == (old(refused) || !queued)
    {
      var k := 0;
      while k < events.Length && events[k].active
        invariant 0 <= k <= events.Length
        invariant forall s :: 0 <= s < k ==> events[s].active
        invariant FirstFree(events[..], 0) == FirstFree(events[..], k)
      {
        k := k + 1;
      }
      queued := k < events.Length;
      if queued {
        events[k] := Slot(simTimeMs + 1000 * delaySec, i, signal, true);
      } else {
        refused := true;
      }
    }

    method StartTimer(i: nat, t: Timer, seconds: int)
      requires Valid() && i < NUM_CROSSINGS
      modifies events, this`refused
      ensures Contents() == Spec.StartTimer(old(Contents()), i, t, seconds)
      ensures HasFree(old(events[..])) ==> refused == old(refused)
    {
      var _ := QueueEvent(i, TimerFired(t, crossings[i].generations.Get(t)), seconds);
    }

    method CancelTimer(i: nat, t: Timer)
      requires Valid() && i < NUM_CROSSINGS
      modifies events
      ensures Contents() == Spec.CancelTimer(old(Contents()), i, t)
      ensures HasFree(old(events[..])) ==> HasFree(events[..])
    {
      for k := 0 to events.Length
        invariant forall s :: 0 <= s < k ==>
                    events[s] == if IsTimer(old(events[s]), i, t) then old(events[s]).(active := false) else old(events[s])
        invariant forall s :: k <= s < events.Length ==> events[s] == old(events[s])
      {
        if events[k].active && events[k].cx == i && events[k].signal.TimerFired? && events[k].signal.timer == t {
          events[k] := events[k].(active := false);
        }
      }
      assert events[..] == FreeTimer(old(events[..]), i, t);
      FreedIsFree(old(events[..]), i, t);
    }

    method GateCommand(i: nat)
      requires Valid() && i < NUM_CROSSINGS
      modifies gates
      ensures Contents() == Spec.GateCommand(old(Contents()), i)
    {
      gates[i] := simTimeMs + 1000 * GATE_MOVE_SEC;
    }

    // ----- the crossing logic -----

    /** Writes the record of a crossing. */
    method Update(i: nat, c: Crossing)
      requires Valid() && i < NUM_CROSSINGS
      modifies crossings
      ensures Contents() == old(Contents()).Put(i, c)
    {
      crossings[i] := c;
    }

    method DropTimer(i: nat, t: Timer)
      requires Valid() && i < NUM_CROSSINGS
      modifies crossings, events
      ensures Contents() == Spec.DropTimer(old(Contents()), i, t)
      ensures HasFree(old(events[..])) ==> HasFree(events[..])
    {
      Update(i, crossings[i].Bump(t));
      CancelTimer(i, t);
    }

    method EnterFault(i: nat, f: Fault)
      requires Valid() && i < NUM_CROSSINGS
      modifies crossings, events, this`sent
      ensures Contents() == Spec.EnterFault(old(Contents()), i, f)
    {
      crossings[i] := crossings[i].(fault := f, gate := GateFault, closeDelayPending := false);
      if !crossings[i].flashOn {
        crossings[i] := crossings[i].(flashOn := true);
      }
      ghost var w1 := Contents();
      assert w1 == old(Contents()).Put(i, old(crossings[i]).(fault := f, gate := GateFault,
                                                             closeDelayPending := false, flashOn := true));
      for n := 0 to |ALL_TIMERS|
        invariant Contents() == DropTimers(w1, i, n)
      {
        DropTimer(i, ALL_TIMERS[n]);
      }
      sent := sent + [FaultAlert(i, f)];
    }

    method StartGateClose(i: nat)
      requires Valid() && i < NUM_CROSSINGS
      modifies crossings, events, gates, this`refused
      ensures Contents() == Spec.StartGateClose(old(Contents()), i)
      ensures HasFree(old(events[..])) ==> refused == old(refused)
    {
      if crossings[i].gate.GateOpen? || crossings[i].gate.GateOpening? {
        if crossings[i].gate.GateOpening? {
          DropTimer(i, OpenTimeout);
        }
        Update(i, crossings[i].(gate := GateClosing, closeDelayPending := false));
        GateCommand(i);
        Update(i, crossings[i].Bump(CloseTimeout));
        StartTimer(i, CloseTimeout, GATE_CLOSE_TIMEOUT_SEC);
      }
    }

    method StartGateOpen(i: nat)
      requires Valid() && i < NUM_CROSSINGS
      modifies crossings, events, gates, this`refused
      ensures Contents() == Spec.StartGateOpen(old(Contents()), i)
      ensures HasFree(old(events[..])) ==> refused == old(refused)
    {
      if crossings[i].gate.GateClosed? || crossings[i].gate.GateClosing? {
        Update(i, crossings[i].(gate := GateOpening, closeDelayPending := false).Bump(CloseDelay).Bump(CloseTimeout));
        CancelTimer(i, CloseDelay);
        CancelTimer(i, CloseTimeout);
        GateCommand(i);
        Update(i, crossings[i].Bump(OpenTimeout));
        StartTimer(i, OpenTimeout, GATE_OPEN_TIMEOUT_SEC);
      }
    }

    method OnApproach(i: nat, d: Direction)
      requires Valid() && i < NUM_CROSSINGS
      modifies crossings, events, gates, this`sent, this`refused
      ensures Contents() == Spec.OnApproach(old(Contents()), i, d)
      ensures HasFree(old(events[..])) ==> refused == old(refused)
    {
      if crossings[i].TrackOf(d).NoTrain? {
        Update(i, crossings[i].SetTrack(d, Approaching).(flashOn := true));
        sent := sent + [Preempt(i)];
        if crossings[i].gate.GateOpen? && !crossings[i].closeDelayPending {
          Update(i, crossings[i].(closeDelayPending := true).Bump(CloseDelay));
          StartTimer(i, CloseDelay, GATE_CLOSE_DELAY_SEC);
        } else if crossings[i].gate.GateOpening? {
          StartGateClose(i);
        }
      }
    }

    method OnEnter(i: nat, d: Direction)
      requires Valid() && i < NUM_CROSSINGS
      modifies crossings, events, this`sent, this`refused
      ensures Contents() == Spec.OnEnter(old(Contents()), i, d)
      ensures HasFree(old(events[..])) ==> refused == old(refused)
    {
      if crossings[i].TrackOf(d).Approaching? {
        if !crossings[i].gate.GateClosed? {
          EnterFault(i, TrainEarly);
          return;
        }
        var t := TrainTimeoutTimer(d);
        Update(i, crossings[i].SetTrack(d, OnCrossing).Bump(t));
        StartTimer(i, t, TRAIN_TIMEOUT_SEC);
      }
    }

    method OnExit(i: nat, d: Direction)
      requires Valid() && i < NUM_CROSSINGS
      modifies crossings, events, gates, this`refused
      ensures Contents() == Spec.OnExit(old(Contents()), i, d)
      ensures HasFree(old(events[..])) ==> refused == old(refused)
    {
      if crossings[i].TrackOf(d).OnCrossing? {
        Update(i, crossings[i].SetTrack(d, Cleared));
        DropTimer(i, TrainTimeoutTimer(d));
        if crossings[i].BothTracksClear() {
          Update(i, crossings[i].ReleaseCleared());
          StartGateOpen(i);
        }
      }
    }

    method OnGateClosed(i: nat)
      requires Valid() && i < NUM_CROSSINGS
      modifies crossings, events, gates, this`refused
      ensures Contents() == Spec.OnGateClosed(old(Contents()), i)
      ensures HasFree(old(events[..])) ==> refused == old(refused)
    {
      if crossings[i].gate.GateClosing? {
        Update(i, crossings[i].(gate := GateClosed));
        DropTimer(i, CloseTimeout);
        if crossings[i].resetPending {
          Update(i, crossings[i].(resetPending := false));
          StartGateOpen(i);
        }
      }
    }

    method OnGateOpened(i: nat)
      requires Valid() && i < NUM_CROSSINGS
      modifies crossings, events, gates, this`sent, this`refused
      ensures Contents() == Spec.OnGateOpened(old(Contents()), i)
      ensures HasFree(old(events[..])) ==> refused == old(refused)
    {
      if crossings[i].gate.GateOpening? {
        Update(i, crossings[i].(gate := GateOpen));
        DropTimer(i, OpenTimeout);
        if !crossings[i].BothTracksClear() {
          StartGateClose(i);
          return;
        }
        Update(i, crossings[i].(flashOn := false));
        sent := sent + [Clear(i)];
      }
    }

    method OnTimer(i: nat, t: Timer, generation: nat)
      requires Valid() && i < NUM_CROSSINGS
      modifies crossings, events, gates, this`sent, this`refused
      ensures Contents() == Spec.OnTimer(old(Contents()), i, t, generation)
      ensures HasFree(old(events[..])) ==> refused == old(refused)
    {
      if generation != crossings[i].generations.Get(t) {
        return;
      }
      match t
      case CloseDelay =>
        Update(i, crossings[i].(closeDelayPending := false));
        StartGateClose(i);
      case CloseTimeout => EnterFault(i, GateCloseTimeout);
      case OpenTimeout => EnterFault(i, GateOpenTimeout);
      case _ => EnterFault(i, TrainTimeout);
    }

    method OnReset(i: nat)
      requires Valid() && i < NUM_CROSSINGS
      modifies crossings, events, gates, this`refused
      ensures Contents() == Spec.OnReset(old(Contents()), i)
      ensures HasFree(old(events[..])) ==> refused == old(refused)
    {
      if !crossings[i].fault.NoFault? {
        Update(i, crossings[i].(fault := NoFault, up := NoTrain, down := NoTrain,
                                gate := GateClosing, resetPending := true));
        GateCommand(i);
        Update(i, crossings[i].Bump(CloseTimeout));
        StartTimer(i, CloseTimeout, GATE_CLOSE_TIMEOUT_SEC);
      }
    }

    method Handle(i: nat, signal: Signal)
      requires Valid() && i < NUM_CROSSINGS
      modifies crossings, events, gates, this`sent, this`refused
      ensures Contents() == Spec.Handle(old(Contents()), i, signal)
      ensures HasFree(old(events[..])) ==> refused == old(refused)
    {
      if !crossings[i].fault.NoFault? && !signal.ResetFault? {
        return;
      }
      match signal
      case TrainApproach(d) => OnApproach(i, d);
      case TrainEnter(d) => OnEnter(i, d);
      case TrainExit(d) => OnExit(i, d);
      case GateHasClosed => OnGateClosed(i);
      case GateHasOpened => OnGateOpened(i);
      case TimerFired(t, g) => OnTimer(i, t, g);
      case InjectFault => EnterFault(i, Injected);
      case ResetFault => OnReset(i);
    }

    // ----- the tick -----

    method FireGate(i: nat)
      requires Valid() && i < NUM_CROSSINGS
      modifies crossings, events, gates, this`sent, this`refused
      ensures Contents() == Spec.FireGate(old(Contents()), i)
      ensures HasFree(old(events[..])) ==> refused == old(refused)
    {
      if gates[i] >= 0 && simTimeMs >= gates[i] {
        gates[i] := -1;
        assert Contents() == old(Contents()).(gates := old(gates[..])[i := -1]);
        if crossings[i].gate.GateClosing? {
          Handle(i, GateHasClosed);
        } else if crossings[i].gate.GateOpening? {
          Handle(i, GateHasOpened);
        }
      }
    }

    /** The handler runs while its slot is still in use, and may change any slot. */
    method DeliverSlot(k: nat)
      requires Valid() && k < MAX_PENDING_EVENTS
      modifies crossings, events, gates, this`sent, this`refused
      ensures Contents() == Spec.DeliverSlot(old(Contents()), k)
      ensures HasFree(old(events[..])) ==> refused == old(refused)
    {
      if events[k].active && simTimeMs >= events[k].at {
        if events[k].cx < NUM_CROSSINGS {
          Handle(events[k].cx, events[k].signal);
        }
        ghost var h := Contents();
        events[k] := events[k].(active := false);
        assert Contents() == Deactivate(h, k);
      }
    }

    method Tick()
      requires Valid()
      modifies crossings, events, gates, this`sent, this`simTimeMs, this`refused
      ensures Contents() == Spec.Tick(old(Contents()))
      ensures RailInvariant.Settled(old(Contents())) ==> refused == old(refused)
    {
      simTimeMs := simTimeMs + SIM_TICK_MS * timeScale;
      ghost var w := Contents();
      assert w == Advance(old(Contents()));
      for i := 0 to NUM_CROSSINGS
        invariant Contents() == FireGates(w, i)
        invariant RailInvariant.Settled(old(Contents())) ==> refused == old(refused)
      {
        RoomInTick(old(Contents()), i, 0);
        FireGate(i);
      }
      ghost var g := Contents();
      for k := 0 to MAX_PENDING_EVENTS
        invariant Contents() == Deliver(g, k)
        invariant RailInvariant.Settled(old(Contents())) ==> refused == old(refused)
      {
        RoomInTick(old(Contents()), 0, k);
        DeliverSlot(k);
      }
    }

    // ----- trains -----

    method TrainPending(i: nat, d: Direction) returns (pending: bool)
      requires Valid()
      ensures pending == Spec.TrainPending(Contents(), i, d)
      ensures pending <==> RailCommands.Pending(events[..], i, d)
    {
      RailCommands.PendingIsOnTrack(Contents(), i, d);
      for k := 0 to events.Length
        invariant forall s :: 0 <= s < k ==> !IsTrainSlot(events[s], i, d)
      {
        var e := events[k];
        if e.active && (e.signal.TrainApproach? || e.signal.TrainEnter? || e.signal.TrainExit?) && e.cx == i && e.signal.dir == d {
          assert IsTrainSlot(events[..][k], i, d);
          return true;
        }
      }
      return false;
    }

    method FreeEventSlots() returns (free: nat)
      requires Valid()
      ensures free == FreeSlots(Contents().slots, |Contents().slots|)
      ensures free == |RailCommands.Unused(events[..], 64)|
    {
      RailCommands.FreeIsUnused(events[..], 64);
      free := 0;
      for k := 0 to events.Length
        invariant free == FreeSlots(events[..], k)
      {
        if !events[k].active {
          free := free + 1;
        }
      }
    }

    /** Whether a train can start at one crossing, with room for its events and all timers. */
    method CanStartAt(i: nat, d: Direction, needed: nat) returns (ok: bool)
      requires Valid()
      ensures ok <==> !Spec.TrainPending(Contents(), i, d) && HasRoom(Contents(), needed)
      ensures ok <==> !RailCommands.Pending(events[..], i, d) && |RailCommands.Unused(events[..], 64)| >= needed + 15
    {
      var busy := TrainPending(i, d);
      var free := FreeEventSlots();
      ok := !busy && free >= needed + TIMER_EVENT_RESERVE;
    }

    method CanStartOnLine(d: Direction, needed: nat) returns (ok: bool)
      requires Valid()
      ensures ok <==> LineFree(Contents(), d) && HasRoom(Contents(), needed)
      ensures ok <==> (forall i: nat :: i < 3 ==> !RailCommands.Pending(events[..], i, d))
                      && |RailCommands.Unused(events[..], 64)| >= needed + 15
    {
      for i := 0 to NUM_CROSSINGS
        invariant forall j: nat :: j < i ==> !Spec.TrainPending(Contents(), j, d)
        invariant forall j: nat :: j < i ==> !RailCommands.Pending(events[..], j, d)
      {
        var busy := TrainPending(i, d);
        if busy {
          return false;
        }
      }
      var free := FreeEventSlots();
      ok := free >= needed + TIMER_EVENT_RESERVE;
    }

    method SimulateTrainAtCrossing(i: nat, d: Direction, noExit: bool)
      requires Valid() && i < NUM_CROSSINGS
      modifies events, this`refused
      ensures Contents() == QueueTrain(old(Contents()), i, d, 0, noExit)
      ensures AllFree(old(events[..])) >= 3 ==> refused == old(refused)
    {
      PutTakesOne(events[..]);
      var _ := QueueEvent(i, TrainApproach(d), 0);
      PutTakesOne(events[..]);
      var _ := QueueEvent(i, TrainEnter(d), layout.warning);
      if !noExit {
        PutTakesOne(events[..]);
        var _ := QueueEvent(i, TrainExit(d), layout.warning + layout.trainLength);
      }
    }

    /** One crossing of a line train: warned ahead of the arrival, cleared after the train's length. */
    method QueueArrival(i: nat, d: Direction, arrive: int, ghost warn: int)
      requires Valid() && i < NUM_CROSSINGS && arrive == warn + layout.warning
      modifies events, this`refused
      ensures Contents() == QueueTrain(old(Contents()), i, d, warn, false)
      ensures AllFree(events[..]) >= AllFree(old(events[..])) - 3
      ensures AllFree(old(events[..])) >= 3 ==> refused == old(refused)
    {
      ghost var w := Contents();
      PutTakesOne(events[..]);
      var _ := QueueEvent(i, TrainApproach(d), arrive - layout.warning);
      PutTakesOne(events[..]);
      var _ := QueueEvent(i, TrainEnter(d), arrive);
      PutTakesOne(events[..]);
      var _ := QueueEvent(i, TrainExit(d), arrive + layout.trainLength);
      ThreeEvents(w, i, d, warn);
    }

    /** The arrival time grows along the line by the distance from the previous crossing. */
    method SimulateTrainOnLine(d: Direction)
      requires Valid()
      modifies events, this`refused
      ensures Contents() == QueueLine(old(Contents()), d, NUM_CROSSINGS)
      ensures AllFree(events[..]) >= AllFree(old(events[..])) - 3 * NUM_CROSSINGS
      ensures AllFree(old(events[..])) >= 3 * NUM_CROSSINGS ==> refused == old(refused)
    {
      ghost var w := Contents();
      var arrive := layout.warning;
      for step := 0 to NUM_CROSSINGS
        invariant Contents() == QueueLine(w, d, step)
        invariant AllFree(events[..]) >= AllFree(old(events[..])) - 3 * step
        invariant AllFree(old(events[..])) >= 3 * step ==> refused == old(refused)
        invariant arrive == layout.warning + if step == 0 then 0 else WarnDelay(layout, d, Visit(d, step - 1))
      {
        var i := if d.Up? then NUM_CROSSINGS - 1 - step else step;
        if step > 0 {
          var previous := if d.Up? then i + 1 else i - 1;
          arrive := arrive + Distance(i, previous);
        }
        NextDelay(layout, d, step);
        QueueArrival(i, d, arrive, WarnDelay(layout, d, i));
      }
    }

    /** The travel time between neighbouring crossings. */
    function Distance(i: nat, j: nat): int
      reads this
    {
      if (if i < j then i else j) == 0 then layout.distance01 else layout.distance12
    }

    method Execute(c: Command)
      requires Valid()
      modifies this, crossings, events, gates
      ensures Contents() == Spec.Step(old(Contents()), c)
      ensures RailInvariant.Settled(old(Contents())) ==>
                && RailInvariant.Settled(Contents()) && refused == old(refused)
                && RailCommands.CommandDone(old(Contents()), c, Contents())
    {
      RoomBefore(Contents(), c);
      match c
      case TickCmd => Tick();
      case TrainLine(d) =>
        var ok := CanStartOnLine(d, 3 * NUM_CROSSINGS);
        if ok {
          SimulateTrainOnLine(d);
        }
      case TrainBoth =>
        var up := CanStartOnLine(Up, 6 * NUM_CROSSINGS);
        var down := CanStartOnLine(Down, 6 * NUM_CROSSINGS);
        if up && down {
          SimulateTrainOnLine(Up);
          SimulateTrainOnLine(Down);
        }
      case TrainAt(i, d) =>
        if i < NUM_CROSSINGS {
          var ok := CanStartAt(i, d, 3);
          if ok {
            SimulateTrainAtCrossing(i, d, false);
          }
        }
      case NoExit(i, d) =>
        if i < NUM_CROSSINGS {
          var ok := CanStartAt(i, d, 2);
          if ok {
            SimulateTrainAtCrossing(i, d, true);
          }
        }
      case InjectCmd(i) => if i < NUM_CROSSINGS { Handle(i, InjectFault); }
      case ResetCmd(i) => if i < NUM_CROSSINGS { Handle(i, ResetFault); }
      case Scale(n) => if 1 <= n <= 100 { timeScale := n; }
    }
  }

  /** A crossing is warned later than the one before it by the distance between them. */
  lemma NextDelay(l: Layout, d: Direction, step: nat)
    requires step < NUM_CROSSINGS
    ensures var i := Visit(d, step);
            WarnDelay(l, d, i) ==
            if step == 0 then 0
            else
              var j := Visit(d, step - 1);
              WarnDelay(l, d, j) + if (if i < j then i else j) == 0 then l.distance01 else l.distance12
  {
  }

  /** Cancelled timers only free slots. */
  lemma FreedIsFree(slots: seq<Slot>, i: nat, t: Timer)
    ensures HasFree(slots) ==> HasFree(FreeTimer(slots, i, t))
  {
    if HasFree(slots) {
      assert !FreeTimer(slots, i, t)[FirstFree(slots, 0)].active;
    }
  }

  function AllFree(slots: seq<Slot>): nat {
    FreeSlots(slots, |slots|)
  }

  lemma {:induction false} FreeBelow(slots: seq<Slot>, n: nat)
    requires n <= |slots| && FirstFree(slots, 0) >= n
    ensures FreeSlots(slots, n) == 0
  {
    if n > 0 {
      FreeBelow(slots, n - 1);
    }
  }

  lemma {:induction false} PutBelow(slots: seq<Slot>, k: nat, e: Slot, n: nat)
    requires k < |slots| && n <= |slots|
    ensures FreeSlots(slots[k := e], n) >= FreeSlots(slots, n) - if k < n then 1 else 0
  {
    if n > 0 {
      PutBelow(slots, k, e, n - 1);
    }
  }

  /** A new event takes at most one slot, and finds one while any is free. */
  lemma PutTakesOne(slots: seq<Slot>)
    ensures AllFree(slots) > 0 ==> HasFree(slots)
    ensures forall e :: AllFree(PutSlot(slots, e)) >= AllFree(slots) - 1
  {
    if !HasFree(slots) {
      FreeBelow(slots, |slots|);
    }
    forall e
      ensures AllFree(PutSlot(slots, e)) >= AllFree(slots) - 1
    {
      var k := FirstFree(slots, 0);
      if k < |slots| {
        PutBelow(slots, k, e, |slots|);
      }
    }
  }

  /** The three events of a train, one after the other. */
  lemma ThreeEvents(w: World, i: nat, d: Direction, warn: int)
    requires w.Wf() && i < NUM_CROSSINGS
    ensures var arrive := warn + w.layout.warning;
            QueueTrain(w, i, d, warn, false) ==
            Spec.QueueEvent(Spec.QueueEvent(Spec.QueueEvent(w, i, TrainApproach(d), warn), i, TrainEnter(d), arrive),
                            i, TrainExit(d), arrive + w.layout.trainLength)
  {
  }

  lemma RoomInTick(w: World, gates: nat, delivered: nat)
    requires w.Wf() && gates <= NUM_CROSSINGS && delivered <= MAX_PENDING_EVENTS
    ensures RailInvariant.Settled(w) ==>
              && HasFree(FireGates(Advance(w), gates).slots)
              && HasFree(Deliver(FireGates(Advance(w), NUM_CROSSINGS), delivered).slots)
  {
    if RailInvariant.Settled(w) {
      RailInvariant.AlwaysRoomInTick(w, gates, delivered);
    }
  }

  lemma RoomBefore(w: World, c: Command)
    requires w.Wf()
    ensures RailInvariant.Settled(w) ==>
              HasFree(w.slots) && RailInvariant.Settled(Spec.Step(w, c)) && RailCommands.CommandDone(w, c, Spec.Step(w, c))
  {
    if RailInvariant.Settled(w) {
      RailCommands.CommandsAct(w, c);
      RailInvariant.RoomWhenSettled(w);
      RailInvariant.StepSettled(w, c);
    }
  }
}
