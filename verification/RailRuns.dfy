/** What every run of the simulator guarantees, in the simulator's own terms. */
module RailRuns {
  import opened Crossing
  import opened RailSpec
  import opened Agenda
  import opened CrossingSafety
  import opened TimerMirror
  import opened RailInvariant

  /** Crossings stay safe, and messages are only ever added to what was sent. */
  ghost predicate SafeStep(w: World, r: World) {
    Safe(r) && w.sent <= r.sent
  }

  lemma HandleSafeStep(w: World, i: nat, signal: Signal)
    requires Safe(w) && i < NUM_CROSSINGS
    ensures SafeStep(w, Handle(w, i, signal))
  {
    HandleSafe(w, i, signal);
    HandleReacts(w, i, signal);
  }

  /** Slots, gates and clock do not matter for the safety of the crossings. */
  lemma SafeElsewhere(w: World, r: World)
    requires Safe(w) && r.Wf() && r.cx == w.cx && r.sent == w.sent
    ensures Safe(r)
  {
    forall i | 0 <= i < NUM_CROSSINGS
      ensures CrossingOk(r.cx[i]) && Announced(r, i)
    {
      assert Announced(w, i);
    }
  }

  lemma FireGateSafe(w: World, i: nat)
    requires Safe(w) && i < NUM_CROSSINGS
    ensures SafeStep(w, FireGate(w, i))
  {
    if 0 <= w.gates[i] <= w.now {
      var w1 := w.(gates := w.gates[i := -1]);
      SafeElsewhere(w, w1);
      HandleSafeStep(w1, i, GateHasClosed);
      HandleSafeStep(w1, i, GateHasOpened);
    }
  }

  lemma {:induction false} FireGatesSafe(w: World, n: nat)
    requires Safe(w) && n <= NUM_CROSSINGS
    ensures SafeStep(w, FireGates(w, n))
  {
    if n > 0 {
      FireGatesSafe(w, n - 1);
      FireGateSafe(FireGates(w, n - 1), n - 1);
    }
  }

  lemma DeliverSlotSafe(w: World, k: nat)
    requires Safe(w) && k < MAX_PENDING_EVENTS
    ensures SafeStep(w, DeliverSlot(w, k))
  {
    if SlotDue(w, k) {
      if w.slots[k].cx < NUM_CROSSINGS {
        HandleSafeStep(w, w.slots[k].cx, w.slots[k].signal);
        SafeElsewhere(Handle(w, w.slots[k].cx, w.slots[k].signal), DeliverSlot(w, k));
      } else {
        SafeElsewhere(w, DeliverSlot(w, k));
      }
    }
  }

  lemma {:induction false} DeliverSafe(w: World, n: nat)
    requires Safe(w) && n <= MAX_PENDING_EVENTS
    ensures SafeStep(w, Deliver(w, n))
  {
    if n > 0 {
      DeliverSafe(w, n - 1);
      DeliverSlotSafe(Deliver(w, n - 1), n - 1);
    }
  }

  lemma TickSafe(w: World)
    requires Safe(w)
    ensures SafeStep(w, Tick(w))
  {
    SafeElsewhere(w, Advance(w));
    FireGatesSafe(Advance(w), NUM_CROSSINGS);
    DeliverSafe(FireGates(Advance(w), NUM_CROSSINGS), MAX_PENDING_EVENTS);
  }

  /** Every command keeps all crossings safe, from any state of the event array. */
  lemma StepSafe(w: World, c: Command)
    requires Safe(w)
    ensures SafeStep(w, Step(w, c))
  {
    match c
    case TickCmd => TickSafe(w);
    case InjectCmd(i) => if i < NUM_CROSSINGS { HandleSafeStep(w, i, InjectFault); }
    case ResetCmd(i) => if i < NUM_CROSSINGS { HandleSafeStep(w, i, ResetFault); }
    case _ => SafeElsewhere(w, Step(w, c));
  }

  lemma {:induction false} EveryRunSafe(layout: Layout, scale: int, cmds: seq<Command>)
    ensures Safe(Run(Init(layout, scale), cmds))
    decreases |cmds|
  {
    if cmds == [] {
      InitSafe(layout, scale);
    } else {
      var n := |cmds| - 1;
      EveryRunSafe(layout, scale, cmds[..n]);
      StepSafe(Run(Init(layout, scale), cmds[..n]), cmds[n]);
    }
  }

  /** In every run, at every time scale, a timer is queued exactly while its crossing waits for it:
      once, with the current generation. A crossing in fault has no timer. */
  lemma TimersMirrorCrossings(layout: Layout, scale: int, cmds: seq<Command>, i: nat, t: Timer)
    requires layout.Accepted() && i < NUM_CROSSINGS
    ensures var w := Run(Init(layout, scale), cmds);
            && (Armed(w.cx[i], t) <==> exists s :: 0 <= s < MAX_PENDING_EVENTS && IsTimer(w.slots[s], i, t))
            && (forall s :: 0 <= s < MAX_PENDING_EVENTS && IsTimer(w.slots[s], i, t) ==>
                  w.slots[s].signal.generation == w.cx[i].generations.Get(t))
            && (forall s, r | 0 <= s < MAX_PENDING_EVENTS && 0 <= r < MAX_PENDING_EVENTS ::
                  IsTimer(w.slots[s], i, t) && IsTimer(w.slots[r], i, t) ==> s == r)
            && (!w.cx[i].fault.NoFault? ==> !Armed(w.cx[i], t))
  {
    EveryRunSettled(layout, scale, cmds);
    var w := Run(Init(layout, scale), cmds);
    assert Mirrors(w.cx[i], i, w.gates[i], Entries(w.slots));
    if Armed(w.cx[i], t) {
      var e :| e in Entries(w.slots) && TimerEntry(e, i, t);
      var s :| 0 <= s < |w.slots| && w.slots[s].active && EntryOf(w.slots[s]) == e;
      assert IsTimer(w.slots[s], i, t);
    }
    forall s | 0 <= s < MAX_PENDING_EVENTS && IsTimer(w.slots[s], i, t)
      ensures Armed(w.cx[i], t) && w.slots[s].signal.generation == w.cx[i].generations.Get(t)
    {
      assert EntryOf(w.slots[s]) in Entries(w.slots);
    }
    forall s, r | 0 <= s < MAX_PENDING_EVENTS && 0 <= r < MAX_PENDING_EVENTS
                  && IsTimer(w.slots[s], i, t) && IsTimer(w.slots[r], i, t)
      ensures s == r
    {
      assert SameKey(w.slots[s].cx, w.slots[s].signal, w.slots[r].cx, w.slots[r].signal);
    }
  }

  /** In every run, at every time scale, a gate never runs into its timeout: no gate timeout fault
      is raised, and a travelling gate arrives at least SLACK_MS before its timeout is due. */
  lemma GatesBeatTheirTimeouts(layout: Layout, scale: int, cmds: seq<Command>, i: nat)
    requires layout.Accepted() && i < NUM_CROSSINGS
    ensures var w := Run(Init(layout, scale), cmds);
            && !w.cx[i].fault.GateCloseTimeout? && !w.cx[i].fault.GateOpenTimeout?
            && (w.cx[i].Moving() ==> w.now < w.gates[i] <= w.now + MOVE_MS)
            && forall s, t :: 0 <= s < MAX_PENDING_EVENTS && GateTimer(t) && IsTimer(w.slots[s], i, t) ==>
                 w.slots[s].at == w.gates[i] + SLACK_MS
  {
    EveryRunSettled(layout, scale, cmds);
    var w := Run(Init(layout, scale), cmds);
    assert Mirrors(w.cx[i], i, w.gates[i], Entries(w.slots));
    forall s, t | 0 <= s < MAX_PENDING_EVENTS && GateTimer(t) && IsTimer(w.slots[s], i, t)
      ensures w.slots[s].at == w.gates[i] + SLACK_MS
    {
      assert EntryOf(w.slots[s]) in Entries(w.slots);
    }
  }

  /** Among the timers of three crossings at most fifteen slots are taken. */
  lemma RoomWithoutTrains(w: World)
    requires w.Wf() && Sound(w.slots)
    requires forall s :: 0 <= s < |w.slots| && w.slots[s].active ==> w.slots[s].signal.TimerFired?
    ensures FreeSlots(w.slots, |w.slots|) >= MAX_PENDING_EVENTS - TIMER_EVENT_RESERVE
  {
    CountCodes(w.slots, |w.slots|);
    BoundedSet(Codes(w.slots, |w.slots|), TIMER_EVENT_RESERVE);
  }

  /** In every run a free track is never refused for lack of room, and every search for a free
      slot succeeds. */
  lemma NeverOutOfSlots(layout: Layout, scale: int, cmds: seq<Command>)
    requires layout.Accepted()
    ensures var w := Run(Init(layout, scale), cmds);
            && FirstFree(w.slots, 0) < MAX_PENDING_EVENTS
            && HasRoom(w, 3 * NUM_CROSSINGS)
            && (LineFree(w, Up) && LineFree(w, Down) ==> HasRoom(w, 6 * NUM_CROSSINGS))
  {
    EveryRunSettled(layout, scale, cmds);
    var w := Run(Init(layout, scale), cmds);
    Room(w.slots);
    NeverFull(w.slots);
    if LineFree(w, Up) && LineFree(w, Down) {
      forall s | 0 <= s < |w.slots| && w.slots[s].active
        ensures w.slots[s].signal.TimerFired?
      {
        if !w.slots[s].signal.TimerFired? {
          assert IsTrainSlot(w.slots[s], w.slots[s].cx, w.slots[s].signal.dir);
          assert TrainPending(w, w.slots[s].cx, w.slots[s].signal.dir);
        }
      }
      RoomWithoutTrains(w);
    }
  }
}
