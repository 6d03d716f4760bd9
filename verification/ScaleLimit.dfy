/** The warning margin covers exactly two tick roundings: ten is the largest time scale for which
    ordinary trains never fault. */
module ScaleLimit {
  import opened Crossing
  import opened RailSpec
  import opened Agenda
  import opened CrossingSafety
  import opened TimerMirror
  import opened RailInvariant
  import opened TrainTiming

  /** No run of ordinary trains with time scales of at most b ever ends in a fault. */
  ghost predicate SafeScale(b: int) {
    forall layout: Layout, scale: int, cmds: seq<Command> :: OrdinaryRun(b, layout, scale, cmds) ==>
      forall i :: 0 <= i < NUM_CROSSINGS ==> Run(Init(layout, scale), cmds).cx[i].fault.NoFault?
  }

  ghost predicate OrdinaryRun(b: int, layout: Layout, scale: int, cmds: seq<Command>) {
    layout.Accepted() && scale <= b && forall k :: 0 <= k < |cmds| ==> Ordinary(cmds[k], b)
  }

  // ----- ticks with at most one event -----

  predicate NothingDueNow(w: World)
    requires w.Wf()
  {
    forall s: nat :: s < MAX_PENDING_EVENTS ==> !SlotDue(w, s)
  }

  predicate GatesQuiet(w: World)
    requires w.Wf()
  {
    forall i :: 0 <= i < NUM_CROSSINGS ==> w.gates[i] < 0 || w.gates[i] > w.now
  }

  lemma {:induction false} QuietGates(w: World, n: nat)
    requires w.Wf() && n <= NUM_CROSSINGS && GatesQuiet(w)
    ensures FireGates(w, n) == w
  {
    if n > 0 {
      QuietGates(w, n - 1);
    }
  }

  lemma {:induction false} DeliverOne(w: World, k: nat, n: nat)
    requires w.Wf() && k < MAX_PENDING_EVENTS && n <= MAX_PENDING_EVENTS
    requires forall s: nat :: s < MAX_PENDING_EVENTS && s != k ==> !SlotDue(w, s)
    requires NothingDueNow(DeliverSlot(w, k))
    ensures Deliver(w, n) == if k < n then DeliverSlot(w, k) else w
  {
    if n > 0 {
      DeliverOne(w, k, n - 1);
      if n - 1 == k {
        assert Deliver(w, k) == w;
      }
    }
  }

  /** A tick in which at most slot k is due. */
  lemma TickOne(w: World, k: nat)
    requires w.Wf() && k < MAX_PENDING_EVENTS && GatesQuiet(Advance(w))
    requires forall s: nat :: s < MAX_PENDING_EVENTS && s != k ==> !SlotDue(Advance(w), s)
    requires NothingDueNow(DeliverSlot(Advance(w), k))
    ensures Tick(w) == DeliverSlot(Advance(w), k)
  {
    QuietGates(Advance(w), NUM_CROSSINGS);
    DeliverOne(Advance(w), k, MAX_PENDING_EVENTS);
  }

  // ----- a run that fails at scale 11 -----

  /** The shortest warning, with the shipped train length. */
  const LAYOUT := Layout(15, 15, 7, 10)

  /** Only the listed slots are in use. */
  predicate OnlySlots(w: World, used: set<nat>)
    requires w.Wf()
  {
    forall s: nat :: s < MAX_PENDING_EVENTS ==> (w.slots[s].active <==> s in used)
  }

  /** P1 waits for the close delay, which ends at 6100; the train enters at 10000. */
  predicate Waiting(w: World, now: int) {
    && w.Wf() && w.now == now && w.gates == [-1, -1, -1]
    && OnlySlots(w, {1, 2, 3})
    && w.slots[1] == Slot(10000, 0, TrainEnter(Up), true) && w.slots[2] == Slot(17000, 0, TrainExit(Up), true)
    && w.slots[3] == Slot(6100, 0, TimerFired(CloseDelay, 1), true)
    && w.cx[0].fault.NoFault? && w.cx[0].gate.GateOpen? && w.cx[0].up.Approaching? && w.cx[0].generations.closeDelay == 1
  }

  /** P1 closes until 10100; the train enters at 10000. */
  predicate TooLate(w: World, now: int) {
    && w.Wf() && w.now == now && w.gates == [10100, -1, -1]
    && OnlySlots(w, {0, 1, 2})
    && w.slots[0].at == 17100
    && w.slots[1] == Slot(10000, 0, TrainEnter(Up), true) && w.slots[2] == Slot(17000, 0, TrainExit(Up), true)
    && w.cx[0].fault.NoFault? && w.cx[0].gate.GateClosing? && w.cx[0].up.Approaching?
  }

  /** A train has been queued for P1. */
  predicate Queued(w: World) {
    && w.Wf() && w.now == 0 && w.scale == 11 && w.gates == [-1, -1, -1] && w.cx[0] == Initial
    && OnlySlots(w, {0, 1, 2}) && w.slots[0] == Slot(0, 0, TrainApproach(Up), true)
    && w.slots[1] == Slot(10000, 0, TrainEnter(Up), true) && w.slots[2] == Slot(17000, 0, TrainExit(Up), true)
  }

  lemma Starts()
    ensures Queued(Step(Init(LAYOUT, 11), TrainAt(0, Up)))
  {
    var w := Init(LAYOUT, 11);
    assert Entries(w.slots) == {};
    Room(w.slots);
    var s1 := PutSlot(w.slots, Slot(0, 0, TrainApproach(Up), true));
    assert s1 == w.slots[0 := Slot(0, 0, TrainApproach(Up), true)];
    var s2 := PutSlot(s1, Slot(10000, 0, TrainEnter(Up), true));
    assert FirstFree(s1, 1) == 1;
    assert s2 == s1[1 := Slot(10000, 0, TrainEnter(Up), true)];
    assert FirstFree(s2, 2) == 2 && FirstFree(s2, 1) == 2;
  }

  lemma Warns(w: World)
    requires Queued(w)
    ensures Waiting(Tick(w), 1100) && Tick(w).scale == 11
  {
    var a := Advance(w);
    assert SlotDue(a, 0);
    assert FirstFree(a.slots, 3) == 3 && FirstFree(a.slots, 2) == 3 && FirstFree(a.slots, 1) == 3;
    TickOne(w, 0);
  }

  lemma Waits(w: World, now: int)
    requires Waiting(w, now) && now + SIM_TICK_MS * w.scale < 6100
    ensures Waiting(Tick(w), now + SIM_TICK_MS * w.scale) && Tick(w).scale == w.scale
  {
    TickOne(w, 0);
  }

  lemma DelayEnds(w: World)
    requires Waiting(w, 6000) && w.scale == 11
    ensures TooLate(Tick(w), 7100) && Tick(w).scale == 11
  {
    var a := Advance(w);
    assert SlotDue(a, 3);
    GateCloseFrame(a.Put(0, a.cx[0].(closeDelayPending := false)), 0);
    TickOne(w, 3);
  }

  lemma Closes(w: World, now: int)
    requires TooLate(w, now) && now + SIM_TICK_MS * w.scale < 10000
    ensures TooLate(Tick(w), now + SIM_TICK_MS * w.scale) && Tick(w).scale == w.scale
  {
    TickOne(w, 3);
  }

  lemma EntersEarly(w: World)
    requires TooLate(w, 9300) && w.scale == 7
    ensures Tick(w).cx[0].fault.TrainEarly?
  {
    var a := Advance(w);
    assert SlotDue(a, 1);
    EnterFaultFrame(a, 0, TrainEarly);
    FaultFrees(a, 0, TrainEarly);
    TickOne(w, 1);
  }

  lemma FaultFrees(w: World, i: nat, f: Fault)
    requires w.Wf() && i < NUM_CROSSINGS
    ensures forall s :: 0 <= s < MAX_PENDING_EVENTS && EnterFault(w, i, f).slots[s].active ==>
              EnterFault(w, i, f).slots[s] == w.slots[s]
  {
    DropFrees(w.Put(i, w.cx[i].(fault := f, gate := GateFault, closeDelayPending := false, flashOn := true)), i, |ALL_TIMERS|);
  }

  lemma {:induction false} DropFrees(w: World, i: nat, n: nat)
    requires w.Wf() && i < NUM_CROSSINGS && n <= |ALL_TIMERS|
    ensures forall s :: 0 <= s < MAX_PENDING_EVENTS && DropTimers(w, i, n).slots[s].active ==>
              DropTimers(w, i, n).slots[s] == w.slots[s]
  {
    if n > 0 {
      DropFrees(w, i, n - 1);
    }
  }

  /** The commands of the failing run: ticks at 1100, 2200, .. 5500, 6000, 7100, 8200, 9300 and 10000. */
  const FAILING_RUN: seq<Command> :=
    [TrainAt(0, Up), TickCmd, TickCmd, TickCmd, TickCmd, TickCmd, Scale(5), TickCmd,
     Scale(11), TickCmd, TickCmd, TickCmd, Scale(7), TickCmd]

  /** The worlds of a run, one before each command and one after the last. */
  ghost predicate Trace(ws: seq<World>, cmds: seq<Command>) {
    && |ws| == |cmds| + 1
    && (forall n :: 0 <= n < |ws| ==> ws[n].Wf())
    && forall n {:trigger StepTo(ws[n], cmds[n], ws[n + 1])} :: 0 <= n < |cmds| ==> StepTo(ws[n], cmds[n], ws[n + 1])
  }

  ghost predicate StepTo(w: World, c: Command, r: World) {
    w.Wf() && r == Step(w, c)
  }

  lemma StepAt(ws: seq<World>, cmds: seq<Command>, n: nat)
    requires Trace(ws, cmds) && n < |cmds|
    ensures ws[n].Wf() && ws[n + 1] == Step(ws[n], cmds[n])
  {
    assert StepTo(ws[n], cmds[n], ws[n + 1]);
  }

  lemma WaitsAt(ws: seq<World>, cmds: seq<Command>, n: nat, now: int, scale: int)
    requires Trace(ws, cmds) && n < |cmds| && cmds[n].TickCmd?
    requires Waiting(ws[n], now) && ws[n].scale == scale && now + SIM_TICK_MS * scale < 6100
    ensures Waiting(ws[n + 1], now + SIM_TICK_MS * scale) && ws[n + 1].scale == scale
  {
    StepAt(ws, cmds, n);
    Waits(ws[n], now);
  }

  lemma ClosesAt(ws: seq<World>, cmds: seq<Command>, n: nat, now: int, scale: int)
    requires Trace(ws, cmds) && n < |cmds| && cmds[n].TickCmd?
    requires TooLate(ws[n], now) && ws[n].scale == scale && now + SIM_TICK_MS * scale < 10000
    ensures TooLate(ws[n + 1], now + SIM_TICK_MS * scale) && ws[n + 1].scale == scale
  {
    StepAt(ws, cmds, n);
    Closes(ws[n], now);
  }

  lemma ScaledAt(ws: seq<World>, cmds: seq<Command>, n: nat)
    requires Trace(ws, cmds) && n < |cmds| && cmds[n].Scale? && 1 <= cmds[n].n <= 100
    ensures ws[n + 1] == ws[n].(scale := cmds[n].n)
  {
    StepAt(ws, cmds, n);
  }

  lemma WarnedAt(ws: seq<World>, cmds: seq<Command>)
    requires Trace(ws, cmds) && |cmds| >= 2 && cmds[0] == TrainAt(0, Up) && cmds[1].TickCmd?
    requires ws[0] == Init(LAYOUT, 11)
    ensures Waiting(ws[2], 1100) && ws[2].scale == 11
  {
    StepAt(ws, cmds, 0);
    StepAt(ws, cmds, 1);
    Starts();
    Warns(ws[1]);
  }

  lemma DelayEndsAt(ws: seq<World>, cmds: seq<Command>, n: nat)
    requires Trace(ws, cmds) && n < |cmds| && cmds[n].TickCmd? && Waiting(ws[n], 6000) && ws[n].scale == 11
    ensures TooLate(ws[n + 1], 7100) && ws[n + 1].scale == 11
  {
    StepAt(ws, cmds, n);
    DelayEnds(ws[n]);
  }

  lemma EntersEarlyAt(ws: seq<World>, cmds: seq<Command>, n: nat)
    requires Trace(ws, cmds) && n < |cmds| && cmds[n].TickCmd? && TooLate(ws[n], 9300) && ws[n].scale == 7
    ensures ws[n + 1].cx[0].fault.TrainEarly?
  {
    StepAt(ws, cmds, n);
    EntersEarly(ws[n]);
  }

  /** Two roundings of almost 1100 ms and a train on the second: the gate is 100 ms late. */
  lemma FailingTrace(ws: seq<World>, cmds: seq<Command>)
    requires cmds == FAILING_RUN && Trace(ws, cmds) && ws[0] == Init(LAYOUT, 11)
    ensures ws[14].cx[0].fault.TrainEarly?
  {
    WarnedAt(ws, cmds);
    WaitsAt(ws, cmds, 2, 1100, 11);
    WaitsAt(ws, cmds, 3, 2200, 11);
    WaitsAt(ws, cmds, 4, 3300, 11);
    WaitsAt(ws, cmds, 5, 4400, 11);
    ScaledAt(ws, cmds, 6);
    WaitsAt(ws, cmds, 7, 5500, 5);
    ScaledAt(ws, cmds, 8);
    DelayEndsAt(ws, cmds, 9);
    ClosesAt(ws, cmds, 10, 7100, 11);
    ClosesAt(ws, cmds, 11, 8200, 11);
    ScaledAt(ws, cmds, 12);
    EntersEarlyAt(ws, cmds, 13);
  }

  /** Every run has its trace. */
  lemma TraceOf(w: World, cmds: seq<Command>) returns (ws: seq<World>)
    requires w.Wf()
    ensures Trace(ws, cmds) && ws[0] == w && ws[|cmds|] == Run(w, cmds)
  {
    ws := seq(|cmds| + 1, n requires 0 <= n <= |cmds| => Run(w, cmds[..n]));
    forall n | 0 <= n < |cmds|
      ensures StepTo(ws[n], cmds[n], ws[n + 1])
    {
      assert cmds[..n + 1][..n] == cmds[..n];
    }
    assert cmds[..|cmds|] == cmds;
  }

  lemma FailingRunIsOrdinary(b: int)
    requires b > MAX_SAFE_SCALE
    ensures forall k :: 0 <= k < |FAILING_RUN| ==> Ordinary(FAILING_RUN[k], b)
  {
  }

  lemma UnsafeRun(b: int, cmds: seq<Command>)
    requires b > MAX_SAFE_SCALE && forall k :: 0 <= k < |cmds| ==> Ordinary(cmds[k], b)
    requires !Run(Init(LAYOUT, 11), cmds).cx[0].fault.NoFault?
    ensures !SafeScale(b)
  {
    assert OrdinaryRun(b, LAYOUT, 11, cmds);
  }

  lemma UnsafeAbove(b: int, cmds: seq<Command>)
    requires b > MAX_SAFE_SCALE && cmds == FAILING_RUN
    ensures !SafeScale(b)
  {
    var ws := TraceOf(Init(LAYOUT, 11), cmds);
    FailingTrace(ws, cmds);
    FailingRunIsOrdinary(b);
    UnsafeRun(b, cmds);
  }

  lemma SafeUpTo(b: int)
    requires b <= MAX_SAFE_SCALE
    ensures SafeScale(b)
  {
    forall layout: Layout, scale: int, cmds: seq<Command> | OrdinaryRun(b, layout, scale, cmds)
      ensures forall i :: 0 <= i < NUM_CROSSINGS ==> Run(Init(layout, scale), cmds).cx[i].fault.NoFault?
    {
      OrdinaryTrainsNeverFault(layout, scale, cmds);
    }
  }

  /** Ordinary trains are safe at every time scale up to b exactly when b is at most ten. */
  lemma TenIsTheLimit(b: int)
    requires 1 <= b <= 100
    ensures SafeScale(b) <==> b <= MAX_SAFE_SCALE
  {
    if b <= MAX_SAFE_SCALE {
      SafeUpTo(b);
    } else {
      UnsafeAbove(b, FAILING_RUN);
    }
  }
}
