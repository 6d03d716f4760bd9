/** The three crossings and their event simulator as a value, with one function for each
    operation of crossing.c and rail_sim.c. Class RailSim.Simulator refines these functions. */
module RailSpec {
  import opened Crossing

  const NUM_CROSSINGS := 3
  const NO_CROSSING := NUM_CROSSINGS
  const MAX_PENDING_EVENTS := 64
  const NUM_TIMERS := 5
  const TIMER_EVENT_RESERVE := NUM_CROSSINGS * NUM_TIMERS
  const SIM_TICK_MS := 100

  /** Track layout in use: travel times, train length and warning, in seconds. */
  datatype Layout = Layout(distance01: int, distance12: int, trainLength: int, warning: int)
  {
    predicate Accepted() {
      && 5 <= distance01 <= 25 && distance01 % 5 == 0
      && 5 <= distance12 <= 25 && distance12 % 5 == 0
      && 1 <= trainLength <= TRAIN_TIMEOUT_SEC - 1
      && GATE_CLOSE_DELAY_SEC + GATE_MOVE_SEC + 2 <= warning <= 120
    }
  }

  /** A configured value is used when it is in range, and replaced by the default otherwise. */
  function ConfigValue(value: int, min: int, max: int, fallback: int): int {
    if min <= value <= max then value else fallback
  }

  function ApplyConfig(units01: int, units12: int, length: int, warning: int): (l: Layout)
    ensures l.Accepted()
    ensures if 1 <= units01 <= 5 then l.distance01 == 5 * units01 else l.distance01 == 10
    ensures if 1 <= units12 <= 5 then l.distance12 == 5 * units12 else l.distance12 == 10
    ensures if 1 <= length < TRAIN_TIMEOUT_SEC then l.trainLength == length else l.trainLength == 5
    ensures if 10 <= warning <= 120 then l.warning == warning else l.warning == 10
  {
    Layout(5 * ConfigValue(units01, 1, 5, 2), 5 * ConfigValue(units12, 1, 5, 2),
           ConfigValue(length, 1, TRAIN_TIMEOUT_SEC - 1, 5), ConfigValue(warning, 10, 120, 10))
  }

  /** One entry of the pending-event array. A slot that was never used has no crossing. */
  datatype Slot = Slot(at: int, cx: nat, signal: Signal, active: bool)

  /** What the crossing callbacks hand to the outbox. */
  datatype Notice = Preempt(cx: nat) | Clear(cx: nat) | FaultAlert(cx: nat, fault: Fault)

  datatype World = World(cx: seq<Crossing>, slots: seq<Slot>, gates: seq<int>, now: int, scale: int,
                         layout: Layout, sent: seq<Notice>)
  {
    predicate Wf() {
      && |cx| == NUM_CROSSINGS
      && |slots| == MAX_PENDING_EVENTS
      && |gates| == NUM_CROSSINGS
    }

    function Put(i: nat, c: Crossing): (w: World)
      requires Wf() && i < NUM_CROSSINGS
      ensures w.Wf()
    {
      this.(cx := cx[i := c])
    }

    function Send(n: Notice): World {
      this.(sent := sent + [n])
    }
  }

  function Init(layout: Layout, scale: int): (w: World)
    ensures w.Wf()
  {
    World(seq(NUM_CROSSINGS, _ => Initial), seq(MAX_PENDING_EVENTS, _ => Slot(0, NO_CROSSING, ResetFault, false)),
          seq(NUM_CROSSINGS, _ => -1), 0, if scale > 0 then scale else 1, layout, [])
  }

  // ----- the event array -----

  /** The first free slot at or after k, or the array length. */
  function FirstFree(slots: seq<Slot>, k: nat): (r: nat)
    requires k <= |slots|
    ensures k <= r <= |slots|
    ensures r < |slots| ==> !slots[r].active
    ensures forall s :: k <= s < r ==> slots[s].active
    decreases |slots| - k
  {
    if k == |slots| || !slots[k].active then k else FirstFree(slots, k + 1)
  }

  predicate HasFree(slots: seq<Slot>) {
    FirstFree(slots, 0) < |slots|
  }

  /** The array with a new entry in its first free slot; a full array is unchanged. */
  function PutSlot(slots: seq<Slot>, e: Slot): (r: seq<Slot>)
    ensures |r| == |slots|
  {
    var k := FirstFree(slots, 0);
    if k < |slots| then slots[k := e] else slots
  }

  function QueueEvent(w: World, i: nat, signal: Signal, delaySec: int): (r: World)
    requires w.Wf() && i < NUM_CROSSINGS
    ensures r.Wf()
  {
    w.(slots := PutSlot(w.slots, Slot(w.now + 1000 * delaySec, i, signal, true)))
  }

  predicate IsTimer(s: Slot, i: nat, t: Timer) {
    s.active && s.cx == i && s.signal.TimerFired? && s.signal.timer == t
  }

  function StartTimer(w: World, i: nat, t: Timer, seconds: int): (r: World)
    requires w.Wf() && i < NUM_CROSSINGS
    ensures r.Wf()
  {
    QueueEvent(w, i, TimerFired(t, w.cx[i].generations.Get(t)), seconds)
  }

  /** The array without the queued events of one timer of one crossing. */
  function FreeTimer(slots: seq<Slot>, i: nat, t: Timer): (r: seq<Slot>)
    ensures |r| == |slots|
    ensures forall s :: 0 <= s < |slots| ==>
              r[s] == if IsTimer(slots[s], i, t) then slots[s].(active := false) else slots[s]
  {
    seq(|slots|, s requires 0 <= s < |slots| =>
      if IsTimer(slots[s], i, t) then slots[s].(active := false) else slots[s])
  }

  function CancelTimer(w: World, i: nat, t: Timer): (r: World)
    requires w.Wf() && i < NUM_CROSSINGS
    ensures r.Wf()
  {
    w.(slots := FreeTimer(w.slots, i, t))
  }

  /** The commanded movement will be complete after GATE_MOVE_SEC. */
  function GateCommand(w: World, i: nat): (r: World)
    requires w.Wf() && i < NUM_CROSSINGS
    ensures r.Wf()
  {
    w.(gates := w.gates[i := w.now + 1000 * GATE_MOVE_SEC])
  }

  // ----- the crossing logic -----

  /** Advances the generation of a timer and frees its queued event. */
  function DropTimer(w: World, i: nat, t: Timer): (r: World)
    requires w.Wf() && i < NUM_CROSSINGS
    ensures r.Wf()
  {
    CancelTimer(w.Put(i, w.cx[i].Bump(t)), i, t)
  }

  /** The first n timers of ALL_TIMERS dropped, in order. */
  function DropTimers(w: World, i: nat, n: nat): (r: World)
    requires w.Wf() && i < NUM_CROSSINGS && n <= |ALL_TIMERS|
    ensures r.Wf()
  {
    if n == 0 then w else DropTimer(DropTimers(w, i, n - 1), i, ALL_TIMERS[n - 1])
  }

  function EnterFault(w: World, i: nat, f: Fault): (r: World)
    requires w.Wf() && i < NUM_CROSSINGS
    ensures r.Wf()
  {
    var w1 := w.Put(i, w.cx[i].(fault := f, gate := GateFault, closeDelayPending := false, flashOn := true));
    DropTimers(w1, i, |ALL_TIMERS|).Send(FaultAlert(i, f))
  }

  function StartGateClose(w: World, i: nat): (r: World)
    requires w.Wf() && i < NUM_CROSSINGS
    ensures r.Wf()
  {
    if w.cx[i].gate.GateOpen? || w.cx[i].gate.GateOpening? then
      var w1 := if w.cx[i].gate.GateOpening? then DropTimer(w, i, OpenTimeout) else w;
      var w2 := w1.Put(i, w1.cx[i].(gate := GateClosing, closeDelayPending := false));
      var w3 := GateCommand(w2, i);
      StartTimer(w3.Put(i, w3.cx[i].Bump(CloseTimeout)), i, CloseTimeout, GATE_CLOSE_TIMEOUT_SEC)
    else w
  }

  function StartGateOpen(w: World, i: nat): (r: World)
    requires w.Wf() && i < NUM_CROSSINGS
    ensures r.Wf()
  {
    if w.cx[i].gate.GateClosed? || w.cx[i].gate.GateClosing? then
      var w1 := w.Put(i, w.cx[i].(gate := GateOpening, closeDelayPending := false).Bump(CloseDelay).Bump(CloseTimeout));
      var w2 := CancelTimer(CancelTimer(w1, i, CloseDelay), i, CloseTimeout);
      var w3 := GateCommand(w2, i);
      StartTimer(w3.Put(i, w3.cx[i].Bump(OpenTimeout)), i, OpenTimeout, GATE_OPEN_TIMEOUT_SEC)
    else w
  }

  function OnApproach(w: World, i: nat, d: Direction): (r: World)
    requires w.Wf() && i < NUM_CROSSINGS
    ensures r.Wf()
  {
    if w.cx[i].TrackOf(d).NoTrain? then
      var w1 := w.Put(i, w.cx[i].SetTrack(d, Approaching).(flashOn := true)).Send(Preempt(i));
      var c := w1.cx[i];
      if c.gate.GateOpen? && !c.closeDelayPending then
        StartTimer(w1.Put(i, c.(closeDelayPending := true).Bump(CloseDelay)), i, CloseDelay, GATE_CLOSE_DELAY_SEC)
      else if c.gate.GateOpening? then StartGateClose(w1, i)
      else w1
    else w
  }

  function OnEnter(w: World, i: nat, d: Direction): (r: World)
    requires w.Wf() && i < NUM_CROSSINGS
    ensures r.Wf()
  {
    if w.cx[i].TrackOf(d).Approaching? then
      if !w.cx[i].gate.GateClosed? then EnterFault(w, i, TrainEarly)
      else
        var t := TrainTimeoutTimer(d);
        StartTimer(w.Put(i, w.cx[i].SetTrack(d, OnCrossing).Bump(t)), i, t, TRAIN_TIMEOUT_SEC)
    else w
  }

  function OnExit(w: World, i: nat, d: Direction): (r: World)
    requires w.Wf() && i < NUM_CROSSINGS
    ensures r.Wf()
  {
    if w.cx[i].TrackOf(d).OnCrossing? then
      var w1 := DropTimer(w.Put(i, w.cx[i].SetTrack(d, Cleared)), i, TrainTimeoutTimer(d));
      if w1.cx[i].BothTracksClear() then StartGateOpen(w1.Put(i, w1.cx[i].ReleaseCleared()), i) else w1
    else w
  }

  function OnGateClosed(w: World, i: nat): (r: World)
    requires w.Wf() && i < NUM_CROSSINGS
    ensures r.Wf()
  {
    if w.cx[i].gate.GateClosing? then
      var w1 := DropTimer(w.Put(i, w.cx[i].(gate := GateClosed)), i, CloseTimeout);
      if w1.cx[i].resetPending then StartGateOpen(w1.Put(i, w1.cx[i].(resetPending := false)), i) else w1
    else w
  }

  function OnGateOpened(w: World, i: nat): (r: World)
    requires w.Wf() && i < NUM_CROSSINGS
    ensures r.Wf()
  {
    if w.cx[i].gate.GateOpening? then
      var w1 := DropTimer(w.Put(i, w.cx[i].(gate := GateOpen)), i, OpenTimeout);
      if !w1.cx[i].BothTracksClear() then StartGateClose(w1, i)
      else w1.Put(i, w1.cx[i].(flashOn := false)).Send(Clear(i))
    else w
  }

  function OnTimer(w: World, i: nat, t: Timer, generation: nat): (r: World)
    requires w.Wf() && i < NUM_CROSSINGS
    ensures r.Wf()
  {
    if generation != w.cx[i].generations.Get(t) then w
    else match t
      case CloseDelay => StartGateClose(w.Put(i, w.cx[i].(closeDelayPending := false)), i)
      case CloseTimeout => EnterFault(w, i, GateCloseTimeout)
      case OpenTimeout => EnterFault(w, i, GateOpenTimeout)
      case _ => EnterFault(w, i, TrainTimeout)
  }

  function OnReset(w: World, i: nat): (r: World)
    requires w.Wf() && i < NUM_CROSSINGS
    ensures r.Wf()
  {
    if !w.cx[i].fault.NoFault? then
      var w1 := w.Put(i, w.cx[i].(fault := NoFault, up := NoTrain, down := NoTrain,
                                  gate := GateClosing, resetPending := true));
      var w2 := GateCommand(w1, i);
      StartTimer(w2.Put(i, w2.cx[i].Bump(CloseTimeout)), i, CloseTimeout, GATE_CLOSE_TIMEOUT_SEC)
    else w
  }

  /** crossing_handle_event: in a fault only a reset is accepted. */
  function Handle(w: World, i: nat, signal: Signal): (r: World)
    requires w.Wf() && i < NUM_CROSSINGS
    ensures r.Wf()
  {
    if !w.cx[i].fault.NoFault? && !signal.ResetFault? then w
    else match signal
      case TrainApproach(d) => OnApproach(w, i, d)
      case TrainEnter(d) => OnEnter(w, i, d)
      case TrainExit(d) => OnExit(w, i, d)
      case GateHasClosed => OnGateClosed(w, i)
      case GateHasOpened => OnGateOpened(w, i)
      case TimerFired(t, g) => OnTimer(w, i, t, g)
      case InjectFault => EnterFault(w, i, Injected)
      case ResetFault => OnReset(w, i)
  }

  // ----- the tick -----

  /** The completion of one gate movement, when it is due. */
  function FireGate(w: World, i: nat): (r: World)
    requires w.Wf() && i < NUM_CROSSINGS
    ensures r.Wf()
  {
    if 0 <= w.gates[i] <= w.now then
      var w1 := w.(gates := w.gates[i := -1]);
      if w1.cx[i].gate.GateClosing? then Handle(w1, i, GateHasClosed)
      else if w1.cx[i].gate.GateOpening? then Handle(w1, i, GateHasOpened)
      else w1
    else w
  }

  function FireGates(w: World, n: nat): (r: World)
    requires w.Wf() && n <= NUM_CROSSINGS
    ensures r.Wf()
  {
    if n == 0 then w else FireGate(FireGates(w, n - 1), n - 1)
  }

  function Deactivate(w: World, s: nat): (r: World)
    requires w.Wf() && s < MAX_PENDING_EVENTS
    ensures r.Wf()
  {
    w.(slots := w.slots[s := w.slots[s].(active := false)])
  }

  predicate SlotDue(w: World, s: nat)
    requires w.Wf() && s < MAX_PENDING_EVENTS
  {
    w.slots[s].active && w.slots[s].at <= w.now
  }

  /** Delivery of one slot, when it is due. The slot stays in use while its handler runs. */
  function DeliverSlot(w: World, s: nat): (r: World)
    requires w.Wf() && s < MAX_PENDING_EVENTS
    ensures r.Wf()
  {
    if SlotDue(w, s) then
      var h := if w.slots[s].cx < NUM_CROSSINGS then Handle(w, w.slots[s].cx, w.slots[s].signal) else w;
      Deactivate(h, s)
    else w
  }

  function Deliver(w: World, n: nat): (r: World)
    requires w.Wf() && n <= MAX_PENDING_EVENTS
    ensures r.Wf()
  {
    if n == 0 then w else DeliverSlot(Deliver(w, n - 1), n - 1)
  }

  function Advance(w: World): (r: World)
    requires w.Wf()
    ensures r.Wf()
  {
    w.(now := w.now + SIM_TICK_MS * w.scale)
  }

  /** One simulator tick: time advances, gate completions come first, then due slots in index order. */
  function Tick(w: World): (r: World)
    requires w.Wf()
    ensures r.Wf()
  {
    Deliver(FireGates(Advance(w), NUM_CROSSINGS), MAX_PENDING_EVENTS)
  }

  // ----- trains -----

  predicate IsTrainSlot(s: Slot, i: nat, d: Direction) {
    && s.active && s.cx == i
    && (s.signal.TrainApproach? || s.signal.TrainEnter? || s.signal.TrainExit?) && s.signal.dir == d
  }

  predicate TrainPending(w: World, i: nat, d: Direction) {
    exists s :: 0 <= s < |w.slots| && IsTrainSlot(w.slots[s], i, d)
  }

  /** Number of free slots among the first n. */
  function FreeSlots(slots: seq<Slot>, n: nat): nat
    requires n <= |slots|
  {
    if n == 0 then 0 else FreeSlots(slots, n - 1) + (if slots[n - 1].active then 0 else 1)
  }

  predicate HasRoom(w: World, events: nat) {
    FreeSlots(w.slots, |w.slots|) >= events + TIMER_EVENT_RESERVE
  }

  /** The array with the events of one train at one crossing, its warning due at warnAt. */
  function TrainSlots(slots: seq<Slot>, l: Layout, i: nat, d: Direction, warnAt: int, noExit: bool): (r: seq<Slot>)
    ensures |r| == |slots|
  {
    var enter := warnAt + 1000 * l.warning;
    var warned := PutSlot(slots, Slot(warnAt, i, TrainApproach(d), true));
    var entered := PutSlot(warned, Slot(enter, i, TrainEnter(d), true));
    if noExit then entered else PutSlot(entered, Slot(enter + 1000 * l.trainLength, i, TrainExit(d), true))
  }

  function QueueTrain(w: World, i: nat, d: Direction, warn: int, noExit: bool): (r: World)
    requires w.Wf() && i < NUM_CROSSINGS
    ensures r.Wf()
  {
    w.(slots := TrainSlots(w.slots, w.layout, i, d, w.now + 1000 * warn, noExit))
  }

  /** Seconds from the start of a line train until crossing i is warned. */
  function WarnDelay(l: Layout, d: Direction, i: nat): int
    requires i < NUM_CROSSINGS
  {
    match d
    case Up => (if i < 2 then l.distance12 else 0) + (if i < 1 then l.distance01 else 0)
    case Down => (if i > 0 then l.distance01 else 0) + (if i > 1 then l.distance12 else 0)
  }

  /** Crossing visited at a given step of a line train: P3, P2, P1 or P1, P2, P3. */
  function Visit(d: Direction, step: nat): nat
    requires step < NUM_CROSSINGS
  {
    if d.Up? then NUM_CROSSINGS - 1 - step else step
  }

  /** A train along the whole line, queued for its first n crossings. */
  function QueueLine(w: World, d: Direction, n: nat): (r: World)
    requires w.Wf() && n <= NUM_CROSSINGS
    ensures r.Wf() && r == w.(slots := r.slots)
  {
    if n == 0 then w
    else
      var i := Visit(d, n - 1);
      QueueTrain(QueueLine(w, d, n - 1), i, d, WarnDelay(w.layout, d, i), false)
  }

  predicate LineFree(w: World, d: Direction) {
    forall i: nat | i < NUM_CROSSINGS :: !TrainPending(w, i, d)
  }

  // ----- commands -----

  datatype Command =
    | TickCmd
    | TrainLine(dir: Direction)
    | TrainBoth
    | TrainAt(cx: nat, dir: Direction)
    | NoExit(cx: nat, dir: Direction)
    | InjectCmd(cx: nat)
    | ResetCmd(cx: nat)
    | Scale(n: int)

  function Step(w: World, c: Command): (r: World)
    requires w.Wf()
    ensures r.Wf()
  {
    match c
    case TickCmd => Tick(w)
    case TrainLine(d) =>
      if LineFree(w, d) && HasRoom(w, 3 * NUM_CROSSINGS) then QueueLine(w, d, NUM_CROSSINGS) else w
    case TrainBoth =>
      if LineFree(w, Up) && LineFree(w, Down) && HasRoom(w, 6 * NUM_CROSSINGS)
      then QueueLine(QueueLine(w, Up, NUM_CROSSINGS), Down, NUM_CROSSINGS) else w
    case TrainAt(i, d) =>
      if i < NUM_CROSSINGS && !TrainPending(w, i, d) && HasRoom(w, 3) then QueueTrain(w, i, d, 0, false) else w
    case NoExit(i, d) =>
      if i < NUM_CROSSINGS && !TrainPending(w, i, d) && HasRoom(w, 2) then QueueTrain(w, i, d, 0, true) else w
    case InjectCmd(i) => if i < NUM_CROSSINGS then Handle(w, i, InjectFault) else w
    case ResetCmd(i) => if i < NUM_CROSSINGS then Handle(w, i, ResetFault) else w
    case Scale(n) => if 1 <= n <= 100 then w.(scale := n) else w
  }

  /** The world after a run of commands. */
  function Run(w: World, cmds: seq<Command>): (r: World)
    requires w.Wf()
    ensures r.Wf()
    decreases |cmds|
  {
    if cmds == [] then w else Step(Run(w, cmds[..|cmds| - 1]), cmds[|cmds| - 1])
  }
}
