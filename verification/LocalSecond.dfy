/** What one second does to every part of an intersection, in seconds and counts. */
module LocalSecond {
  import opened LocalSpec
  import opened LocalSafety
  import opened LocalHold
  import opened LocalCycle
  import opened LocalTrains

  /** From 7 to 9 and from 16 to 18 o'clock. */
  predicate RushHour(seconds: int) {
    25200 <= seconds < 32400 || 57600 <= seconds < 64800
  }

  function ClockMode(seconds: int): Mode {
    if RushHour(seconds) then Fixed else Sensor
  }

  // ----- clock and mode -----

  /** The clock moves while the simulation runs, and sets the mode unless an operator has. A temporary mode
      counts down; its last second gives back the saved mode, or the clock's if that was in force. */
  predicate ModeSecond(s: State, r: State) {
    var c, n := s.control, r.control;
    && r.simRunning == s.simRunning
    && r.simSeconds == (if !s.simRunning then s.simSeconds else if s.simSeconds == 86399 then 0 else s.simSeconds + 1)
    && n.returnMode == c.returnMode && n.returnManual == c.returnManual
    && (c.tempRemaining == 1 ==>
          && n.tempRemaining == 0 && n.manual == c.returnManual
          && n.mode == if c.returnManual then c.returnMode else ClockMode(r.simSeconds))
    && (c.tempRemaining != 1 ==>
          && n.tempRemaining == (if c.tempRemaining > 1 then c.tempRemaining - 1 else c.tempRemaining)
          && n.manual == c.manual
          && n.mode == if s.simRunning && !c.manual then ClockMode(r.simSeconds) else c.mode)
  }

  lemma ClockSecond(s: State)
    requires Inv(s) && 0 <= s.simSeconds < 86400
    ensures ModeSecond(s, BeforeTraffic(s))
  {
    TrainSparesMode(Clocked(s));
    ClockIsBackground(s);
  }

  lemma TrainSparesMode(s: State)
    ensures var r := StartTrainCommon(s, false, 0);
            r.control == s.control && r.simSeconds == s.simSeconds && r.simRunning == s.simRunning && r.demand == s.demand
  {
  }

  /** The traffic step touches neither clock, mode nor cars. */
  predicate Spared(s: State, r: State) {
    && r.simSeconds == s.simSeconds && r.simRunning == s.simRunning
    && r.control == s.control.(coordPending := r.control.coordPending)
    && r.demand == s.demand.(nsRequest := r.demand.nsRequest, ewRequest := r.demand.ewRequest)
  }

  lemma AdvanceSpares(s: State)
    ensures Spared(s, AdvancePhase(s))
  {
  }

  lemma RoadSpares(s: State)
    ensures Spared(s, RoadTick(s))
  {
    AdvanceSpares(UpdatePedestrian(UpdateLights(CountPhase(s))));
  }

  lemma RailwaySpares(s: State, gap: int)
    ensures Spared(s, PendingTick(s)) && Spared(s, ActiveTick(s)) && Spared(s, RecoveryTick(s, gap))
  {
  }

  lemma TrafficSparesMode(s: State, gap: int)
    requires Inv(s)
    ensures Spared(s, TrafficTick(s, gap))
  {
    RoadSpares(s);
    RailwaySpares(s, gap);
  }

  lemma EverySecondSetsMode(s: State, gap: int, arrival: Arrival)
    requires Inv(s) && 0 <= s.simSeconds < 86400
    ensures ModeSecond(s, CoreTick(s, gap, arrival))
  {
    BeforeTrafficOk(s);
    ClockSecond(s);
    TrafficSparesMode(BeforeTraffic(s), gap);
  }

  // ----- cars -----

  /** Cars of a road after one second: with `green` one leaves, two in the rush hour, and at most one arrives
      while there are fewer than twelve. */
  predicate CarsSecond(before: int, after: int, green: bool, rush: bool, arrives: bool) {
    var left := if !green then before else if before >= (if rush then 2 else 1) then before - (if rush then 2 else 1) else 0;
    after == if arrives && left < 12 then left + 1 else left
  }

  /** Cars move while the simulation runs; they leave on a Green that no train holds, and arrive unless the
      sensors are set by hand. */
  predicate TrafficSecond(s: State, r: State, arrival: Arrival) {
    var open, rush, arriving := r.railway.Idle(), RushHour(r.simSeconds), !s.demand.manualSensor;
    && r.demand.manualSensor == s.demand.manualSensor
    && (!s.simRunning ==> r.demand.nsCars == s.demand.nsCars && r.demand.ewCars == s.demand.ewCars)
    && (s.simRunning ==>
          && CarsSecond(s.demand.nsCars, r.demand.nsCars, open && r.signals.nsLight.Green?, rush,
                        arriving && (arrival.NsCar? || arrival.BothCars?))
          && CarsSecond(s.demand.ewCars, r.demand.ewCars, open && r.signals.ewLight.Green?, rush,
                        arriving && (arrival.EwCar? || arrival.BothCars?)))
  }

  lemma CarsMove(s: State, arrival: Arrival)
    requires Inv(s)
    ensures TrafficSecond(s, UpdateVehicles(s, arrival), arrival)
  {
  }

  lemma ClockSparesCars(s: State)
    ensures BeforeTraffic(s).demand == s.demand && BeforeTraffic(s).simRunning == s.simRunning
  {
  }

  lemma EverySecondMovesCars(s: State, gap: int, arrival: Arrival)
    requires Inv(s)
    ensures TrafficSecond(s, CoreTick(s, gap, arrival), arrival)
  {
    BeforeTrafficOk(s);
    ClockSparesCars(s);
    TrafficSparesMode(BeforeTraffic(s), gap);
    TrafficTickOk(BeforeTraffic(s), gap);
    CarsMove(TrafficTick(BeforeTraffic(s), gap), arrival);
  }

  // ----- the lamps of an idle road -----

  /** A new plan shares 40 seconds: NS gets what is wanted unless that leaves no room, within 30 seconds of
      Green for each road, for the time carried over; then it gets what is nearest. */
  ghost predicate Shared(p: Plan, extraNs: int, extraEw: int, wanted: int) {
    && p.valid && p.ns + p.ew == 40 && 10 <= p.ns <= 30
    && p.ns + extraNs <= 30 && p.ew + extraEw <= 30
    && forall ns: int | Fits(ns, extraNs, extraEw) :: Distance(p.ns, wanted) <= Distance(ns, wanted)
  }

  predicate Fits(ns: int, extraNs: int, extraEw: int) {
    10 <= ns <= 30 && ns + extraNs <= 30 && (40 - ns) + extraEw <= 30
  }

  function Distance(a: int, b: int): int {
    if a <= b then b - a else a - b
  }

  /** The end of a Yellow: the other road has Green for its planned and its carried seconds. The initial phase
      starts a new plan. */
  ghost predicate NextGreenStarts(s: State, r: State) {
    var ns := s.signals.phase.EwYellow?;
    var p := s.plan;
    && r.signals.phase == (if ns then NsGreen else EwGreen)
    && r.signals.duration == r.signals.timeRemaining
    && r.signals.timeRemaining == (if ns then r.plan.ns + p.extraNs else r.plan.ew + p.extraEw)
    && r.plan.extraNs == (if ns then 0 else p.extraNs) && r.plan.extraEw == (if ns then p.extraEw else 0)
    && if r.signals.phase == s.initialPhase then Shared(r.plan, p.extraNs, p.extraEw, Wanted(r.control.mode, s.demand))
       else r.plan.ns == p.ns && r.plan.ew == p.ew && r.plan.valid
  }

  /** A running Green or Yellow counts down, a Green ends in two seconds of Yellow, and a Yellow in the other
      road's Green or in the coordination asked for. */
  ghost predicate LampSecond(s: State, r: State) {
    var g, n := s.signals, r.signals;
    && (g.timeRemaining > 1 ==>
          n.phase == g.phase && n.timeRemaining == g.timeRemaining - 1 && n.duration == g.duration && r.plan == s.plan)
    && (g.timeRemaining == 1 && IsGreen(g.phase) ==>
          n.phase == (if g.phase.NsGreen? then NsYellow else EwYellow) && n.timeRemaining == n.duration == 2 && r.plan == s.plan)
    && (g.timeRemaining == 1 && IsYellow(g.phase) && !s.control.coordPending ==> NextGreenStarts(s, r))
    && (g.timeRemaining == 1 && IsYellow(g.phase) && s.control.coordPending ==>
          Aligned(r, s.control.coordPhase, s.control.coordOffset))
    && r.control.coordPending == (s.control.coordPending && !(g.timeRemaining == 1 && IsYellow(g.phase)))
    && r.control.coordPhase == s.control.coordPhase && r.control.coordOffset == s.control.coordOffset
  }

  /** WALK is lit in the first Green seconds of the other road, after one and with more than five to go, and
      answers the request. */
  predicate WalkSecond(s: State, r: State) {
    var n := r.signals;
    var inTime := n.duration - n.timeRemaining >= 1 && n.timeRemaining > 5;
    && (n.nsWalk <==> n.phase.EwGreen? && inTime) && (n.ewWalk <==> n.phase.NsGreen? && inTime)
    && (r.demand.nsRequest <==> s.demand.nsRequest && !n.nsWalk)
    && (r.demand.ewRequest <==> s.demand.ewRequest && !n.ewWalk)
  }

  lemma NearestPlan(s: State)
    requires PlanOk(s.initialPhase, s.signals.phase, s.plan) && IsYellow(s.signals.phase)
    requires !FirstHalf(s.initialPhase, s.signals.phase)
    ensures var p := PlanCycle(s.plan, s.control.mode, s.demand);
            Shared(p, s.plan.extraNs, s.plan.extraEw, Wanted(s.control.mode, s.demand))
  {
  }

  lemma YellowEnds(s: State, p: State)
    requires Inv(s) && Steady(s) && IsYellow(s.signals.phase) && s.signals.timeRemaining == 1
    requires p == UpdatePedestrian(UpdateLights(CountPhase(s)))
    ensures NextGreenStarts(s, AdvancePhase(p)) && AdvancePhase(p).control == s.control
  {
    var road := if s.signals.phase.EwYellow? then NS else EW;
    SameStart(s, p, road);
    GreenStartsWhole(s, road);
    NextPlanOk(s, road);
    if !FirstHalf(s.initialPhase, s.signals.phase) {
      NearestPlan(s);
    }
  }

  lemma RoadLamps(s: State)
    requires Inv(s) && s.railway.Idle()
    ensures LampSecond(s, RoadTick(s))
  {
    var p := UpdatePedestrian(UpdateLights(CountPhase(s)));
    if s.signals.timeRemaining == 1 && IsYellow(s.signals.phase) {
      if s.control.coordPending {
        JumpAligned(p, s.control.coordPhase, s.control.coordOffset);
      } else {
        YellowEnds(s, p);
      }
    }
  }

  lemma RoadWalk(s: State)
    requires Inv(s) && s.railway.Idle()
    ensures WalkSecond(s, RoadTick(s))
  {
  }

  lemma LampsBehind(s: State, b: State, t: State, r: State)
    requires Background(s, b) && b.demand == s.demand && Coordination(b.control) == Coordination(s.control)
    requires LampSecond(b, t) && WalkSecond(b, t) && Background(t, r) && r.control == t.control
    ensures LampSecond(s, r) && WalkSecond(s, r)
  {
  }

  /** One second of a road without a train. */
  lemma EverySecondOnTheRoad(s: State, gap: int, arrival: Arrival)
    requires Inv(s) && s.railway.Idle() && !DueNow(s)
    ensures LampSecond(s, CoreTick(s, gap, arrival)) && WalkSecond(s, CoreTick(s, gap, arrival))
  {
    NoTrainBeforeItsTime(s, gap, arrival);
    IdleTick(s, gap, arrival);
    ClockSparesCars(s);
    RoadLamps(BeforeTraffic(s));
    RoadWalk(BeforeTraffic(s));
    LampsBehind(s, BeforeTraffic(s), RoadTick(BeforeTraffic(s)), CoreTick(s, gap, arrival));
  }

  // ----- a road held for Train -----

  /** A second of waiting for CLEAR: the Yellow runs out, then both roads are held and the display counts the
      announced seconds down to zero. */
  predicate HeldSecond(s: State, r: State) {
    && r.railway.waitingForClear && r.plan == s.plan
    && r.demand.nsRequest == s.demand.nsRequest && r.demand.ewRequest == s.demand.ewRequest
    && (s.railway.pending && s.signals.timeRemaining > 1 ==>
          r.railway.pending && r.signals == s.signals.(timeRemaining := s.signals.timeRemaining - 1))
    && (s.railway.pending && s.signals.timeRemaining == 1 ==>
          r.railway.active && r.signals == Signals(RailwayHold, 0, 0, Red, Red, false, false))
    && (s.railway.pending ==> r.railway.passRemaining == s.railway.passRemaining)
    && (s.railway.active ==>
          && r.railway.active && r.signals.timeRemaining == r.railway.passRemaining
          && r.railway.passRemaining == if s.railway.passRemaining > 0 then s.railway.passRemaining - 1 else s.railway.passRemaining)
  }

  lemma HeldTraffic(s: State, gap: int)
    requires Inv(s) && s.railway.waitingForClear
    ensures HeldSecond(s, TrafficTick(s, gap))
  {
  }

  lemma EverySecondOfAHold(s: State, gap: int, arrival: Arrival)
    requires Inv(s) && s.railway.waitingForClear
    ensures HeldSecond(s, CoreTick(s, gap, arrival))
  {
    BeforeTrafficParts(s);
    BeforeTrafficOk(s);
    ClockSparesCars(s);
    HeldTraffic(BeforeTraffic(s), gap);
    VehiclesAreBackground(TrafficTick(BeforeTraffic(s), gap), arrival);
  }

  // ----- the clock of every run -----

  predicate ClockOk(s: State) {
    0 <= s.simSeconds < 86400
  }

  lemma ClockStep(s: State, input: Input)
    requires Inv(s) && ClockOk(s)
    ensures ClockOk(Step(s, input))
  {
    match input
    case Tick(gap, arrival) => EverySecondSetsMode(s, gap, arrival);
    case Preempt(eta) =>
    case Button(road) =>
    case DemoTrain =>
    case Clear =>
    case ConsoleClear =>
    case ConsoleReset(gap) =>
    case _ =>
  }

  lemma {:induction false} ClockRun(id: nat, gap: int, inputs: seq<Input>)
    ensures ClockOk(Run(Init(id, gap), inputs))
    decreases |inputs|
  {
    if inputs != [] {
      var k := |inputs| - 1;
      ClockRun(id, gap, inputs[..k]);
      InitOk(id, gap);
      RunOk(Init(id, gap), inputs[..k]);
      ClockStep(Run(Init(id, gap), inputs[..k]), inputs[k]);
    }
  }

  /** What one second does. */
  ghost predicate SecondDone(s: State, r: State, gap: int, arrival: Arrival)
    requires SignalsOk(s.signals)
  {
    && ModeSecond(s, r) && TrafficSecond(s, r, arrival)
    && (s.railway.Idle() && !DueNow(s) ==> LampSecond(s, r) && WalkSecond(s, r))
    && (s.railway.Idle() && DueNow(s) ==> Stage(r, YellowBefore(s.signals), 1))
    && (s.railway.waitingForClear ==> HeldSecond(s, r))
    && (forall yellow: nat, n: nat :: n < yellow + 11 && Stage(s, yellow, n) ==> Stage(r, yellow, n + 1))
    && (Recovering(s, 1) ==> NewCycle(s, r, gap))
  }

  lemma SecondActs(s: State, gap: int, arrival: Arrival)
    requires Inv(s) && ClockOk(s)
    ensures SecondDone(s, CoreTick(s, gap, arrival), gap, arrival)
  {
    EverySecondSetsMode(s, gap, arrival);
    EverySecondMovesCars(s, gap, arrival);
    if s.railway.Idle() {
      if DueNow(s) {
        TrainTick(s, gap, arrival);
      } else {
        EverySecondOnTheRoad(s, gap, arrival);
      }
    }
    if s.railway.waitingForClear {
      EverySecondOfAHold(s, gap, arrival);
    }
    forall yellow: nat, n: nat | n < yellow + 11 && Stage(s, yellow, n)
      ensures Stage(CoreTick(s, gap, arrival), yellow, n + 1)
    {
      TickStage(s, gap, arrival, yellow, n);
    }
    if Recovering(s, 1) {
      LastTick(s, gap, arrival);
    }
  }

  /** One second in every reachable state. */
  lemma EverySecond(id: nat, gap: int, inputs: seq<Input>, next: int, arrival: Arrival)
    ensures var s := Run(Init(id, gap), inputs);
            Inv(s) && ClockOk(s) && SecondDone(s, Step(s, Tick(next, arrival)), next, arrival)
  {
    InitOk(id, gap);
    RunOk(Init(id, gap), inputs);
    ClockRun(id, gap, inputs);
    SecondActs(Run(Init(id, gap), inputs), next, arrival);
  }
}
