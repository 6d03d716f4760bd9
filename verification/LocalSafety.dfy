/** Lamps, pedestrians and the railway hold of one intersection, over every run of inputs. */
module LocalSafety {
  import opened LocalSpec

  predicate IsGreen(phase: Phase) {
    phase.NsGreen? || phase.EwGreen?
  }

  predicate IsYellow(phase: Phase) {
    phase.NsYellow? || phase.EwYellow?
  }

  /** The phase belongs to the first Green of the cycle (the initial phase) or the Yellow after it. */
  predicate FirstHalf(initial: Phase, phase: Phase) {
    if initial.NsGreen? then phase.NsGreen? || phase.NsYellow? else phase.EwGreen? || phase.EwYellow?
  }

  function FirstGreen(initial: Phase, p: Plan): int { if initial.NsGreen? then p.ns else p.ew }
  function SecondGreen(initial: Phase, p: Plan): int { if initial.NsGreen? then p.ew else p.ns }
  function FirstExtra(initial: Phase, p: Plan): int { if initial.NsGreen? then p.extraNs else p.extraEw }
  function SecondExtra(initial: Phase, p: Plan): int { if initial.NsGreen? then p.extraEw else p.extraNs }

  /** The cycle plan and the pedestrian time held for the Greens to come. */
  predicate PlanOk(initial: Phase, phase: Phase, p: Plan) {
    && IsGreen(initial)
    && p.valid && p.ns + p.ew == 2 * GREEN_BASE_SEC && GREEN_MIN_SEC <= p.ns <= GREEN_MAX_SEC
    && p.extraNs >= 0 && p.extraEw >= 0
    && (FirstHalf(initial, phase) ==> FirstExtra(initial, p) == 0
                                      && SecondGreen(initial, p) + SecondExtra(initial, p) <= GREEN_MAX_SEC)
    && (!FirstHalf(initial, phase) ==> SecondExtra(initial, p) == 0
                                       && FirstExtra(initial, p) <= GREEN_MAX_SEC - GREEN_MIN_SEC)
  }

  /** Phase timer, lamps and WALK signs agree with the phase. */
  predicate SignalsOk(g: Signals) {
    && (IsGreen(g.phase) ==> 1 <= g.timeRemaining <= g.duration <= GREEN_MAX_SEC)
    && (IsYellow(g.phase) ==> 1 <= g.timeRemaining <= YELLOW_SEC)
    && (g.nsLight, g.ewLight) == PhaseLights(g.phase)
    && (g.nsWalk ==> WalkTime(g, NS))
    && (g.ewWalk ==> WalkTime(g, EW))
  }

  /** The railway flags: pending through a Yellow, then active, then recovering, one at a time. */
  predicate RailwayOk(r: Railway, phase: Phase) {
    && !(r.pending && r.active)
    && 0 <= r.recovery <= RAILWAY_RECOVERY_SEC
    && (r.pending || r.active ==> r.recovery == 0)
    && (r.pending ==> IsYellow(phase))
    && (phase.RailwayHold? <==> r.Holding())
    && (r.waitingForClear ==> r.pending || r.active)
  }

  predicate ControlOk(c: Control) {
    && (c.mode.Fixed? || c.mode.Sensor?)
    && (c.returnMode.Fixed? || c.returnMode.Sensor?)
    && (c.coordPending ==> IsGreen(c.coordPhase))
  }

  predicate Inv(s: State) {
    && PlanOk(s.initialPhase, s.signals.phase, s.plan) && SignalsOk(s.signals)
    && RailwayOk(s.railway, s.signals.phase) && ControlOk(s.control)
    && (s.railway.pending || s.railway.Holding() ==> s.plan.extraNs == 0 && s.plan.extraEw == 0)
  }

  // ----- the invariant, operation by operation -----

  /** The plan for a Green that follows a Yellow leaves room for the time carried over to it. */
  lemma NextPlanOk(s: State, road: Road)
    requires PlanOk(s.initialPhase, s.signals.phase, s.plan)
    requires if road.NS? then s.signals.phase.EwYellow? else s.signals.phase.NsYellow?
    ensures var p := NextPlan(s, road);
            && p == Plan(p.ns, p.ew, true, s.plan.extraNs, s.plan.extraEw)
            && GREEN_MIN_SEC <= PlannedGreen(p, road) <= GREEN_MAX_SEC
            && PlanOk(s.initialPhase, GreenPhase(road), TakeExtra(p, road))
  {
  }

  /** A Green starts with exactly its allocation and the time carried over to it: the clamp never
      discards a transferred second. */
  lemma GreenStartsWhole(s: State, road: Road)
    requires PlanOk(s.initialPhase, s.signals.phase, s.plan)
    requires if road.NS? then s.signals.phase.EwYellow? else s.signals.phase.NsYellow?
    ensures var r := StartGreen(s, road);
            && r.signals.duration == r.signals.timeRemaining
            && r.signals.timeRemaining == (if road.NS? then r.plan.ns + s.plan.extraNs else r.plan.ew + s.plan.extraEw)
            && GREEN_MIN_SEC <= r.signals.timeRemaining <= GREEN_MAX_SEC
  {
    NextPlanOk(s, road);
  }

  lemma TargetInRange(base: Phase, offset: nat)
    requires IsGreen(base)
    ensures var t := JumpTarget(base, offset);
            !t.0.RailwayHold? && 1 <= t.1 <= if IsGreen(t.0) then GREEN_BASE_SEC else YELLOW_SEC
  {
    assert ConfiguredGreen() == GREEN_BASE_SEC;
  }

  lemma JumpOk(s: State, base: Phase, offset: nat)
    requires IsGreen(s.initialPhase) && RailwayOk(s.railway, s.signals.phase) && ControlOk(s.control)
    requires s.railway.Idle() && IsGreen(base)
    ensures Inv(CoordinationJump(s, base, offset))
  {
    TargetInRange(base, offset);
  }

  lemma StartGreenOk(s: State, road: Road)
    requires PlanOk(s.initialPhase, s.signals.phase, s.plan) && RailwayOk(s.railway, s.signals.phase) && ControlOk(s.control)
    requires s.railway.Idle() && if road.NS? then s.signals.phase.EwYellow? else s.signals.phase.NsYellow?
    ensures Inv(StartGreen(s, road))
  {
    NextPlanOk(s, road);
  }

  lemma AdvanceOk(s: State)
    requires PlanOk(s.initialPhase, s.signals.phase, s.plan) && RailwayOk(s.railway, s.signals.phase) && ControlOk(s.control)
    requires s.railway.Idle()
    ensures Inv(AdvancePhase(s))
  {
    if IsYellow(s.signals.phase) {
      if s.control.coordPending {
        JumpOk(s, s.control.coordPhase, s.control.coordOffset);
      } else {
        StartGreenOk(s, if s.signals.phase.EwYellow? then NS else EW);
      }
    }
  }

  lemma RoadTickOk(s: State)
    requires Inv(s) && s.railway.Idle()
    ensures Inv(RoadTick(s))
  {
    var p := UpdatePedestrian(UpdateLights(CountPhase(s)));
    if p.signals.timeRemaining <= 0 {
      AdvanceOk(p);
    }
  }

  /** A fresh plan, as after a reset or a railway recovery. */
  lemma InitialPhaseOk(s: State)
    requires IsGreen(s.initialPhase) && s.plan.extraNs == 0 && s.plan.extraEw == 0 && s.railway.Idle()
    requires s.railway.recovery == 0 && !s.railway.waitingForClear && ControlOk(s.control)
    ensures var r := SetInitialPhase(s);
            && Inv(r) && r.signals.phase == s.initialPhase && r.railway == s.railway
            && r.plan == PlanCycle(s.plan, s.control.mode, s.demand)
            && r.signals.timeRemaining == r.signals.duration == FirstGreen(s.initialPhase, r.plan)
            && FirstGreen(s.initialPhase, r.plan) == GreenTime(s.control.mode, s.demand, InitialRoad(s))
  {
  }

  lemma RecoveryTickOk(s: State, gap: int)
    requires Inv(s) && s.railway.recovery > 0
    ensures Inv(RecoveryTick(s, gap))
  {
    if s.railway.recovery == 1 {
      var p := UpdateLights(s.(railway := s.railway.(recovery := 0),
                               signals := s.signals.(phase := RailwayHold, timeRemaining := 0)));
      InitialPhaseOk(if p.simRunning && !p.railway.connected then p.(railway := p.railway.(nextTrain := gap)) else p);
    }
  }

  lemma RailwayTickOk(s: State)
    requires Inv(s) && (s.railway.pending || s.railway.active)
    ensures Inv(if s.railway.pending then PendingTick(s) else ActiveTick(s))
  {
  }

  lemma TrafficTickOk(s: State, gap: int)
    requires Inv(s)
    ensures Inv(TrafficTick(s, gap))
  {
    if s.railway.Idle() {
      RoadTickOk(s);
    } else if s.railway.recovery > 0 {
      RecoveryTickOk(s, gap);
    } else {
      RailwayTickOk(s);
    }
  }

  lemma TrainOnGreenOk(s: State, waitForClear: bool, eta: int)
    requires Inv(s) && IsGreen(s.signals.phase)
    ensures Inv(StartTrainCommon(s, waitForClear, eta))
  {
  }

  lemma TrainOnHoldOk(s: State, waitForClear: bool, eta: int)
    requires Inv(s) && s.signals.phase.RailwayHold?
    ensures Inv(StartTrainCommon(s, waitForClear, eta))
  {
  }

  lemma StartTrainOk(s: State, waitForClear: bool, eta: int)
    requires Inv(s)
    ensures Inv(StartTrainCommon(s, waitForClear, eta))
  {
    if IsGreen(s.signals.phase) {
      TrainOnGreenOk(s, waitForClear, eta);
    } else if s.signals.phase.RailwayHold? {
      TrainOnHoldOk(s, waitForClear, eta);
    }
  }

  /** Only the data behind the signals changed: clock, mode, car counts and the time to the next train. */
  predicate Background(s: State, r: State) {
    && r.initialPhase == s.initialPhase && r.signals == s.signals && r.plan == s.plan
    && r.railway == s.railway.(nextTrain := r.railway.nextTrain, connected := r.railway.connected)
    && r.demand == s.demand.(nsCars := r.demand.nsCars, ewCars := r.demand.ewCars, manualSensor := r.demand.manualSensor)
    && (ControlOk(s.control) ==> ControlOk(r.control))
  }

  /** The coordination that was asked for, if any. */
  function Coordination(c: Control): (bool, Phase, nat) {
    (c.coordPending, c.coordPhase, c.coordOffset)
  }

  /** The inputs that touch nothing but the background. */
  predicate Unseen(input: Input) {
    || input.SetModeInput? || input.CoordinateInput? || input.SensorInput? || input.SimStart? || input.SimStop?
    || input.SimTime? || input.LinkUp? || input.ToggleMode? || input.ToggleSensorInput?
  }

  lemma UnseenIsBackground(s: State, input: Input)
    requires Unseen(input)
    ensures Background(s, Step(s, input))
    ensures !input.CoordinateInput? ==> Coordination(Step(s, input).control) == Coordination(s.control)
  {
  }

  /** The clock part of a tick, up to the start of a simulated train. */
  function Clocked(s: State): State {
    var p := ApplyTimeSettings(s.(simSeconds := (s.simSeconds + 1) % SECONDS_PER_DAY));
    p.(railway := CountTrain(p.railway))
  }

  /** A simulated train starts on the next tick. */
  predicate TrainStarts(s: State) {
    s.simRunning && TrainDue(CountTrain(s.railway))
  }

  function BeforeTraffic(s: State): State {
    UpdateTemporary(UpdateTimeOfDay(s))
  }

  lemma TemporaryIsBackground(s: State)
    ensures Background(s, UpdateTemporary(s)) && Coordination(UpdateTemporary(s).control) == Coordination(s.control)
  {
  }

  lemma ClockIsBackground(s: State)
    ensures Background(s, Clocked(s)) && Coordination(Clocked(s).control) == Coordination(s.control)
    ensures UpdateTimeOfDay(s) == if TrainStarts(s) then StartTrainCommon(Clocked(s), false, 0)
                                  else if s.simRunning then Clocked(s) else s
  {
  }

  /** What precedes the traffic step in a tick changes the background only, or starts a simulated train. */
  lemma BeforeTrafficParts(s: State)
    ensures var b := BeforeTraffic(s);
            && Coordination(b.control) == Coordination(s.control)
            && Background(s, Clocked(s))
            && Background(if TrainStarts(s) then StartTrainCommon(Clocked(s), false, 0) else s, b)
  {
    ClockIsBackground(s);
    TemporaryIsBackground(UpdateTimeOfDay(s));
  }

  lemma VehiclesAreBackground(s: State, arrival: Arrival)
    ensures Background(s, UpdateVehicles(s, arrival)) && UpdateVehicles(s, arrival).control == s.control
  {
  }

  lemma BackgroundOk(s: State, r: State)
    requires Inv(s) && Background(s, r)
    ensures Inv(r)
  {
  }

  lemma BeforeTrafficOk(s: State)
    requires Inv(s)
    ensures Inv(BeforeTraffic(s))
  {
    BeforeTrafficParts(s);
    BackgroundOk(s, Clocked(s));
    if TrainStarts(s) {
      StartTrainOk(Clocked(s), false, 0);
      BackgroundOk(StartTrainCommon(Clocked(s), false, 0), BeforeTraffic(s));
    } else {
      BackgroundOk(s, BeforeTraffic(s));
    }
  }

  lemma CoreTickOk(s: State, gap: int, arrival: Arrival)
    requires Inv(s)
    ensures Inv(CoreTick(s, gap, arrival))
  {
    BeforeTrafficOk(s);
    var t := TrafficTick(BeforeTraffic(s), gap);
    TrafficTickOk(BeforeTraffic(s), gap);
    VehiclesAreBackground(t, arrival);
    BackgroundOk(t, UpdateVehicles(t, arrival));
  }

  lemma ClearOk(s: State)
    requires Inv(s)
    ensures Inv(ClearTrain(s))
  {
  }

  lemma PreemptOk(s: State, eta: int)
    requires Inv(s)
    ensures Inv(StartTrainMessage(s, eta))
  {
    StartTrainOk(s, true, if eta < 0 then 0 else eta);
  }

  lemma CapOk(s: State, road: Road)
    requires Inv(s)
    ensures Inv(CapGreen(s, road))
  {
  }

  lemma ButtonOk(s: State, road: Road)
    requires Inv(s)
    ensures Inv(AddRequest(s, road))
  {
    CapOk(s.(demand := s.demand.(nsRequest := true)), NS);
    CapOk(s.(demand := s.demand.(ewRequest := true)), EW);
  }

  lemma ResetOk(s: State, gap: int)
    requires Inv(s)
    ensures Inv(ResetDemo(s, gap))
  {
    InitialPhaseOk(ApplyTimeSettings(ResetInputs(s, gap)));
  }

  /** Every input keeps the invariant. */
  lemma StepOk(s: State, input: Input)
    requires Inv(s)
    ensures Inv(Step(s, input))
  {
    match input
    case Tick(gap, arrival) => CoreTickOk(s, gap, arrival);
    case Preempt(eta) => PreemptOk(s, eta);
    case Button(road) => ButtonOk(s, road);
    case DemoTrain => StartTrainOk(s, false, 0);
    case Clear => ClearOk(s);
    case ConsoleClear => ClearOk(s);
    case ConsoleReset(gap) => ResetOk(s, gap);
    case _ =>
      UnseenIsBackground(s, input);
      BackgroundOk(s, Step(s, input));
  }

  lemma InitOk(id: nat, gap: int)
    ensures Inv(Init(id, gap))
  {
  }

  lemma {:induction false} RunOk(s: State, inputs: seq<Input>)
    requires Inv(s)
    ensures Inv(Run(s, inputs))
    decreases |inputs|
  {
    if inputs != [] {
      var n := |inputs| - 1;
      RunOk(s, inputs[..n]);
      StepOk(Run(s, inputs[..n]), inputs[n]);
    }
  }

  // ----- lamps -----

  /** One road is red, and a WALK sign is lit only against a red light, with more than five seconds of Green
      left and the other sign off. */
  predicate SafeSignals(g: Signals) {
    && (g.nsLight.Red? || g.ewLight.Red?)
    && (g.nsWalk ==> g.nsLight.Red? && g.ewLight.Green? && !g.ewWalk && g.timeRemaining > PED_WALK_END_SEC)
    && (g.ewWalk ==> g.ewLight.Red? && g.nsLight.Green? && !g.nsWalk && g.timeRemaining > PED_WALK_END_SEC)
  }

  lemma SignalsAreSafe(g: Signals)
    requires SignalsOk(g)
    ensures SafeSignals(g)
  {
  }

  /** In every run the signals are safe and the failsafe mode is never entered. */
  lemma EveryRunIsSafe(id: nat, gap: int, inputs: seq<Input>)
    ensures var s := Run(Init(id, gap), inputs);
            SafeSignals(s.signals) && !s.control.mode.Failsafe?
  {
    InitOk(id, gap);
    RunOk(Init(id, gap), inputs);
    SignalsAreSafe(Run(Init(id, gap), inputs).signals);
  }

  function Lamp(g: Signals, road: Road): Light {
    if road.NS? then g.nsLight else g.ewLight
  }

  function OtherRoad(road: Road): Road {
    if road.NS? then EW else NS
  }

  function YellowOf(road: Road): Phase {
    if road.NS? then NsYellow else EwYellow
  }

  function Ticks(inputs: seq<Input>): nat {
    if inputs == [] then 0 else Ticks(inputs[..|inputs| - 1]) + if inputs[|inputs| - 1].Tick? then 1 else 0
  }

  predicate NoReset(inputs: seq<Input>) {
    forall i :: 0 <= i < |inputs| ==> !inputs[i].ConsoleReset?
  }

  lemma {:induction false} RunAppend(s: State, a: seq<Input>, b: seq<Input>)
    ensures Run(s, a + b) == Run(Run(s, a), b)
    decreases |b|
  {
    if b == [] {
      assert a + b == a;
    } else {
      var n := |b| - 1;
      assert (a + b)[..|a + b| - 1] == a + b[..n];
      RunAppend(s, a, b[..n]);
    }
  }
}
