/** One road intersection: vehicle phases, pedestrian service, railway hold and coordination. One
    function for each operation of local_traffic.c, local_pedestrian.c and local_simulation.c; class
    LocalCore.Controller refines them. */
module LocalSpec {

  const GREEN_BASE_SEC := 20
  const GREEN_MIN_SEC := 10
  const GREEN_MAX_SEC := 30
  const YELLOW_SEC := 2
  const PED_WALK_START_SEC := 1
  const PED_WALK_END_SEC := 5
  const PED_GREEN_CAP_SEC := 10
  const SENSOR_CAR_THRESHOLD := 5
  const SENSOR_ADJUST_SEC := 5
  const MAX_SENSOR_CARS := 12
  const DEMO_HIGH_CAR_COUNT := 6
  const RAILWAY_RECOVERY_SEC := 2
  const TRAIN_PASSING_SECONDS := 10
  const SECONDS_PER_DAY := 86400

  datatype Phase = NsGreen | NsYellow | EwGreen | EwYellow | RailwayHold
  datatype Light = Off | Red | Yellow | Green
  datatype Mode = Fixed | Sensor | RailwayMode | Failsafe
  datatype Road = NS | EW

  /** Phase timer, vehicle lamps and WALK signs. */
  datatype Signals = Signals(phase: Phase, timeRemaining: int, duration: int,
                             nsLight: Light, ewLight: Light, nsWalk: bool, ewWalk: bool)

  /** The Greens of the running cycle, and the pedestrian time carried over to each. */
  datatype Plan = Plan(ns: int, ew: int, valid: bool, extraNs: int, extraEw: int)

  datatype Railway = Railway(pending: bool, active: bool, waitingForClear: bool, passRemaining: int,
                             recovery: int, nextTrain: int, connected: bool)
  {
    predicate Idle() {
      !pending && !active && recovery <= 0
    }

    /** Both roads are held red, whatever the phase. */
    predicate Holding() {
      active || recovery > 0
    }
  }

  datatype Control = Control(mode: Mode, manual: bool, tempRemaining: int, returnMode: Mode, returnManual: bool,
                             coordPending: bool, coordPhase: Phase, coordOffset: nat)

  datatype Demand = Demand(nsCars: int, ewCars: int, manualSensor: bool, nsRequest: bool, ewRequest: bool)

  datatype State = State(initialPhase: Phase, signals: Signals, plan: Plan, railway: Railway, control: Control,
                         demand: Demand, simRunning: bool, simSeconds: int)

  // ----- planning -----

  function Clamp(seconds: int): (r: int)
    ensures GREEN_MIN_SEC <= r <= GREEN_MAX_SEC
    ensures GREEN_MIN_SEC <= seconds <= GREEN_MAX_SEC ==> r == seconds
  {
    if seconds < GREEN_MIN_SEC then GREEN_MIN_SEC else if seconds > GREEN_MAX_SEC then GREEN_MAX_SEC else seconds
  }

  /** Both roads of every intersection are configured with the base time. */
  function ConfiguredGreen(): int {
    Clamp(GREEN_BASE_SEC)
  }

  function FixedCycleSeconds(): int {
    ConfiguredGreen() + YELLOW_SEC + ConfiguredGreen() + YELLOW_SEC
  }

  function GreenTime(mode: Mode, demand: Demand, road: Road): int {
    var nsHigh := demand.nsCars >= SENSOR_CAR_THRESHOLD;
    var ewHigh := demand.ewCars >= SENSOR_CAR_THRESHOLD;
    var adjust :=
      if !mode.Sensor? || nsHigh == ewHigh then 0
      else if (road.NS? && nsHigh) || (road.EW? && ewHigh) then SENSOR_ADJUST_SEC
      else -SENSOR_ADJUST_SEC;
    Clamp(ConfiguredGreen() + adjust)
  }

  /** Allocates both Greens of the next cycle, with room for the pedestrian time carried over. */
  function PlanCycle(plan: Plan, mode: Mode, demand: Demand): Plan {
    var wanted := GreenTime(mode, demand, NS);
    var low := if wanted < GREEN_MIN_SEC + plan.extraEw then GREEN_MIN_SEC + plan.extraEw else wanted;
    var ns := if low > GREEN_MAX_SEC - plan.extraNs then GREEN_MAX_SEC - plan.extraNs else low;
    Plan(ns, 2 * GREEN_BASE_SEC - ns, true, plan.extraNs, plan.extraEw)
  }

  function GreenPhase(road: Road): Phase {
    if road.NS? then NsGreen else EwGreen
  }

  /** A new plan is made when the initial phase starts. */
  function NextPlan(s: State, road: Road): Plan {
    if !s.plan.valid || GreenPhase(road) == s.initialPhase then PlanCycle(s.plan, s.control.mode, s.demand) else s.plan
  }

  /** The Green of a road, with the time carried over to it. */
  function PlannedGreen(plan: Plan, road: Road): int {
    if road.NS? then plan.ns + plan.extraNs else plan.ew + plan.extraEw
  }

  function TakeExtra(plan: Plan, road: Road): Plan {
    if road.NS? then plan.(extraNs := 0) else plan.(extraEw := 0)
  }

  function NoExtra(plan: Plan): Plan {
    plan.(extraNs := 0, extraEw := 0)
  }

  // ----- phases and lights -----

  function PhaseLights(phase: Phase): (Light, Light) {
    match phase
    case NsGreen => (Green, Red)
    case NsYellow => (Yellow, Red)
    case EwGreen => (Red, Green)
    case EwYellow => (Red, Yellow)
    case RailwayHold => (Red, Red)
  }

  /** The lamps of a phase; `holding` tells that the railway holds both roads red. */
  function Relight(g: Signals, holding: bool): Signals {
    if holding || g.phase.RailwayHold? then g.(nsLight := Red, ewLight := Red, nsWalk := false, ewWalk := false)
    else g.(nsLight := PhaseLights(g.phase).0, ewLight := PhaseLights(g.phase).1)
  }

  function PhaseSignals(phase: Phase, seconds: int, holding: bool): Signals {
    Relight(Signals(phase, seconds, seconds, Red, Red, false, false), holding)
  }

  function SetPhase(s: State, phase: Phase, seconds: int): State {
    s.(signals := PhaseSignals(phase, seconds, s.railway.Holding()))
  }

  function UpdateLights(s: State): State {
    s.(signals := Relight(s.signals, s.railway.Holding()))
  }

  /** Starts a Green and consumes the time carried over to it. */
  function StartGreen(s: State, road: Road): State {
    var p := NextPlan(s, road);
    SetPhase(s.(plan := TakeExtra(p, road)), GreenPhase(road), Clamp(PlannedGreen(p, road)))
  }

  function InitialRoad(s: State): Road {
    if s.initialPhase.EwGreen? then EW else NS
  }

  function SetInitialPhase(s: State): State {
    var p := NextPlan(s, InitialRoad(s));
    SetPhase(s.(plan := TakeExtra(p, InitialRoad(s))), s.initialPhase, Clamp(PlannedGreen(p, InitialRoad(s))))
  }

  /** A position of the fixed cycle, counted from the base Green: its phase and remaining time. */
  function JumpTarget(base: Phase, offsetSec: nat): (Phase, int) {
    var first, second := ConfiguredGreen(), ConfiguredGreen();
    var cycle := first + second + 2 * YELLOW_SEC;
    var offset := offsetSec % cycle;
    var ns := base.NsGreen?;
    if offset < first then (base, first - offset)
    else if offset < first + YELLOW_SEC then (if ns then NsYellow else EwYellow, first + YELLOW_SEC - offset)
    else if offset < first + YELLOW_SEC + second then
      (if ns then EwGreen else NsGreen, first + YELLOW_SEC + second - offset)
    else (if ns then EwYellow else NsYellow, cycle - offset)
  }

  function CoordinationJump(s: State, base: Phase, offsetSec: nat): State {
    var target := JumpTarget(base, offsetSec);
    SetPhase(s.(plan := Plan(ConfiguredGreen(), ConfiguredGreen(), true, 0, 0)), target.0, target.1)
  }

  function AdvancePhase(s: State): State {
    var phase := s.signals.phase;
    if s.control.coordPending && (phase.NsYellow? || phase.EwYellow?) then
      CoordinationJump(s, s.control.coordPhase, s.control.coordOffset).(control := s.control.(coordPending := false))
    else match phase
      case NsGreen => SetPhase(s, NsYellow, YELLOW_SEC)
      case NsYellow => StartGreen(s, EW)
      case EwGreen => SetPhase(s, EwYellow, YELLOW_SEC)
      case _ => StartGreen(s, NS)
  }

  // ----- pedestrians -----

  predicate ServicePhase(phase: Phase, road: Road) {
    (phase.EwGreen? && road.NS?) || (phase.NsGreen? && road.EW?)
  }

  predicate WalkTime(g: Signals, road: Road) {
    && ServicePhase(g.phase, road)
    && g.duration - g.timeRemaining >= PED_WALK_START_SEC && g.timeRemaining > PED_WALK_END_SEC
  }

  function UpdatePedestrian(s: State): State {
    var g := s.signals;
    if s.railway.Holding() then s.(signals := g.(nsWalk := false, ewWalk := false))
    else
      s.(signals := g.(nsWalk := WalkTime(g, NS), ewWalk := WalkTime(g, EW)),
         demand := s.demand.(nsRequest := s.demand.nsRequest && !WalkTime(g, NS),
                             ewRequest := s.demand.ewRequest && !WalkTime(g, EW)))
  }

  /** The part of the running Green that can be moved to the next opposite Green. */
  function Removable(s: State, road: Road): int {
    var removed := s.signals.timeRemaining - PED_GREEN_CAP_SEC;
    var capacity :=
      if s.signals.phase == s.initialPhase && s.plan.valid then GREEN_MAX_SEC - PlannedGreen(s.plan, road)
      else GREEN_MAX_SEC - GREEN_MIN_SEC - s.plan.extraNs - s.plan.extraEw;
    var room := if capacity < 0 then 0 else capacity;
    if removed > room then room else removed
  }

  function CapGreen(s: State, road: Road): State {
    var g := s.signals;
    if !ServicePhase(g.phase, road) || g.timeRemaining <= PED_GREEN_CAP_SEC then s
    else
      var removed := Removable(s, road);
      s.(signals := g.(timeRemaining := g.timeRemaining - removed, duration := g.duration - removed),
         plan := if road.NS? then s.plan.(extraNs := s.plan.extraNs + removed)
                 else s.plan.(extraEw := s.plan.extraEw + removed))
  }

  function AddRequest(s: State, road: Road): State {
    if road.NS? then
      if s.demand.nsRequest then s else CapGreen(s.(demand := s.demand.(nsRequest := true)), NS)
    else
      if s.demand.ewRequest then s else CapGreen(s.(demand := s.demand.(ewRequest := true)), EW)
  }

  // ----- the railway -----

  function ClearTrain(s: State): State {
    if s.railway.active || s.railway.pending then
      SetPhase(s.(railway := s.railway.(pending := false, active := false, passRemaining := 0, waitingForClear := false,
                                        recovery := RAILWAY_RECOVERY_SEC),
                  plan := NoExtra(s.plan)),
               RailwayHold, RAILWAY_RECOVERY_SEC)
    else s
  }

  /** A Green is cut to a full Yellow, a Yellow is left to end, and a hold becomes the railway's. */
  function StartTrainCommon(s: State, waitForClear: bool, eta: int): State {
    if s.railway.active || s.railway.pending then s
    else
      var r := s.railway.(pending := true, passRemaining := if waitForClear then eta else TRAIN_PASSING_SECONDS,
                          waitingForClear := waitForClear, recovery := 0, nextTrain := 0);
      var p := s.(railway := r, plan := NoExtra(s.plan));
      match s.signals.phase
      case NsGreen => SetPhase(p, NsYellow, YELLOW_SEC)
      case EwGreen => SetPhase(p, EwYellow, YELLOW_SEC)
      case RailwayHold => SetPhase(p.(railway := r.(pending := false, active := true)), RailwayHold, 0)
      case _ => p
  }

  function StartTrainMessage(s: State, eta: int): State {
    var t := if eta < 0 then 0 else eta;
    if s.railway.active || s.railway.pending then
      var p := s.(railway := s.railway.(waitingForClear := true, passRemaining := t, nextTrain := 0));
      if s.railway.active then SetPhase(p, RailwayHold, 0) else p
    else StartTrainCommon(s, true, t)
  }

  // ----- the traffic tick -----

  function Countdown(n: int): int {
    if n > 0 then n - 1 else n
  }

  function CountPhase(s: State): State {
    s.(signals := s.signals.(timeRemaining := Countdown(s.signals.timeRemaining)))
  }

  function PendingTick(s: State): State {
    var p := UpdateLights(CountPhase(s));
    if p.signals.timeRemaining <= 0 then
      SetPhase(p.(railway := p.railway.(pending := false, active := true)), RailwayHold, 0)
    else p
  }

  function ActiveTick(s: State): State {
    var left := Countdown(s.railway.passRemaining);
    var p := s.(railway := s.railway.(passRemaining := left));
    if s.railway.waitingForClear then
      UpdateLights(p.(signals := p.signals.(phase := RailwayHold, timeRemaining := left)))
    else if left <= 0 then ClearTrain(p)
    else SetPhase(p, RailwayHold, left)
  }

  /** gap is the random time to the next simulated train. */
  function RecoveryTick(s: State, gap: int): State {
    var left := s.railway.recovery - 1;
    var p := UpdateLights(s.(railway := s.railway.(recovery := left),
                             signals := s.signals.(phase := RailwayHold, timeRemaining := left)));
    if left == 0 then
      SetInitialPhase(if p.simRunning && !p.railway.connected then p.(railway := p.railway.(nextTrain := gap)) else p)
    else p
  }

  function RoadTick(s: State): State {
    var p := UpdatePedestrian(UpdateLights(CountPhase(s)));
    if p.signals.timeRemaining <= 0 then AdvancePhase(p) else p
  }

  function TrafficTick(s: State, gap: int): State {
    if s.signals.nsLight.Green? && s.signals.ewLight.Green? then
      s.(control := s.control.(mode := Failsafe),
         signals := Signals(RailwayHold, 0, s.signals.duration, Red, Red, false, false))
    else if s.control.mode.Failsafe? then
      UpdateLights(s.(signals := s.signals.(phase := RailwayHold, timeRemaining := 0)))
    else if s.railway.pending then PendingTick(s)
    else if s.railway.active then ActiveTick(s)
    else if s.railway.recovery > 0 then RecoveryTick(s, gap)
    else RoadTick(s)
  }

  // ----- time of day, cars and the other inputs -----

  predicate PeakTime(seconds: int) {
    7 * 3600 <= seconds < 9 * 3600 || 16 * 3600 <= seconds < 18 * 3600
  }

  function ApplyTimeSettings(s: State): State {
    if !s.control.manual && !s.control.mode.Failsafe? then
      s.(control := s.control.(mode := if PeakTime(s.simSeconds) then Fixed else Sensor))
    else s
  }

  function UpdateTemporary(s: State): State {
    var c := s.control;
    if c.tempRemaining <= 0 then s
    else if c.tempRemaining == 1 then
      ApplyTimeSettings(s.(control := c.(tempRemaining := 0, mode := c.returnMode, manual := c.returnManual)))
    else s.(control := c.(tempRemaining := c.tempRemaining - 1))
  }

  function CountTrain(r: Railway): Railway {
    if r.Idle() && !r.connected && r.nextTrain > 0 then r.(nextTrain := r.nextTrain - 1) else r
  }

  predicate TrainDue(r: Railway) {
    r.nextTrain <= 0 && r.Idle() && !r.connected
  }

  function UpdateTimeOfDay(s: State): State {
    if !s.simRunning then s
    else
      var p := ApplyTimeSettings(s.(simSeconds := (s.simSeconds + 1) % SECONDS_PER_DAY));
      var q := p.(railway := CountTrain(p.railway));
      if TrainDue(q.railway) then StartTrainCommon(q, false, 0) else q
  }

  datatype Arrival = NoCar | NsCar | EwCar | BothCars

  function PassCars(count: int, peak: bool): int {
    var passing := if peak then 2 else 1;
    if count < passing then 0 else count - passing
  }

  function OneMoreCar(count: int): int {
    if count < MAX_SENSOR_CARS then count + 1 else count
  }

  /** arrival is the random arrival of this second. */
  function UpdateVehicles(s: State, arrival: Arrival): State {
    if !s.simRunning then s
    else
      var d := s.demand;
      var peak := PeakTime(s.simSeconds);
      var ns := if s.railway.Idle() && s.signals.phase.NsGreen? then PassCars(d.nsCars, peak) else d.nsCars;
      var ew := if s.railway.Idle() && s.signals.phase.EwGreen? then PassCars(d.ewCars, peak) else d.ewCars;
      s.(demand := d.(
        nsCars := if !d.manualSensor && (arrival.NsCar? || arrival.BothCars?) then OneMoreCar(ns) else ns,
        ewCars := if !d.manualSensor && (arrival.EwCar? || arrival.BothCars?) then OneMoreCar(ew) else ew))
  }

  /** One second of the core loop. */
  function CoreTick(s: State, gap: int, arrival: Arrival): State {
    UpdateVehicles(TrafficTick(UpdateTemporary(UpdateTimeOfDay(s)), gap), arrival)
  }

  function SetSimSeconds(s: State, seconds: int, gap: int): State {
    var p := s.(control := s.control.(manual := false), demand := s.demand.(manualSensor := false),
                simSeconds := seconds % SECONDS_PER_DAY);
    ApplyTimeSettings(p).(railway := p.railway.(nextTrain := gap))
  }

  function ToggleSensor(d: Demand, road: Road): Demand {
    if road.NS? then d.(manualSensor := true, nsCars := if d.nsCars >= SENSOR_CAR_THRESHOLD then 0 else DEMO_HIGH_CAR_COUNT)
    else d.(manualSensor := true, ewCars := if d.ewCars >= SENSOR_CAR_THRESHOLD then 0 else DEMO_HIGH_CAR_COUNT)
  }

  /** Cars, requests, trains, temporary modes and coordination are forgotten. */
  function ResetInputs(s: State, gap: int): State {
    s.(demand := Demand(0, 0, false, false, false), signals := s.signals.(nsWalk := false, ewWalk := false),
       railway := Railway(false, false, false, 0, 0, gap, s.railway.connected),
       control := s.control.(manual := false, tempRemaining := 0, coordPending := false, coordOffset := 0),
       plan := NoExtra(s.plan), simRunning := true)
  }

  function ResetDemo(s: State, gap: int): State {
    SetInitialPhase(ApplyTimeSettings(ResetInputs(s, gap)))
  }

  datatype ModeAction = SetMode | Temporary | Revert

  function ModeCommand(c: Control, action: ModeAction, mode: Mode, duration: nat): Control {
    if !mode.Fixed? && !mode.Sensor? then c
    else match action
      case SetMode => if duration == 0 then c.(mode := mode, manual := true, tempRemaining := 0) else c
      case Temporary =>
        if duration == 0 then c
        else
          var p := if c.tempRemaining <= 0 then c.(returnMode := c.mode, returnManual := c.manual) else c;
          p.(mode := mode, manual := true, tempRemaining := duration)
      case Revert =>
        if duration != 0 then c
        else
          var p := if c.tempRemaining > 0 then c.(mode := c.returnMode, manual := c.returnManual, tempRemaining := 0) else c;
          if p.mode.Failsafe? then p.(mode := Fixed) else p
  }

  function Coordinate(c: Control, base: Phase, offset: nat): Control {
    if offset < FixedCycleSeconds() && (base.NsGreen? || base.EwGreen?) then
      c.(mode := Fixed, manual := true, coordPhase := base, coordOffset := offset, coordPending := true)
    else c
  }

  function SensorUpdate(d: Demand, road: Road, count: nat): Demand {
    if count > MAX_SENSOR_CARS then d
    else if road.NS? then d.(manualSensor := true, nsCars := count)
    else d.(manualSensor := true, ewCars := count)
  }

  /** Everything the core reacts to: the tick, messages of Central and Train, and the console. */
  datatype Input =
    | Tick(gap: int, arrival: Arrival)
    | Preempt(eta: int)
    | Clear
    | SetModeInput(action: ModeAction, mode: Mode, duration: nat)
    | CoordinateInput(base: Phase, offset: nat)
    | SensorInput(road: Road, count: nat)
    | Button(road: Road)
    | SimStart(gap: int)
    | SimStop
    | SimTime(seconds: int, gap: int)
    | LinkUp(train: bool)
    | ToggleMode
    | ToggleSensorInput(road: Road)
    | DemoTrain
    | ConsoleClear
    | ConsoleReset(gap: int)

  function Step(s: State, input: Input): State {
    match input
    case Tick(gap, arrival) => CoreTick(s, gap, arrival)
    case Preempt(eta) => StartTrainMessage(s, eta)
    case Clear => ClearTrain(s)
    case SetModeInput(action, mode, duration) => s.(control := ModeCommand(s.control, action, mode, duration))
    case CoordinateInput(base, offset) => s.(control := Coordinate(s.control, base, offset))
    case SensorInput(road, count) => s.(demand := SensorUpdate(s.demand, road, count))
    case Button(road) => AddRequest(s, road)
    case SimStart(gap) => s.(simRunning := true, railway := s.railway.(nextTrain := gap))
    case SimStop => s.(simRunning := false)
    case SimTime(seconds, gap) => SetSimSeconds(s, seconds, gap)
    case LinkUp(train) => s.(railway := s.railway.(connected := train))
    case ToggleMode => s.(control := s.control.(manual := true, mode := if s.control.mode.Fixed? then Sensor else Fixed))
    case ToggleSensorInput(road) => s.(demand := ToggleSensor(s.demand, road))
    case DemoTrain => StartTrainCommon(s, false, 0)
    case ConsoleClear => ClearTrain(s)
    case ConsoleReset(gap) => ResetDemo(s, gap)
  }

  function Run(s: State, inputs: seq<Input>): State
    decreases |inputs|
  {
    if inputs == [] then s else Step(Run(s, inputs[..|inputs| - 1]), inputs[|inputs| - 1])
  }

  /** The six intersections: I1, I4 and I5 start with EW, the others with NS. */
  function ProfilePhase(id: nat): Phase {
    if id == 1 || id == 2 || id == 5 then NsGreen else EwGreen
  }

  function Init(id: nat, gap: int): State {
    var initial := ProfilePhase(if id < 6 then id else 0);
    var road := if initial.EwGreen? then EW else NS;
    var demand := Demand(0, 0, false, false, false);
    var mode := if PeakTime(6 * 3600) then Fixed else Sensor;
    var green := GreenTime(mode, demand, road);
    State(initial, PhaseSignals(initial, green, false), PlanCycle(Plan(0, 0, false, 0, 0), mode, demand),
          Railway(false, false, false, 0, 0, gap, false), Control(mode, false, 0, Fixed, false, false, NsGreen, 0),
          demand, true, 6 * 3600)
  }
}
