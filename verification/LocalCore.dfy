/** The intersection core that updates its state in place, field group by field group. Each method is proved
    equal to its operation in LocalSpec, and those that the outside calls keep the signals safe. */
module LocalCore {
  import opened LocalSpec
  import opened LocalSafety
  import LocalHold
  import LocalCycle
  import LocalTrains
  import LocalSecond

  class Controller {
    var initialPhase: Phase
    var signals: Signals
    var plan: Plan
    var railway: Railway
    var control: Control
    var demand: Demand
    var simRunning: bool
    var simSeconds: int

    ghost function Contents(): State
      reads this
    {
      State(initialPhase, signals, plan, railway, control, demand, simRunning, simSeconds)
    }

    ghost predicate Valid()
      reads this
    {
      Inv(Contents()) && LocalSecond.ClockOk(Contents())
    }

    /** What the outside relies on. */
    ghost predicate Safe()
      reads this
    {
      SafeSignals(signals) && !control.mode.Failsafe?
    }

    constructor (id: nat, gap: int)
      ensures Valid() && Safe() && Contents() == Init(id, gap)
    {
      var first := ProfilePhase(if id < 6 then id else 0);
      var road := if first.EwGreen? then EW else NS;
      var cars := Demand(0, 0, false, false, false);
      var mode := if PeakTime(6 * 3600) then Fixed else Sensor;
      var green := GreenTime(mode, cars, road);
      initialPhase := first;
      demand := cars;
      simRunning := true;
      simSeconds := 6 * 3600;
      railway := Railway(false, false, false, 0, 0, gap, false);
      control := Control(mode, false, 0, Fixed, false, false, NsGreen, 0);
      plan := PlanCycle(Plan(0, 0, false, 0, 0), mode, cars);
      if first.EwGreen? {
        signals := Signals(first, green, green, Red, Green, false, false);
      } else {
        signals := Signals(first, green, green, Green, Red, false, false);
      }
      new;
      InitOk(id, gap);
      SignalsAreSafe(signals);
    }

    method MakePlan()
      modifies this`plan
      ensures plan == PlanCycle(old(plan), control.mode, demand)
    {
      var ns := GreenTime(control.mode, demand, NS);
      var minimum := GREEN_MIN_SEC + plan.extraEw;
      var maximum := GREEN_MAX_SEC - plan.extraNs;
      if ns < minimum {
        ns := minimum;
      }
      if ns > maximum {
        ns := maximum;
      }
      plan := plan.(ns := ns, ew := 2 * GREEN_BASE_SEC - ns, valid := true);
    }

    /** Plans if a cycle begins, and takes the time carried over to the Green. */
    method NextGreen(road: Road) returns (seconds: int)
      modifies this`plan
      ensures var p := NextPlan(old(Contents()), road);
              plan == TakeExtra(p, road) && seconds == Clamp(PlannedGreen(p, road))
    {
      if !plan.valid || GreenPhase(road) == initialPhase {
        MakePlan();
      }
      if road.NS? {
        seconds := plan.ns + plan.extraNs;
        plan := plan.(extraNs := 0);
      } else {
        seconds := plan.ew + plan.extraEw;
        plan := plan.(extraEw := 0);
      }
      seconds := Clamp(seconds);
    }

    method Relamp()
      modifies this`signals
      ensures Contents() == UpdateLights(old(Contents()))
    {
      if railway.active || railway.recovery > 0 || signals.phase.RailwayHold? {
        signals := signals.(nsLight := Red, ewLight := Red);
        signals := signals.(nsWalk := false, ewWalk := false);
        return;
      }
      match signals.phase
      case NsGreen => signals := signals.(nsLight := Green, ewLight := Red);
      case NsYellow => signals := signals.(nsLight := Yellow, ewLight := Red);
      case EwGreen => signals := signals.(nsLight := Red, ewLight := Green);
      case EwYellow => signals := signals.(nsLight := Red, ewLight := Yellow);
    }

    method EnterPhase(phase: Phase, seconds: int)
      modifies this`signals
      ensures Contents() == SetPhase(old(Contents()), phase, seconds)
    {
      signals := signals.(phase := phase, duration := seconds, timeRemaining := seconds);
      signals := signals.(nsWalk := false, ewWalk := false);
      Relamp();
    }

    method BeginGreen(road: Road)
      modifies this`plan, this`signals
      ensures Contents() == StartGreen(old(Contents()), road)
    {
      var seconds := NextGreen(road);
      EnterPhase(GreenPhase(road), seconds);
    }

    method BeginCycle()
      modifies this`plan, this`signals
      ensures Contents() == SetInitialPhase(old(Contents()))
    {
      var seconds := NextGreen(if initialPhase.EwGreen? then EW else NS);
      EnterPhase(initialPhase, seconds);
    }

    method Jump(base: Phase, offsetSec: nat)
      modifies this`plan, this`signals
      ensures Contents() == CoordinationJump(old(Contents()), base, offsetSec)
    {
      plan := plan.(extraNs := 0, extraEw := 0);
      plan := plan.(ns := ConfiguredGreen(), ew := ConfiguredGreen(), valid := true);
      var first, second := ConfiguredGreen(), ConfiguredGreen();
      var cycle := first + second + 2 * YELLOW_SEC;
      var offset := offsetSec % cycle;
      if offset < first {
        EnterPhase(base, first - offset);
      } else if offset < first + YELLOW_SEC {
        EnterPhase(if base.NsGreen? then NsYellow else EwYellow, first + YELLOW_SEC - offset);
      } else if offset < first + YELLOW_SEC + second {
        EnterPhase(if base.NsGreen? then EwGreen else NsGreen, first + YELLOW_SEC + second - offset);
      } else {
        EnterPhase(if base.NsGreen? then EwYellow else NsYellow, cycle - offset);
      }
    }

    method Advance()
      modifies this`plan, this`signals, this`control
      ensures Contents() == AdvancePhase(old(Contents()))
    {
      if control.coordPending && (signals.phase.NsYellow? || signals.phase.EwYellow?) {
        Jump(control.coordPhase, control.coordOffset);
        control := control.(coordPending := false);
        return;
      }
      match signals.phase
      case NsGreen => EnterPhase(NsYellow, YELLOW_SEC);
      case NsYellow => BeginGreen(EW);
      case EwGreen => EnterPhase(EwYellow, YELLOW_SEC);
      case _ => BeginGreen(NS);
    }

    method ServePedestrians()
      modifies this`signals, this`demand
      ensures Contents() == UpdatePedestrian(old(Contents()))
    {
      if railway.active || railway.recovery > 0 {
        signals := signals.(nsWalk := false, ewWalk := false);
        return;
      }
      var elapsed := signals.duration - signals.timeRemaining;
      var inTime := elapsed >= PED_WALK_START_SEC && signals.timeRemaining > PED_WALK_END_SEC;
      if ServicePhase(signals.phase, NS) && inTime {
        signals := signals.(nsWalk := true);
        demand := demand.(nsRequest := false);
      } else {
        signals := signals.(nsWalk := false);
      }
      if ServicePhase(signals.phase, EW) && inTime {
        signals := signals.(ewWalk := true);
        demand := demand.(ewRequest := false);
      } else {
        signals := signals.(ewWalk := false);
      }
    }

    /** The part of the running Green that the next opposite Green can take. */
    method Transferable(road: Road) returns (removed: int)
      ensures removed == Removable(Contents(), road)
    {
      removed := signals.timeRemaining - PED_GREEN_CAP_SEC;
      var capacity;
      if signals.phase == initialPhase && plan.valid {
        var next := if road.NS? then plan.ns else plan.ew;
        var extra := if road.NS? then plan.extraNs else plan.extraEw;
        capacity := GREEN_MAX_SEC - next - extra;
      } else {
        capacity := GREEN_MAX_SEC - GREEN_MIN_SEC - plan.extraNs - plan.extraEw;
      }
      if capacity < 0 {
        capacity := 0;
      }
      if removed > capacity {
        removed := capacity;
      }
    }

    method Cap(road: Road)
      modifies this`signals, this`plan
      ensures Contents() == CapGreen(old(Contents()), road)
    {
      if !ServicePhase(signals.phase, road) || signals.timeRemaining <= PED_GREEN_CAP_SEC {
        return;
      }
      var elapsed := signals.duration - signals.timeRemaining;
      var removed := Transferable(road);
      signals := signals.(timeRemaining := signals.timeRemaining - removed);
      signals := signals.(duration := elapsed + signals.timeRemaining);
      if road.NS? {
        plan := plan.(extraNs := plan.extraNs + removed);
      } else {
        plan := plan.(extraEw := plan.extraEw + removed);
      }
    }

    /** A pedestrian's button: the request is noted, and the seconds taken from the running Green are all
        given to the next opposite one. */
    method PressButton(road: Road)
      requires Valid()
      modifies this`signals, this`plan, this`demand
      ensures Valid() && Safe() && Contents() == AddRequest(old(Contents()), road)
      ensures LocalCycle.Requested(Contents(), road)
      ensures LocalCycle.Ahead(Contents()) == old(LocalCycle.Ahead(Contents())) && signals.phase == old(signals.phase)
    {
      ghost var s := Contents();
      var already := if road.NS? then demand.nsRequest else demand.ewRequest;
      if road.NS? {
        demand := demand.(nsRequest := true);
      } else {
        demand := demand.(ewRequest := true);
      }
      if !already {
        Cap(road);
      }
      ButtonOk(s, road);
      LocalCycle.AheadButton(s, road);
      SignalsAreSafe(signals);
    }

    method EndTrain()
      modifies this`railway, this`plan, this`signals
      ensures Contents() == ClearTrain(old(Contents()))
    {
      if railway.active || railway.pending {
        railway := railway.(pending := false, active := false, passRemaining := 0, waitingForClear := false);
        railway := railway.(recovery := RAILWAY_RECOVERY_SEC);
        plan := plan.(extraNs := 0, extraEw := 0);
        EnterPhase(RailwayHold, RAILWAY_RECOVERY_SEC);
      }
    }

    method StartTrain(waitForClear: bool, eta: int)
      modifies this`railway, this`plan, this`signals
      ensures Contents() == StartTrainCommon(old(Contents()), waitForClear, eta)
    {
      if railway.active || railway.pending {
        return;
      }
      railway := railway.(pending := true, passRemaining := if waitForClear then eta else TRAIN_PASSING_SECONDS,
                          waitingForClear := waitForClear);
      railway := railway.(recovery := 0, nextTrain := 0);
      plan := plan.(extraNs := 0, extraEw := 0);
      if signals.phase.NsGreen? {
        EnterPhase(NsYellow, YELLOW_SEC);
      } else if signals.phase.EwGreen? {
        EnterPhase(EwYellow, YELLOW_SEC);
      } else if !signals.phase.NsYellow? && !signals.phase.EwYellow? {
        railway := railway.(pending := false, active := true);
        EnterPhase(RailwayHold, 0);
      }
    }

    /** CLEAR ends a hold with both roads red; without one it changes nothing. */
    method ClearRailway()
      requires Valid()
      modifies this`railway, this`plan, this`signals
      ensures Valid() && Safe() && Contents() == ClearTrain(old(Contents()))
      ensures old(railway.pending || railway.active) ==>
                signals.nsLight.Red? && signals.ewLight.Red? && railway.recovery == RAILWAY_RECOVERY_SEC
    {
      ghost var s := Contents();
      EndTrain();
      ClearOk(s);
      SignalsAreSafe(signals);
    }

    /** PREEMPT is accepted in every state, also over a local train, and makes the core wait for CLEAR. */
    method PreemptMessage(eta: int)
      requires Valid()
      modifies this`railway, this`plan, this`signals
      ensures Valid() && Safe() && Contents() == StartTrainMessage(old(Contents()), eta)
      ensures LocalHold.Held(Contents(), 0)
    {
      ghost var s := Contents();
      var t := if eta < 0 then 0 else eta;
      if railway.active || railway.pending {
        railway := railway.(waitingForClear := true, passRemaining := t, nextTrain := 0);
        if railway.active {
          EnterPhase(RailwayHold, 0);
        }
      } else {
        StartTrain(true, t);
      }
      PreemptOk(s, eta);
      LocalHold.PreemptHolds(s, eta);
      SignalsAreSafe(signals);
    }

    method CountSecond()
      modifies this`signals
      ensures Contents() == CountPhase(old(Contents()))
    {
      if signals.timeRemaining > 0 {
        signals := signals.(timeRemaining := signals.timeRemaining - 1);
      }
    }

    method TickPending()
      modifies this`signals, this`railway
      ensures Contents() == PendingTick(old(Contents()))
    {
      CountSecond();
      Relamp();
      if signals.timeRemaining <= 0 {
        railway := railway.(pending := false, active := true);
        EnterPhase(RailwayHold, 0);
      }
    }

    method TickActive()
      modifies this`signals, this`railway, this`plan
      ensures Contents() == ActiveTick(old(Contents()))
    {
      if railway.passRemaining > 0 {
        railway := railway.(passRemaining := railway.passRemaining - 1);
      }
      if railway.waitingForClear {
        signals := signals.(phase := RailwayHold, timeRemaining := railway.passRemaining);
        Relamp();
      } else if railway.passRemaining <= 0 {
        EndTrain();
      } else {
        EnterPhase(RailwayHold, railway.passRemaining);
      }
    }

    method TickRecovery(gap: int)
      modifies this`signals, this`railway, this`plan
      ensures Contents() == RecoveryTick(old(Contents()), gap)
    {
      railway := railway.(recovery := railway.recovery - 1);
      signals := signals.(phase := RailwayHold, timeRemaining := railway.recovery);
      Relamp();
      if railway.recovery == 0 {
        if simRunning && !railway.connected {
          railway := railway.(nextTrain := gap);
        }
        BeginCycle();
      }
    }

    method TickRoad()
      modifies this`signals, this`plan, this`control, this`demand
      ensures Contents() == RoadTick(old(Contents()))
    {
      CountSecond();
      Relamp();
      ServePedestrians();
      if signals.timeRemaining <= 0 {
        Advance();
      }
    }

    method TickTraffic(gap: int)
      modifies this`signals, this`plan, this`control, this`demand, this`railway
      ensures Contents() == TrafficTick(old(Contents()), gap)
    {
      if signals.nsLight.Green? && signals.ewLight.Green? {
        control := control.(mode := Failsafe);
        signals := signals.(phase := RailwayHold, timeRemaining := 0, nsLight := Red, ewLight := Red);
        signals := signals.(nsWalk := false, ewWalk := false);
      } else if control.mode.Failsafe? {
        signals := signals.(phase := RailwayHold, timeRemaining := 0);
        Relamp();
      } else if railway.pending {
        TickPending();
      } else if railway.active {
        TickActive();
      } else if railway.recovery > 0 {
        TickRecovery(gap);
      } else {
        TickRoad();
      }
    }

    method ApplyTime()
      modifies this`control
      ensures Contents() == ApplyTimeSettings(old(Contents()))
    {
      if !control.manual && !control.mode.Failsafe? {
        control := control.(mode := if PeakTime(simSeconds) then Fixed else Sensor);
      }
    }

    method TickTemporary()
      modifies this`control
      ensures Contents() == UpdateTemporary(old(Contents()))
    {
      if control.tempRemaining <= 0 {
        return;
      }
      control := control.(tempRemaining := control.tempRemaining - 1);
      if control.tempRemaining == 0 {
        control := control.(mode := control.returnMode, manual := control.returnManual);
        ApplyTime();
      }
    }

    method TickClock()
      modifies this`simSeconds, this`control, this`railway, this`plan, this`signals
      ensures Contents() == UpdateTimeOfDay(old(Contents()))
    {
      if !simRunning {
        return;
      }
      simSeconds := (simSeconds + 1) % SECONDS_PER_DAY;
      ApplyTime();
      if railway.Idle() && !railway.connected && railway.nextTrain > 0 {
        railway := railway.(nextTrain := railway.nextTrain - 1);
      }
      if railway.nextTrain <= 0 && railway.Idle() && !railway.connected {
        StartTrain(false, 0);
      }
    }

    method LetCarsPass(road: Road)
      modifies this`demand
      ensures demand == if road.NS? then old(demand).(nsCars := PassCars(old(demand).nsCars, PeakTime(simSeconds)))
                        else old(demand).(ewCars := PassCars(old(demand).ewCars, PeakTime(simSeconds)))
    {
      var passing := 1;
      if PeakTime(simSeconds) {
        passing := 2;
      }
      if road.NS? {
        if demand.nsCars < passing {
          passing := demand.nsCars;
        }
        demand := demand.(nsCars := demand.nsCars - passing);
      } else {
        if demand.ewCars < passing {
          passing := demand.ewCars;
        }
        demand := demand.(ewCars := demand.ewCars - passing);
      }
    }

    method AddCar(road: Road)
      modifies this`demand
      ensures demand == if road.NS? then old(demand).(nsCars := OneMoreCar(old(demand).nsCars))
                        else old(demand).(ewCars := OneMoreCar(old(demand).ewCars))
    {
      if road.NS? && demand.nsCars < MAX_SENSOR_CARS {
        demand := demand.(nsCars := demand.nsCars + 1);
      }
      if road.EW? && demand.ewCars < MAX_SENSOR_CARS {
        demand := demand.(ewCars := demand.ewCars + 1);
      }
    }

    method TickVehicles(arrival: Arrival)
      modifies this`demand
      ensures Contents() == UpdateVehicles(old(Contents()), arrival)
    {
      if !simRunning {
        return;
      }
      if railway.Idle() {
        if signals.phase.NsGreen? {
          LetCarsPass(NS);
        } else if signals.phase.EwGreen? {
          LetCarsPass(EW);
        }
      }
      if !demand.manualSensor {
        if arrival.NsCar? || arrival.BothCars? {
          AddCar(NS);
        }
        if arrival.EwCar? || arrival.BothCars? {
          AddCar(EW);
        }
      }
    }

    method RunSecond(gap: int, arrival: Arrival)
      modifies this
      ensures Contents() == CoreTick(old(Contents()), gap, arrival)
    {
      TickClock();
      TickTemporary();
      TickTraffic(gap);
      TickVehicles(arrival);
    }

    /** One second of the core loop. While nothing disturbs the cycle, it takes one second from the time ahead,
        and a cycle that starts adds its 44. */
    method TickSecond(gap: int, arrival: Arrival)
      requires Valid()
      modifies this
      ensures Valid() && Safe() && Contents() == CoreTick(old(Contents()), gap, arrival)
      ensures old(LocalCycle.Steady(Contents())) && LocalCycle.Steady(Contents()) ==>
                LocalCycle.Accounted(old(Contents()), Contents(), 1)
      ensures LocalSecond.SecondDone(old(Contents()), Contents(), gap, arrival)
    {
      ghost var s := Contents();
      RunSecond(gap, arrival);
      CoreTickOk(s, gap, arrival);
      LocalSecond.ClockStep(s, Tick(gap, arrival));
      LocalSecond.SecondActs(s, gap, arrival);
      SignalsAreSafe(signals);
      if LocalCycle.Steady(s) && LocalCycle.Steady(Contents()) {
        LocalCycle.AheadStep(s, Tick(gap, arrival));
      }
    }

    method ForgetInputs(gap: int)
      modifies this
      ensures Contents() == ResetInputs(old(Contents()), gap)
    {
      demand := Demand(0, 0, false, false, false);
      signals := signals.(nsWalk := false, ewWalk := false);
      control := control.(manual := false, tempRemaining := 0, coordPending := false, coordOffset := 0);
      railway := railway.(pending := false, active := false, passRemaining := 0);
      railway := railway.(waitingForClear := false, recovery := 0, nextTrain := gap);
      plan := plan.(extraNs := 0, extraEw := 0);
      simRunning := true;
    }

    method RestartDemo(gap: int)
      modifies this
      ensures Contents() == ResetDemo(old(Contents()), gap)
    {
      ForgetInputs(gap);
      ApplyTime();
      BeginCycle();
    }

    /** The console reset starts the initial phase with no train and no carried time. */
    method Reset(gap: int)
      requires Valid()
      modifies this
      ensures Valid() && Safe() && Contents() == ResetDemo(old(Contents()), gap)
      ensures signals.phase == initialPhase && railway.Idle() && plan.extraNs == plan.extraEw == 0
    {
      ghost var s := Contents();
      RestartDemo(gap);
      ResetOk(s, gap);
      ResetStarts(s, gap);
      LocalSecond.ClockStep(s, ConsoleReset(gap));
      SignalsAreSafe(signals);
    }

    // ----- commands and sensors -----

    /** A mode command; one that does not fit its action is refused. */
    method CommandMode(action: ModeAction, mode: Mode, duration: nat)
      modifies this`control
      ensures control == ModeCommand(old(control), action, mode, duration)
    {
      if !mode.Fixed? && !mode.Sensor? {
        return;
      }
      if action.SetMode? && duration == 0 {
        control := control.(mode := mode, manual := true);
        control := control.(tempRemaining := 0);
      } else if action.Temporary? && duration > 0 {
        if control.tempRemaining <= 0 {
          control := control.(returnMode := control.mode, returnManual := control.manual);
        }
        control := control.(mode := mode, manual := true);
        control := control.(tempRemaining := duration);
      } else if action.Revert? && duration == 0 {
        if control.tempRemaining > 0 {
          control := control.(mode := control.returnMode, manual := control.returnManual);
          control := control.(tempRemaining := 0);
        }
        if control.mode.Failsafe? {
          control := control.(mode := Fixed);
        }
      }
    }

    method AskCoordination(base: Phase, offset: nat)
      modifies this`control
      ensures control == Coordinate(old(control), base, offset)
    {
      if offset < FixedCycleSeconds() && (base.NsGreen? || base.EwGreen?) {
        control := control.(mode := Fixed, manual := true);
        control := control.(coordPhase := base, coordOffset := offset);
        control := control.(coordPending := true);
      }
    }

    method ReportCars(road: Road, cars: nat)
      modifies this`demand
      ensures demand == SensorUpdate(old(demand), road, cars)
    {
      if cars <= MAX_SENSOR_CARS {
        demand := demand.(manualSensor := true);
        if road.NS? {
          demand := demand.(nsCars := cars);
        } else {
          demand := demand.(ewCars := cars);
        }
      }
    }

    method FlipSensor(road: Road)
      modifies this`demand
      ensures demand == ToggleSensor(old(demand), road)
    {
      demand := demand.(manualSensor := true);
      if road.NS? {
        demand := demand.(nsCars := if demand.nsCars >= SENSOR_CAR_THRESHOLD then 0 else DEMO_HIGH_CAR_COUNT);
      } else {
        demand := demand.(ewCars := if demand.ewCars >= SENSOR_CAR_THRESHOLD then 0 else DEMO_HIGH_CAR_COUNT);
      }
    }

    method SetTime(seconds: int, gap: int)
      modifies this`control, this`demand, this`simSeconds, this`railway
      ensures Contents() == SetSimSeconds(old(Contents()), seconds, gap)
    {
      control := control.(manual := false);
      demand := demand.(manualSensor := false);
      simSeconds := seconds % SECONDS_PER_DAY;
      ApplyTime();
      railway := railway.(nextTrain := gap);
    }

    /** The inputs that do not touch the signals at once. */
    method HandleUnseen(input: Input)
      requires Unseen(input)
      modifies this
      ensures Contents() == Step(old(Contents()), input)
    {
      match input
      case SetModeInput(action, mode, duration) => CommandMode(action, mode, duration);
      case CoordinateInput(base, offset) => AskCoordination(base, offset);
      case SensorInput(road, cars) => ReportCars(road, cars);
      case SimStart(gap) =>
        simRunning := true;
        railway := railway.(nextTrain := gap);
      case SimStop => simRunning := false;
      case SimTime(seconds, gap) => SetTime(seconds, gap);
      case LinkUp(train) => railway := railway.(connected := train);
      case ToggleMode =>
        control := control.(manual := true, mode := if control.mode.Fixed? then Sensor else Fixed);
      case ToggleSensorInput(road) => FlipSensor(road);
    }

    method Dispatch(input: Input)
      requires Valid()
      modifies this
      ensures Contents() == Step(old(Contents()), input)
    {
      match input
      case Tick(gap, arrival) => TickSecond(gap, arrival);
      case Preempt(eta) => PreemptMessage(eta);
      case Clear => ClearRailway();
      case Button(road) => PressButton(road);
      case DemoTrain => StartTrain(false, 0);
      case ConsoleClear => ClearRailway();
      case ConsoleReset(gap) => Reset(gap);
      case _ => HandleUnseen(input);
    }

    /** Any input keeps the core valid and its signals safe, and all but the console reset end a Green only in
        Yellow. */
    method Handle(input: Input)
      requires Valid()
      modifies this
      ensures Valid() && Safe() && Contents() == Step(old(Contents()), input)
      ensures !input.ConsoleReset? ==> LocalHold.EndsInYellow(old(Contents()), Contents())
    {
      ghost var s := Contents();
      Dispatch(input);
      StepOk(s, input);
      LocalSecond.ClockStep(s, input);
      SignalsAreSafe(signals);
      if !input.ConsoleReset? {
        LocalHold.StepGap(s, input, NS, 0);
      }
    }
  }

  lemma ResetStarts(s: State, gap: int)
    requires Inv(s)
    ensures var r := ResetDemo(s, gap);
            r.signals.phase == r.initialPhase && r.railway.Idle() && r.plan.extraNs == r.plan.extraEw == 0
  {
  }
}
