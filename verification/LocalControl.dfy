/** What the messages of Central and Train, the buttons and the console do to an intersection, and how long a
    temporary mode lasts. */
module LocalControl {
  import opened LocalSpec
  import opened LocalSafety
  import opened LocalHold
  import opened LocalTrains
  import opened LocalSecond

  // ----- the start -----

  /** I1, I4 and I5 start with EW, I2, I3 and I6 with NS; all with 20 seconds at six in the morning. */
  lemma EachStartsWithItsRoad(id: nat, gap: int)
    ensures var s := Init(id, gap);
            && (s.signals.nsLight.Green? <==> id == 1 || id == 2 || id == 5)
            && (s.signals.ewLight.Green? <==> !s.signals.nsLight.Green?) && s.initialPhase == s.signals.phase
            && s.signals.timeRemaining == s.signals.duration == 20 && s.plan == Plan(20, 20, true, 0, 0)
            && s.railway == Railway(false, false, false, 0, 0, gap, false)
            && s.simRunning && s.simSeconds == 21600 && s.demand == Demand(0, 0, false, false, false)
            && s.control.mode.Sensor? && !s.control.manual && s.control.tempRemaining == 0 && !s.control.coordPending
  {
  }

  // ----- pedestrians -----

  /** The other road is red for the pedestrian, and its Green has more than ten seconds left. */
  predicate CanCut(g: Signals, road: Road) {
    (if road.NS? then g.phase.EwGreen? else g.phase.NsGreen?) && g.timeRemaining > 10
  }

  /** The next opposite Green can take no more: 30 seconds are planned for it, or held for it so that any plan
      of the next cycle can honour them. */
  predicate Full(s: State, p: Plan, road: Road) {
    if s.signals.phase == s.initialPhase then (if road.NS? then p.ns + p.extraNs else p.ew + p.extraEw) == 30
    else p.extraNs + p.extraEw == 20
  }

  /** A first request cuts the running Green to ten seconds, or by as much as the next opposite Green can take;
      what is cut is held for that Green, and nothing else changes. */
  predicate Pressed(s: State, road: Road, r: State) {
    var moved := s.signals.timeRemaining - r.signals.timeRemaining;
    && r == s.(signals := s.signals.(timeRemaining := s.signals.timeRemaining - moved, duration := s.signals.duration - moved),
               plan := if road.NS? then s.plan.(extraNs := s.plan.extraNs + moved) else s.plan.(extraEw := s.plan.extraEw + moved),
               demand := if road.NS? then s.demand.(nsRequest := true) else s.demand.(ewRequest := true))
    && if CanCut(s.signals, road)
       then moved >= 0 && r.signals.timeRemaining >= 10 && (r.signals.timeRemaining == 10 || Full(s, r.plan, road))
       else moved == 0
  }

  lemma WhatIsCut(s: State, road: Road)
    requires Inv(s) && CanCut(s.signals, road)
    ensures var p := if road.NS? then s.plan.(extraNs := s.plan.extraNs + Removable(s, road))
                     else s.plan.(extraEw := s.plan.extraEw + Removable(s, road));
            var left := s.signals.timeRemaining - Removable(s, road);
            0 <= Removable(s, road) && left >= 10 && (left == 10 || Full(s, p, road))
  {
  }

  lemma CutIsPressed(s: State, road: Road)
    requires Inv(s)
    ensures Pressed(s, road, CapGreen(s.(demand := if road.NS? then s.demand.(nsRequest := true)
                                                   else s.demand.(ewRequest := true)), road))
  {
    if CanCut(s.signals, road) {
      WhatIsCut(s, road);
    }
  }

  /** A repeated request changes nothing. */
  lemma FirstRequestCutsGreen(s: State, road: Road)
    requires Inv(s)
    ensures var r := Step(s, Button(road));
            if LocalCycle.Requested(s, road) then r == s else Pressed(s, road, r)
  {
    CutIsPressed(s, road);
  }

  // ----- trains -----

  /** A train is taken in: a Green is cut to a full Yellow, a running Yellow ends, and roads already held stay
      held; no pedestrian time is kept. */
  predicate TakenIn(s: State, waits: bool, seconds: int, r: State) {
    var held := s.signals.phase.RailwayHold?;
    && r == s.(railway := Railway(!held, held, waits, seconds, 0, 0, s.railway.connected),
               plan := s.plan.(extraNs := 0, extraEw := 0), signals := r.signals)
    && match s.signals.phase
       case NsGreen => r.signals == Signals(NsYellow, 2, 2, Yellow, Red, false, false)
       case EwGreen => r.signals == Signals(EwYellow, 2, 2, Red, Yellow, false, false)
       case RailwayHold => r.signals == Signals(RailwayHold, 0, 0, Red, Red, false, false)
       case _ => r.signals == s.signals
  }

  /** A PREEMPT over a train changes what is waited for, and how long. */
  predicate TakenOver(s: State, seconds: int, r: State) {
    && r == s.(railway := s.railway.(waitingForClear := true, passRemaining := seconds, nextTrain := 0), signals := r.signals)
    && r.signals == if s.railway.pending then s.signals else Signals(RailwayHold, 0, 0, Red, Red, false, false)
  }

  /** A hold ends with two seconds of red and no pedestrian time kept. */
  predicate Released(s: State, r: State) {
    r == s.(railway := Railway(false, false, false, 0, 2, s.railway.nextTrain, s.railway.connected),
            plan := s.plan.(extraNs := 0, extraEw := 0), signals := Signals(RailwayHold, 2, 2, Red, Red, false, false))
  }

  predicate HasTrain(s: State) {
    s.railway.pending || s.railway.active
  }

  lemma TrainsComeAndGo(s: State, eta: int, clear: Input)
    requires Inv(s) && (clear.Clear? || clear.ConsoleClear?)
    ensures var seconds, r := if eta < 0 then 0 else eta, Step(s, Preempt(eta));
            if HasTrain(s) then TakenOver(s, seconds, r) else TakenIn(s, true, seconds, r)
    ensures if HasTrain(s) then Step(s, DemoTrain) == s else TakenIn(s, false, 10, Step(s, DemoTrain))
    ensures if HasTrain(s) then Released(s, Step(s, clear)) else Step(s, clear) == s
  {
  }

  /** The console reset: the first Green of a plan without cars, no train, the mode of the clock. */
  lemma ResetStartsAfresh(s: State, gap: int)
    requires Inv(s)
    ensures var r := Step(s, ConsoleReset(gap));
            && r.initialPhase == s.initialPhase == r.signals.phase && Lamp(r.signals, InitialRoad(s)).Green?
            && r.signals.timeRemaining == r.signals.duration == 20 && r.plan == Plan(20, 20, true, 0, 0)
            && r.railway == Railway(false, false, false, 0, 0, gap, s.railway.connected)
            && r.demand == Demand(0, 0, false, false, false) && r.simRunning && r.simSeconds == s.simSeconds
            && r.control == s.control.(mode := ClockMode(s.simSeconds), manual := false, tempRemaining := 0,
                                       coordPending := false, coordOffset := 0)
  {
  }

  // ----- commands and sensors -----

  /** A mode command. SetMode has no duration and ends a temporary mode; Temporary needs one, and saves what it
      replaces unless another temporary mode is in force; Revert has none and gives back what was saved. */
  predicate Commanded(c: Control, action: ModeAction, mode: Mode, seconds: nat, r: Control) {
    var accepted := (mode.Fixed? || mode.Sensor?) && (action.Temporary? <==> seconds > 0);
    && r.coordPending == c.coordPending && r.coordPhase == c.coordPhase && r.coordOffset == c.coordOffset
    && (!accepted ==> r == c)
    && (accepted && !action.Revert? ==> r.mode == mode && r.manual && r.tempRemaining == seconds)
    && (accepted && action.Temporary? && c.tempRemaining <= 0 ==> r.returnMode == c.mode && r.returnManual == c.manual)
    && (!action.Temporary? || c.tempRemaining > 0 ==> r.returnMode == c.returnMode && r.returnManual == c.returnManual)
    && (accepted && action.Revert? && c.tempRemaining > 0 ==>
          r.mode == c.returnMode && r.manual == c.returnManual && r.tempRemaining == 0)
    && (accepted && action.Revert? && c.tempRemaining <= 0 ==> r == c)
  }

  /** A coordination is accepted with an offset within the 44 seconds of the cycle, fixes the mode and waits. */
  predicate Coordinated(c: Control, base: Phase, offset: nat, r: Control) {
    if offset < 44 && IsGreen(base)
    then r == c.(mode := Fixed, manual := true, coordPending := true, coordPhase := base, coordOffset := offset)
    else r == c
  }

  /** Cars of a road set by hand. */
  predicate CarsSet(d: Demand, road: Road, cars: int, r: Demand) {
    && r == d.(manualSensor := true, nsCars := r.nsCars, ewCars := r.ewCars)
    && r.nsCars == (if road.NS? then cars else d.nsCars) && r.ewCars == (if road.EW? then cars else d.ewCars)
  }

  lemma CommandsSetMode(s: State, action: ModeAction, mode: Mode, seconds: nat, base: Phase, offset: nat)
    requires Inv(s)
    ensures var r := Step(s, SetModeInput(action, mode, seconds));
            r == s.(control := r.control) && Commanded(s.control, action, mode, seconds, r.control)
    ensures var r := Step(s, CoordinateInput(base, offset));
            r == s.(control := r.control) && Coordinated(s.control, base, offset, r.control)
    ensures Step(s, ToggleMode) == s.(control := s.control.(manual := true,
                                                            mode := if s.control.mode.Fixed? then Sensor else Fixed))
  {
  }

  /** At most twelve cars are reported; the console switches between no cars and six. */
  lemma SensorsSetCars(s: State, road: Road, cars: nat)
    ensures var r := Step(s, SensorInput(road, cars));
            if cars <= 12 then r == s.(demand := r.demand) && CarsSet(s.demand, road, cars, r.demand) else r == s
    ensures var r := Step(s, ToggleSensorInput(road));
            && r == s.(demand := r.demand)
            && CarsSet(s.demand, road, if (if road.NS? then s.demand.nsCars else s.demand.ewCars) >= 5 then 0 else 6, r.demand)
  {
  }

  /** The simulation: start and stop, the time of day, which gives mode and sensors back to the clock, and the
      connection to Train. */
  lemma SimulationInputs(s: State, seconds: int, gap: int, train: bool)
    requires Inv(s) && 0 <= seconds < 86400
    ensures Step(s, SimStart(gap)) == s.(simRunning := true, railway := s.railway.(nextTrain := gap))
    ensures Step(s, SimStop) == s.(simRunning := false)
    ensures Step(s, LinkUp(train)) == s.(railway := s.railway.(connected := train))
    ensures Step(s, SimTime(seconds, gap)) ==
            s.(simSeconds := seconds, railway := s.railway.(nextTrain := gap), demand := s.demand.(manualSensor := false),
               control := s.control.(manual := false, mode := ClockMode(seconds)))
  {
  }

  // ----- a temporary mode -----

  /** The inputs that replace the mode in force. */
  predicate Overrides(input: Input) {
    || input.SetModeInput? || input.CoordinateInput? || input.ToggleMode? || input.SimTime? || input.ConsoleReset?
  }

  predicate NoneOverrides(inputs: seq<Input>) {
    forall i :: 0 <= i < |inputs| ==> !Overrides(inputs[i])
  }

  /** A temporary mode with `left` seconds to go and what it gives back. */
  predicate Temporarily(s: State, mode: Mode, left: int, back: Mode, backManual: bool) {
    var c := s.control;
    c.mode == mode && c.manual && c.tempRemaining == left && c.returnMode == back && c.returnManual == backManual
  }

  lemma TemporaryStep(s: State, input: Input, mode: Mode, left: int, back: Mode, backManual: bool)
    requires Inv(s) && ClockOk(s) && !Overrides(input) && Temporarily(s, mode, left, back, backManual)
    requires left > if input.Tick? then 1 else 0
    ensures Temporarily(Step(s, input), mode, if input.Tick? then left - 1 else left, back, backManual)
  {
    match input
    case Tick(gap, arrival) => EverySecondSetsMode(s, gap, arrival);
    case Preempt(eta) =>
    case Button(road) =>
    case DemoTrain =>
    case Clear =>
    case ConsoleClear =>
    case _ =>
  }

  lemma {:induction false} TemporaryRun(s: State, inputs: seq<Input>, mode: Mode, left: int, back: Mode, backManual: bool)
    requires Inv(s) && ClockOk(s) && NoneOverrides(inputs) && Temporarily(s, mode, left, back, backManual)
    requires Ticks(inputs) < left
    ensures var r := Run(s, inputs);
            Inv(r) && ClockOk(r) && Temporarily(r, mode, left - Ticks(inputs), back, backManual)
    decreases |inputs|
  {
    if inputs != [] {
      var k := |inputs| - 1;
      TemporaryRun(s, inputs[..k], mode, left, back, backManual);
      assert !Overrides(inputs[k]);
      var p := Run(s, inputs[..k]);
      TemporaryStep(p, inputs[k], mode, left - Ticks(inputs[..k]), back, backManual);
      StepOk(p, inputs[k]);
      ClockStep(p, inputs[k]);
    }
  }

  /** A temporary mode accepted in any reachable state is in force until its last second, and that second gives
      back the mode it replaced: an operator's own, or the clock's. */
  lemma TemporaryModeEnds(id: nat, gap: int, before: seq<Input>, mode: Mode, seconds: nat, during: seq<Input>,
                          next: int, arrival: Arrival)
    requires (mode.Fixed? || mode.Sensor?) && seconds > 0 && NoneOverrides(during) && Ticks(during) < seconds
    ensures var s := Run(Init(id, gap), before);
            var t := Run(Step(s, SetModeInput(Temporary, mode, seconds)), during);
            var r := Step(t, Tick(next, arrival)).control;
            var first := s.control.tempRemaining <= 0;
            var back := if first then s.control.mode else s.control.returnMode;
            var backManual := if first then s.control.manual else s.control.returnManual;
            && t.control.mode == mode && t.control.manual
            && (Ticks(during) < seconds - 1 ==> r.mode == mode && r.manual)
            && (Ticks(during) == seconds - 1 ==>
                  r.tempRemaining == 0 && r.manual == backManual
                  && r.mode == if backManual then back else ClockMode(Step(t, Tick(next, arrival)).simSeconds))
  {
    var s := Run(Init(id, gap), before);
    var c := Step(s, SetModeInput(Temporary, mode, seconds));
    InitOk(id, gap);
    RunOk(Init(id, gap), before);
    ClockRun(id, gap, before);
    CommandsSetMode(s, Temporary, mode, seconds, NsGreen, 0);
    StepOk(s, SetModeInput(Temporary, mode, seconds));
    TemporaryRun(c, during, mode, seconds, c.control.returnMode, c.control.returnManual);
    EverySecondSetsMode(Run(c, during), next, arrival);
  }
}
