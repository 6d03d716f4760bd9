/** Timing of the undisturbed cycle: length, the pedestrian time moved between Greens, how long a
    pedestrian waits, and what a coordination jump aims at. */
module LocalCycle {
  import opened LocalSpec
  import opened LocalSafety

  /** No train, no recovery and no coordination under way. */
  predicate Steady(s: State) {
    s.railway.Idle() && !s.control.coordPending
  }

  /** A run without the console reset that is steady from beginning to end. */
  predicate Undisturbed(s: State, inputs: seq<Input>)
    decreases |inputs|
  {
    var k := |inputs| - 1;
    Steady(Run(s, inputs)) && (inputs == [] || (!inputs[k].ConsoleReset? && Undisturbed(s, inputs[..k])))
  }

  /** What a tick between two idle states does to the signals is one road tick. */
  lemma IdleTick(s: State, gap: int, arrival: Arrival)
    requires Inv(s) && s.railway.Idle() && CoreTick(s, gap, arrival).railway.Idle()
    ensures var b, r := BeforeTraffic(s), CoreTick(s, gap, arrival);
            && Inv(b) && Background(s, b) && b.railway.Idle() && Coordination(b.control) == Coordination(s.control)
            && Background(RoadTick(b), r) && r.control == RoadTick(b).control
  {
    BeforeTrafficParts(s);
    BeforeTrafficOk(s);
    var b := BeforeTraffic(s);
    VehiclesAreBackground(TrafficTick(b, gap), arrival);
    if TrainStarts(s) {
      assert TrafficTick(b, gap).railway == CoreTick(s, gap, arrival).railway.(
        nextTrain := TrafficTick(b, gap).railway.nextTrain, connected := TrafficTick(b, gap).railway.connected);
      TrainNotIdle(b, gap);
    }
  }

  lemma SteadyTick(s: State, gap: int, arrival: Arrival)
    requires Inv(s) && Steady(s) && Steady(CoreTick(s, gap, arrival))
    ensures var b := BeforeTraffic(s);
            Inv(b) && Background(s, b) && Steady(b) && Background(RoadTick(b), CoreTick(s, gap, arrival))
  {
    IdleTick(s, gap, arrival);
  }

  lemma TrainNotIdle(s: State, gap: int)
    requires Inv(s) && !s.railway.Idle() && s.railway.recovery <= 0
    ensures !TrafficTick(s, gap).railway.Idle()
  {
  }

  /** Any other input of an undisturbed run is a button or is not seen on the road. */
  lemma SteadyInput(s: State, input: Input)
    requires Inv(s) && Steady(s) && Steady(Step(s, input)) && !input.ConsoleReset? && !input.Tick?
    ensures if input.Button? then Step(s, input) == AddRequest(s, input.road) else Background(s, Step(s, input))
  {
    if Unseen(input) {
      UnseenIsBackground(s, input);
    }
  }

  lemma {:induction false} UndisturbedStart(s: State, inputs: seq<Input>)
    requires Undisturbed(s, inputs)
    ensures Steady(s)
    decreases |inputs|
  {
    if inputs != [] {
      UndisturbedStart(s, inputs[..|inputs| - 1]);
    }
  }

  lemma LastStep(s: State, inputs: seq<Input>)
    requires inputs != [] && Inv(s) && Undisturbed(s, inputs)
    ensures var k := |inputs| - 1; var p := Run(s, inputs[..k]);
            Inv(p) && Steady(p) && Steady(Step(p, inputs[k])) && !inputs[k].ConsoleReset? && Undisturbed(s, inputs[..k])
  {
    RunOk(s, inputs[..|inputs| - 1]);
  }

  // ----- conservation of the cycle time -----

  function CycleSeconds(): int {
    2 * GREEN_BASE_SEC + 2 * YELLOW_SEC
  }

  /** The seconds to the end of the cycle, and those carried over to the next one. */
  function Ahead(s: State): int {
    var first := FirstHalf(s.initialPhase, s.signals.phase);
    s.signals.timeRemaining
    + (if IsGreen(s.signals.phase) then YELLOW_SEC else 0)
    + (if first then SecondGreen(s.initialPhase, s.plan) + SecondExtra(s.initialPhase, s.plan) + YELLOW_SEC
       else FirstExtra(s.initialPhase, s.plan))
  }

  predicate CycleStart(s: State, r: State) {
    s.signals.phase != s.initialPhase && r.signals.phase == r.initialPhase
  }

  /** The time held for the initial phase when its Green starts. */
  function Carry(s: State): int {
    s.signals.timeRemaining - FirstGreen(s.initialPhase, s.plan)
  }

  lemma AheadAtStart(s: State, road: Road)
    requires Inv(s) && Steady(s) && GreenPhase(road) == s.initialPhase
    requires if road.NS? then s.signals.phase.EwYellow? else s.signals.phase.NsYellow?
    ensures var r := StartGreen(s, road);
            && Carry(r) == FirstExtra(s.initialPhase, s.plan) && 0 <= Carry(r) <= GREEN_MAX_SEC - GREEN_MIN_SEC
            && Ahead(r) == CycleSeconds() + Carry(r)
  {
    NextPlanOk(s, road);
    GreenStartsWhole(s, road);
  }

  lemma AheadAtSecond(s: State, road: Road)
    requires Inv(s) && Steady(s) && GreenPhase(road) != s.initialPhase
    requires if road.NS? then s.signals.phase.EwYellow? else s.signals.phase.NsYellow?
    ensures Ahead(StartGreen(s, road)) == Ahead(s) - s.signals.timeRemaining
  {
    NextPlanOk(s, road);
    GreenStartsWhole(s, road);
  }

  /** The account of one step that takes `seconds`: a new cycle adds its length and keeps the carried time. */
  predicate Accounted(s: State, r: State, seconds: int) {
    && Ahead(r) == Ahead(s) - seconds + (if CycleStart(s, r) then CycleSeconds() else 0)
    && (CycleStart(s, r) ==> Ahead(r) == CycleSeconds() + Carry(r) && 0 <= Carry(r) <= GREEN_MAX_SEC - GREEN_MIN_SEC)
  }

  lemma AheadAtYellowEnd(s: State, road: Road)
    requires Inv(s) && Steady(s) && s.signals.timeRemaining == 1
    requires if road.NS? then s.signals.phase.EwYellow? else s.signals.phase.NsYellow?
    ensures Accounted(s, StartGreen(s, road), 1)
  {
    if GreenPhase(road) == s.initialPhase {
      AheadAtStart(s, road);
    } else {
      AheadAtSecond(s, road);
    }
  }

  lemma AheadCounts(s: State)
    requires Inv(s) && Steady(s) && (IsGreen(s.signals.phase) || s.signals.timeRemaining > 1)
    ensures Accounted(s, RoadTick(s), 1)
  {
  }

  /** One second of the road: the time ahead falls by one, or a whole cycle is added to it. */
  lemma AheadTick(s: State)
    requires Inv(s) && Steady(s)
    ensures Accounted(s, RoadTick(s), 1)
  {
    if IsGreen(s.signals.phase) || s.signals.timeRemaining > 1 {
      AheadCounts(s);
    } else {
      var p := UpdatePedestrian(UpdateLights(CountPhase(s)));
      var road := if s.signals.phase.EwYellow? then NS else EW;
      SameStart(s, p, road);
      AheadAtYellowEnd(s, road);
      assert RoadTick(s) == StartGreen(p, road);
    }
  }

  lemma SameStart(s: State, p: State, road: Road)
    requires p.plan == s.plan && p.initialPhase == s.initialPhase && p.control == s.control && p.railway == s.railway
    requires p.demand == s.demand.(nsRequest := p.demand.nsRequest, ewRequest := p.demand.ewRequest)
    ensures StartGreen(p, road).signals == StartGreen(s, road).signals && StartGreen(p, road).plan == StartGreen(s, road).plan
  {
  }

  /** A button moves time from the running Green to the next one and loses none. */
  lemma AheadButton(s: State, road: Road)
    requires Inv(s)
    ensures var r := AddRequest(s, road); Ahead(r) == Ahead(s) && r.signals.phase == s.signals.phase
  {
  }

  lemma AccountedBehind(s: State, b: State, r: State, t: State, seconds: int)
    requires Background(s, b) && Accounted(b, r, seconds) && Background(r, t)
    ensures Accounted(s, t, seconds)
  {
  }

  lemma AheadStep(s: State, input: Input)
    requires Inv(s) && Steady(s) && Steady(Step(s, input)) && !input.ConsoleReset?
    ensures Accounted(s, Step(s, input), if input.Tick? then 1 else 0)
  {
    if input.Tick? {
      SteadyTick(s, input.gap, input.arrival);
      var b := BeforeTraffic(s);
      AheadTick(b);
      AccountedBehind(s, b, RoadTick(b), Step(s, input), 1);
    } else {
      SteadyInput(s, input);
      if input.Button? {
        AheadButton(s, input.road);
      }
    }
  }

  /** How many cycles start in a run. */
  function Starts(s: State, inputs: seq<Input>): nat
    decreases |inputs|
  {
    if inputs == [] then 0
    else
      var k := |inputs| - 1;
      var p := Run(s, inputs[..k]);
      Starts(s, inputs[..k]) + if CycleStart(p, Step(p, inputs[k])) then 1 else 0
  }

  /** The cycle time is conserved, whatever sensors, mode changes and buttons do. */
  lemma {:induction false} CycleTimeConserved(s: State, inputs: seq<Input>)
    requires Inv(s) && Undisturbed(s, inputs)
    ensures Ticks(inputs) + Ahead(Run(s, inputs)) == Ahead(s) + CycleSeconds() * Starts(s, inputs)
    decreases |inputs|
  {
    if inputs != [] {
      var k := |inputs| - 1;
      LastStep(s, inputs);
      CycleTimeConserved(s, inputs[..k]);
      AheadStep(Run(s, inputs[..k]), inputs[k]);
      assert CycleSeconds() == 44;
    }
  }

  /** From the start of one cycle to the start of the n-th after it, exactly 44n ticks pass, more by what
      was carried into the first and less by what is carried into the last, both at most 20. */
  lemma CyclesTakeExactly(s: State, first: Input, inputs: seq<Input>, last: Input)
    requires Inv(s) && Steady(s) && !first.ConsoleReset? && CycleStart(s, Step(s, first))
    requires Undisturbed(Step(s, first), inputs + [last])
    requires CycleStart(Run(Step(s, first), inputs), Run(Step(s, first), inputs + [last]))
    ensures var a := Step(s, first);
            var b := Run(a, inputs + [last]);
            && Ticks(inputs + [last]) == CycleSeconds() * Starts(a, inputs + [last]) + Carry(a) - Carry(b)
            && 0 <= Carry(a) <= GREEN_MAX_SEC - GREEN_MIN_SEC && 0 <= Carry(b) <= GREEN_MAX_SEC - GREEN_MIN_SEC
  {
    var a := Step(s, first);
    var all := inputs + [last];
    UndisturbedStart(a, all);
    assert all[..|inputs|] == inputs;
    AheadStep(s, first);
    StepOk(s, first);
    CycleTimeConserved(a, all);
    LastStep(a, all);
    AheadStep(Run(a, inputs), last);
  }

  // ----- the length of a Green -----

  /** `n` seconds into a Green of an undisturbed run. */
  predicate Into(s: State, n: nat) {
    IsGreen(s.signals.phase) && s.signals.duration - s.signals.timeRemaining == n && s.signals.duration >= GREEN_MIN_SEC
  }

  lemma GreenStart(s: State)
    requires Inv(s) && Steady(s) && !IsGreen(s.signals.phase) && IsGreen(RoadTick(s).signals.phase)
    ensures Into(RoadTick(s), 0)
  {
    var p := UpdatePedestrian(UpdateLights(CountPhase(s)));
    if p.signals.timeRemaining <= 0 {
      var road := if s.signals.phase.EwYellow? then NS else EW;
      SameStart(s, p, road);
      GreenStartsWhole(s, road);
    }
  }

  lemma GreenGoesOn(s: State, input: Input, n: nat)
    requires Inv(s) && Steady(s) && Steady(Step(s, input)) && !input.ConsoleReset? && Into(s, n)
    ensures var r := Step(s, input);
            if r.signals.phase == s.signals.phase then Into(r, if input.Tick? then n + 1 else n)
            else input.Tick? && n + 1 == s.signals.duration
  {
    if input.Tick? {
      SteadyTick(s, input.gap, input.arrival);
    } else {
      SteadyInput(s, input);
    }
  }

  lemma {:induction false} GreenRun(s: State, inputs: seq<Input>)
    requires Inv(s) && Into(s, 0) && Undisturbed(s, inputs)
    requires forall i :: 0 <= i <= |inputs| ==> Run(s, inputs[..i]).signals.phase == s.signals.phase
    ensures Into(Run(s, inputs), Ticks(inputs))
    decreases |inputs|
  {
    if inputs != [] {
      var k := |inputs| - 1;
      LastStep(s, inputs);
      forall i | 0 <= i <= k
        ensures Run(s, inputs[..k][..i]).signals.phase == s.signals.phase
      {
        assert inputs[..k][..i] == inputs[..i];
      }
      GreenRun(s, inputs[..k]);
      assert inputs[..|inputs|] == inputs;
      GreenGoesOn(Run(s, inputs[..k]), inputs[k], Ticks(inputs[..k]));
    }
  }

  /** Every Green that starts and ends in an undisturbed run lasts 10 to 30 ticks. */
  lemma GreensLastTenToThirty(s: State, start: Input, during: seq<Input>, leave: Input)
    requires Inv(s) && Steady(s) && !start.ConsoleReset? && !IsGreen(s.signals.phase)
    requires Undisturbed(Step(s, start), during + [leave]) && IsGreen(Step(s, start).signals.phase)
    requires forall i :: 0 <= i <= |during| ==> Run(Step(s, start), during[..i]).signals.phase == Step(s, start).signals.phase
    requires Run(Step(s, start), during + [leave]).signals.phase != Step(s, start).signals.phase
    ensures GREEN_MIN_SEC <= Ticks(during + [leave]) <= GREEN_MAX_SEC
  {
    var a := Step(s, start);
    var all := during + [leave];
    UndisturbedStart(a, all);
    assert all[..|during|] == during && all[|during|] == leave;
    assert during[..|during|] == during;
    StepOk(s, start);
    if start.Tick? {
      SteadyTick(s, start.gap, start.arrival);
      GreenStart(BeforeTraffic(s));
    } else {
      SteadyInput(s, start);
      AheadButton(s, NS);
      AheadButton(s, EW);
    }
    LastStep(a, all);
    GreenRun(a, during);
    GreenGoesOn(Run(a, during), leave, Ticks(during));
  }

  // ----- how long a pedestrian waits -----

  predicate Requested(s: State, road: Road) {
    if road.NS? then s.demand.nsRequest else s.demand.ewRequest
  }

  predicate Walk(s: State, road: Road) {
    if road.NS? then s.signals.nsWalk else s.signals.ewWalk
  }

  /** An upper bound on the ticks to the next WALK across `road`. */
  function Wait(g: Signals, road: Road): int {
    if g.phase == GreenPhase(OtherRoad(road)) then
      if g.timeRemaining > PED_WALK_END_SEC + 1 then 1
      else g.timeRemaining + YELLOW_SEC + GREEN_MAX_SEC + YELLOW_SEC + 1
    else if g.phase == YellowOf(OtherRoad(road)) then g.timeRemaining + GREEN_MAX_SEC + YELLOW_SEC + 1
    else if g.phase == GreenPhase(road) then g.timeRemaining + YELLOW_SEC + 1
    else g.timeRemaining + 1
  }

  const MAX_WAIT_SEC := 41

  lemma WaitBounded(s: State, road: Road)
    requires Inv(s) && Steady(s)
    ensures 1 <= Wait(s.signals, road) <= MAX_WAIT_SEC
  {
  }

  lemma WaitYellowEnd(s: State, next: Road, road: Road)
    requires Inv(s) && Steady(s) && Requested(s, road) && s.signals.timeRemaining == 1
    requires if next.NS? then s.signals.phase.EwYellow? else s.signals.phase.NsYellow?
    ensures Requested(StartGreen(s, next), road) && Wait(StartGreen(s, next).signals, road) < Wait(s.signals, road)
  {
    GreenStartsWhole(s, next);
  }

  lemma WaitTick(s: State, road: Road)
    requires Inv(s) && Steady(s) && Requested(s, road)
    ensures var r := RoadTick(s);
            Walk(r, road) || (Requested(r, road) && Wait(r.signals, road) < Wait(s.signals, road))
  {
    var p := UpdatePedestrian(UpdateLights(CountPhase(s)));
    if p.signals.timeRemaining <= 0 && IsYellow(s.signals.phase) {
      var next := if s.signals.phase.EwYellow? then NS else EW;
      SameStart(s, p, next);
      WaitYellowEnd(s, next, road);
      assert RoadTick(s) == StartGreen(p, next);
    }
  }

  lemma WaitButton(s: State, button: Road, road: Road)
    requires Inv(s) && Steady(s) && Requested(s, road)
    ensures var r := AddRequest(s, button); Requested(r, road) && Wait(r.signals, road) <= Wait(s.signals, road)
  {
  }

  lemma WaitStep(s: State, input: Input, road: Road)
    requires Inv(s) && Steady(s) && Steady(Step(s, input)) && !input.ConsoleReset? && Requested(s, road)
    ensures var r := Step(s, input);
            || (input.Tick? && Walk(r, road))
            || (Requested(r, road) && Wait(r.signals, road) + (if input.Tick? then 1 else 0) <= Wait(s.signals, road))
  {
    if input.Tick? {
      SteadyTick(s, input.gap, input.arrival);
      WaitTick(BeforeTraffic(s), road);
    } else {
      SteadyInput(s, input);
      if input.Button? {
        WaitButton(s, input.road, road);
      }
    }
  }

  /** The i-th input of the run is a tick that lights WALK. */
  predicate ServedAt(s: State, inputs: seq<Input>, road: Road, i: int) {
    0 <= i < |inputs| && inputs[i].Tick? && Walk(Run(s, inputs[..i + 1]), road)
  }

  predicate NeverServed(s: State, inputs: seq<Input>, road: Road)
    decreases |inputs|
  {
    var k := |inputs| - 1;
    inputs == [] || (!(inputs[k].Tick? && Walk(Run(s, inputs), road)) && NeverServed(s, inputs[..k], road))
  }

  lemma {:induction false} ServedSometime(s: State, inputs: seq<Input>, road: Road)
    requires !NeverServed(s, inputs, road)
    ensures exists i :: ServedAt(s, inputs, road, i)
    decreases |inputs|
  {
    var k := |inputs| - 1;
    if inputs[k].Tick? && Walk(Run(s, inputs), road) {
      assert inputs[..k + 1] == inputs;
      assert ServedAt(s, inputs, road, k);
    } else {
      ServedSometime(s, inputs[..k], road);
      var i :| ServedAt(s, inputs[..k], road, i);
      assert inputs[..k][..i + 1] == inputs[..i + 1];
      assert ServedAt(s, inputs, road, i);
    }
  }

  lemma {:induction false} Waiting(s: State, inputs: seq<Input>, road: Road)
    requires Inv(s) && Undisturbed(s, inputs) && Requested(s, road) && NeverServed(s, inputs, road)
    ensures Requested(Run(s, inputs), road)
    ensures Ticks(inputs) + Wait(Run(s, inputs).signals, road) <= Wait(s.signals, road)
    decreases |inputs|
  {
    if inputs != [] {
      var k := |inputs| - 1;
      LastStep(s, inputs);
      Waiting(s, inputs[..k], road);
      WaitStep(Run(s, inputs[..k]), inputs[k], road);
    }
  }

  /** In an undisturbed run of 41 ticks every pending pedestrian request gets WALK. */
  lemma PedestriansAreServed(s: State, inputs: seq<Input>, road: Road)
    requires Inv(s) && Undisturbed(s, inputs) && Requested(s, road) && Ticks(inputs) >= MAX_WAIT_SEC
    ensures exists i :: ServedAt(s, inputs, road, i)
  {
    if NeverServed(s, inputs, road) {
      Waiting(s, inputs, road);
      UndisturbedStart(s, inputs);
      WaitBounded(s, road);
      RunOk(s, inputs);
      WaitBounded(Run(s, inputs), road);
    } else {
      ServedSometime(s, inputs, road);
    }
  }

  // ----- coordination -----

  /** The fixed cycle one second later. */
  function OneSecond(t: (Phase, int)): (Phase, int) {
    if t.1 > 1 then (t.0, t.1 - 1)
    else match t.0
      case NsGreen => (NsYellow, YELLOW_SEC)
      case NsYellow => (EwGreen, GREEN_BASE_SEC)
      case EwGreen => (EwYellow, YELLOW_SEC)
      case _ => (NsGreen, GREEN_BASE_SEC)
  }

  /** The fixed cycle, second by second from the start of a Green. */
  function Position(base: Phase, seconds: nat): (Phase, int) {
    if seconds == 0 then (base, GREEN_BASE_SEC) else OneSecond(Position(base, seconds - 1))
  }

  lemma NextTarget(base: Phase, offset: nat)
    requires IsGreen(base)
    ensures JumpTarget(base, offset + 1) == OneSecond(JumpTarget(base, offset))
  {
    assert FixedCycleSeconds() == 44;
    assert (offset + 1) % 44 == if offset % 44 == 43 then 0 else offset % 44 + 1;
  }

  /** The jump target is the position of the running cycle, for every offset. */
  lemma {:induction false} TargetIsPosition(base: Phase, offset: nat)
    requires IsGreen(base)
    ensures JumpTarget(base, offset) == Position(base, offset)
  {
    if offset > 0 {
      TargetIsPosition(base, offset - 1);
      NextTarget(base, offset - 1);
    }
  }

  /** The signals stand where the fixed cycle is `offset` seconds after its base Green. */
  predicate Aligned(s: State, base: Phase, offset: nat) {
    && (s.signals.phase, s.signals.timeRemaining) == Position(base, offset)
    && s.plan == Plan(GREEN_BASE_SEC, GREEN_BASE_SEC, true, 0, 0)
  }

  lemma AlignedTick(s: State, base: Phase, offset: nat)
    requires Inv(s) && Steady(s) && s.control.mode.Fixed? && Aligned(s, base, offset)
    ensures Aligned(RoadTick(s), base, offset + 1)
  {
  }

  /** Undisturbed ticks in fixed mode, without other inputs. */
  predicate FixedTicks(s: State, ticks: seq<Input>)
    decreases |ticks|
  {
    var k := |ticks| - 1;
    && Steady(Run(s, ticks)) && Run(s, ticks).control.mode.Fixed?
    && (ticks == [] || (ticks[k].Tick? && FixedTicks(s, ticks[..k])))
  }

  lemma AlignedStep(s: State, tick: Input, base: Phase, offset: nat)
    requires Inv(s) && tick.Tick? && Steady(s) && Steady(Step(s, tick)) && Step(s, tick).control.mode.Fixed?
    requires Aligned(s, base, offset)
    ensures Aligned(Step(s, tick), base, offset + 1)
  {
    SteadyTick(s, tick.gap, tick.arrival);
    FixedBefore(s, tick.gap, tick.arrival);
    AlignedTick(BeforeTraffic(s), base, offset);
  }

  lemma AlignedLast(s: State, base: Phase, ticks: seq<Input>, k: nat)
    requires Inv(s) && |ticks| == k + 1 && FixedTicks(s, ticks) && Aligned(Run(s, ticks[..k]), base, k)
    ensures Aligned(Run(s, ticks), base, k + 1)
  {
    RunOk(s, ticks[..k]);
    AlignedStep(Run(s, ticks[..k]), ticks[k], base, k);
  }

  lemma {:induction false} AlignedRun(s: State, base: Phase, ticks: seq<Input>, k: nat)
    requires Inv(s) && Aligned(s, base, 0) && |ticks| == k && FixedTicks(s, ticks)
    ensures Aligned(Run(s, ticks), base, k)
    decreases k
  {
    if k > 0 {
      AlignedRun(s, base, ticks[..k - 1], k - 1);
      AlignedLast(s, base, ticks, k - 1);
    }
  }

  /** The mode a tick ends with is the one its traffic step used. */
  lemma FixedBefore(s: State, gap: int, arrival: Arrival)
    requires Inv(s)
    ensures CoreTick(s, gap, arrival).control.mode == BeforeTraffic(s).control.mode
  {
    BeforeTrafficOk(s);
    VehiclesAreBackground(TrafficTick(BeforeTraffic(s), gap), arrival);
    TrafficKeepsMode(BeforeTraffic(s), gap);
  }

  lemma TrafficKeepsMode(s: State, gap: int)
    requires Inv(s)
    ensures TrafficTick(s, gap).control.mode == s.control.mode
  {
  }

  /** What a driver sees of the signals. */
  function View(g: Signals): (Phase, int, Light, Light) {
    (g.phase, g.timeRemaining, g.nsLight, g.ewLight)
  }

  lemma AlignedView(s: State, r: State, base: Phase, offset: nat)
    requires Inv(s) && Inv(r) && Aligned(s, base, offset) && Aligned(r, base, offset)
    ensures View(s.signals) == View(r.signals)
  {
  }

  lemma JumpAligned(s: State, base: Phase, offset: nat)
    requires IsGreen(base)
    ensures Aligned(CoordinationJump(s, base, offset), base, offset)
  {
    TargetIsPosition(base, offset);
  }

  /** The tick that takes up a pending coordination is the end of a Yellow, and lands on its target. */
  lemma JumpLands(s: State, gap: int)
    requires Inv(s) && s.control.coordPending && !TrafficTick(s, gap).control.coordPending
    ensures s.railway.Idle() && IsYellow(s.signals.phase) && s.signals.timeRemaining == 1
    ensures Aligned(TrafficTick(s, gap), s.control.coordPhase, s.control.coordOffset)
  {
    var p := UpdatePedestrian(UpdateLights(CountPhase(s)));
    JumpAligned(p, s.control.coordPhase, s.control.coordOffset);
  }

  // ----- from the request to the jump -----

  /** The inputs that replace or drop a coordination. */
  predicate Recoordinates(input: Input) {
    input.CoordinateInput? || input.ConsoleReset?
  }

  predicate NoneRecoordinates(inputs: seq<Input>) {
    forall i :: 0 <= i < |inputs| ==> !Recoordinates(inputs[i])
  }

  /** Base Green and offset of the last coordination. */
  function Target(c: Control): (Phase, nat) {
    (c.coordPhase, c.coordOffset)
  }

  lemma TrafficKeepsTarget(s: State, gap: int)
    ensures Target(TrafficTick(s, gap).control) == Target(s.control)
  {
  }

  lemma StepKeepsTarget(s: State, input: Input)
    requires !Recoordinates(input)
    ensures Target(Step(s, input).control) == Target(s.control)
  {
    if input.Tick? {
      BeforeTrafficParts(s);
      TrafficKeepsTarget(BeforeTraffic(s), input.gap);
      VehiclesAreBackground(TrafficTick(BeforeTraffic(s), input.gap), input.arrival);
    } else if Unseen(input) {
      UnseenIsBackground(s, input);
    }
  }

  lemma {:induction false} RunKeepsTarget(s: State, inputs: seq<Input>)
    requires NoneRecoordinates(inputs)
    ensures Target(Run(s, inputs).control) == Target(s.control)
    decreases |inputs|
  {
    if inputs != [] {
      var k := |inputs| - 1;
      RunKeepsTarget(s, inputs[..k]);
      StepKeepsTarget(Run(s, inputs[..k]), inputs[k]);
    }
  }

  lemma TickLands(s: State, gap: int, arrival: Arrival)
    requires Inv(s) && s.control.coordPending && !CoreTick(s, gap, arrival).control.coordPending
    ensures Aligned(CoreTick(s, gap, arrival), s.control.coordPhase, s.control.coordOffset)
  {
    BeforeTrafficParts(s);
    BeforeTrafficOk(s);
    VehiclesAreBackground(TrafficTick(BeforeTraffic(s), gap), arrival);
    JumpLands(BeforeTraffic(s), gap);
  }

  /** A coordination accepted in any state, whatever happens until the tick that takes it up, puts the signals
      where its offset says. */
  lemma CoordinationLands(s: State, base: Phase, offset: nat, during: seq<Input>, gap: int, arrival: Arrival)
    requires Inv(s) && IsGreen(base) && offset < FixedCycleSeconds() && NoneRecoordinates(during)
    ensures var p := Run(Step(s, CoordinateInput(base, offset)), during);
            var r := Step(p, Tick(gap, arrival));
            p.control.coordPending && !r.control.coordPending ==> Inv(r) && Aligned(r, base, offset)
  {
    var c := Step(s, CoordinateInput(base, offset));
    var p := Run(c, during);
    StepOk(s, CoordinateInput(base, offset));
    RunOk(c, during);
    RunKeepsTarget(c, during);
    StepOk(p, Tick(gap, arrival));
    if p.control.coordPending && !Step(p, Tick(gap, arrival)).control.coordPending {
      TickLands(p, gap, arrival);
    }
  }

  /** The tick that takes up a pending coordination, with any offset, shows the phase, remaining time and lamps
      that running the fixed cycle from the start of the base Green for as many seconds shows. */
  lemma JumpIsRunningAhead(s: State, gap: int, arrival: Arrival, start: State, ticks: seq<Input>)
    requires Inv(s) && s.control.coordPending && !CoreTick(s, gap, arrival).control.coordPending
    requires Inv(start) && Aligned(start, s.control.coordPhase, 0) && FixedTicks(start, ticks)
    requires |ticks| == s.control.coordOffset
    ensures View(CoreTick(s, gap, arrival).signals) == View(Run(start, ticks).signals)
  {
    var base := s.control.coordPhase;
    TickLands(s, gap, arrival);
    CoreTickOk(s, gap, arrival);
    AlignedRun(start, base, ticks, |ticks|);
    RunOk(start, ticks);
    AlignedView(CoreTick(s, gap, arrival), Run(start, ticks), base, |ticks|);
  }

  // ----- how soon -----

  /** A run that stays idle, without reset or another coordination. */
  predicate IdleRun(s: State, inputs: seq<Input>)
    decreases |inputs|
  {
    var k := |inputs| - 1;
    Run(s, inputs).railway.Idle() && (inputs == [] || (!Recoordinates(inputs[k]) && IdleRun(s, inputs[..k])))
  }

  const MAX_COORDINATION_SEC := GREEN_MAX_SEC + YELLOW_SEC

  /** Seconds to the end of the next Yellow. */
  function ToYellowEnd(g: Signals): int {
    g.timeRemaining + if IsGreen(g.phase) then YELLOW_SEC else 0
  }

  lemma NearerTick(s: State)
    requires Inv(s) && s.railway.Idle() && s.control.coordPending
    ensures var r := RoadTick(s);
            r.control.coordPending ==> ToYellowEnd(r.signals) == ToYellowEnd(s.signals) - 1
  {
  }

  lemma NearerInput(s: State, input: Input)
    requires Inv(s) && s.railway.Idle() && s.control.coordPending && !Recoordinates(input)
    requires Step(s, input).railway.Idle() && Step(s, input).control.coordPending
    ensures ToYellowEnd(Step(s, input).signals) + (if input.Tick? then 1 else 0) <= ToYellowEnd(s.signals)
  {
    match input
    case Tick(gap, arrival) =>
      IdleTick(s, gap, arrival);
      NearerTick(BeforeTraffic(s));
    case Preempt(eta) =>
    case Button(road) =>
    case DemoTrain =>
    case Clear =>
    case ConsoleClear =>
    case _ => UnseenIsBackground(s, input);
  }

  lemma PendingBefore(s: State, input: Input)
    requires !Recoordinates(input) && Step(s, input).control.coordPending
    ensures s.control.coordPending
  {
    if input.Tick? {
      BeforeTrafficParts(s);
      VehiclesAreBackground(TrafficTick(BeforeTraffic(s), input.gap), input.arrival);
      NoNewRequest(BeforeTraffic(s), input.gap);
    } else if Unseen(input) {
      UnseenIsBackground(s, input);
    }
  }

  lemma NoNewRequest(s: State, gap: int)
    ensures TrafficTick(s, gap).control.coordPending ==> s.control.coordPending
  {
  }

  lemma {:induction false} Nearer(s: State, inputs: seq<Input>)
    requires Inv(s) && IdleRun(s, inputs) && Run(s, inputs).control.coordPending
    ensures Ticks(inputs) + ToYellowEnd(Run(s, inputs).signals) <= ToYellowEnd(s.signals)
    decreases |inputs|
  {
    if inputs != [] {
      var k := |inputs| - 1;
      var p := Run(s, inputs[..k]);
      RunOk(s, inputs[..k]);
      PendingBefore(p, inputs[k]);
      Nearer(s, inputs[..k]);
      NearerInput(p, inputs[k]);
    }
  }

  lemma {:induction false} IdleFromStart(s: State, inputs: seq<Input>)
    requires IdleRun(s, inputs)
    ensures s.railway.Idle()
    decreases |inputs|
  {
    if inputs != [] {
      IdleFromStart(s, inputs[..|inputs| - 1]);
    }
  }

  /** A coordination is taken up within 32 idle ticks. */
  lemma CoordinationTakenUp(s: State, inputs: seq<Input>)
    requires Inv(s) && IdleRun(s, inputs) && Ticks(inputs) >= MAX_COORDINATION_SEC
    ensures !Run(s, inputs).control.coordPending
  {
    if Run(s, inputs).control.coordPending {
      Nearer(s, inputs);
      IdleFromStart(s, inputs);
      RunOk(s, inputs);
    }
  }
}
