/** What a road user sees of one intersection: how Green ends, how long the other road waits, and how
    a train holds both roads. */
module LocalHold {
  import opened LocalSpec
  import opened LocalSafety

  // ----- yellow between two greens -----

  /** `n` ticks after `road` left Green, the other road is still kept waiting for the rest of the two
      yellow seconds, by the Yellow itself, the train, or the recovery after it. */
  predicate Gap(s: State, road: Road, n: nat) {
    || n >= YELLOW_SEC
    || s.railway.pending || s.railway.active
    || (s.railway.recovery > 0 && n + s.railway.recovery >= YELLOW_SEC)
    || (s.signals.phase == YellowOf(road) && n + s.signals.timeRemaining >= YELLOW_SEC)
  }

  /** A Green may go on or become Yellow. */
  predicate EndsInYellow(s: State, r: State) {
    IsGreen(s.signals.phase) ==>
      r.signals.phase == s.signals.phase || r.signals.phase == if s.signals.phase.NsGreen? then NsYellow else EwYellow
  }

  /** Once `road` has left Green for its Yellow, the gap is open. */
  predicate Opens(s: State, r: State) {
    forall road: Road :: s.signals.phase == GreenPhase(road) && r.signals.phase != GreenPhase(road) ==> Gap(r, road, 0)
  }

  lemma StartTrainGap(s: State, waitForClear: bool, eta: int, road: Road, n: nat)
    requires Inv(s)
    ensures var r := StartTrainCommon(s, waitForClear, eta);
            EndsInYellow(s, r) && Opens(s, r) && (Gap(s, road, n) ==> Gap(r, road, n))
  {
  }

  /** A train keeps every gap open. */
  lemma RailwayTickGap(s: State, gap: int, road: Road, n: nat)
    requires Inv(s) && (s.railway.pending || s.railway.active)
    ensures Gap(TrafficTick(s, gap), road, n)
  {
  }

  lemma RoadTickGap(s: State, road: Road, n: nat)
    requires Inv(s) && s.railway.Idle()
    ensures var r := RoadTick(s);
            EndsInYellow(s, r) && Opens(s, r) && (Gap(s, road, n) ==> Gap(r, road, n + 1))
  {
  }

  lemma TrafficTickGap(s: State, gap: int, road: Road, n: nat)
    requires Inv(s)
    ensures var r := TrafficTick(s, gap);
            EndsInYellow(s, r) && Opens(s, r) && (Gap(s, road, n) ==> Gap(r, road, n + 1))
  {
    if s.railway.Idle() {
      RoadTickGap(s, road, n);
    } else if s.railway.recovery > 0 {
    } else if Gap(s, road, n) {
      RailwayTickGap(s, gap, road, n + 1);
    }
  }

  lemma BackgroundGap(s: State, r: State, road: Road, n: nat)
    requires Background(s, r)
    ensures EndsInYellow(s, r) && Opens(s, r) && (Gap(s, road, n) ==> Gap(r, road, n))
  {
  }

  lemma OrdinaryTickGap(s: State, gap: int, road: Road, n: nat)
    requires Inv(s) && !TrainStarts(s)
    ensures var r := TrafficTick(BeforeTraffic(s), gap);
            EndsInYellow(s, r) && Opens(s, r) && (Gap(s, road, n) ==> Gap(r, road, n + 1))
  {
    BeforeTrafficParts(s);
    BeforeTrafficOk(s);
    TrafficTickGap(BeforeTraffic(s), gap, road, n);
  }

  /** A tick that starts a simulated train on a Green counts the first yellow second at once; the train
      then keeps the gap open. */
  lemma TrainTickGap(s: State, gap: int, road: Road, n: nat)
    requires Inv(s) && TrainStarts(s)
    ensures var r := TrafficTick(BeforeTraffic(s), gap);
            EndsInYellow(s, r) && Opens(s, r) && Gap(r, road, n + 1)
  {
    BeforeTrafficParts(s);
    BeforeTrafficOk(s);
    var b := BeforeTraffic(s);
    BackgroundOk(s, Clocked(s));
    StartTrainGap(Clocked(s), false, 0, road, n);
    RailwayTickGap(b, gap, road, n + 1);
    RailwayTickGap(b, gap, NS, 0);
    RailwayTickGap(b, gap, EW, 0);
  }

  lemma TickGap(s: State, gap: int, arrival: Arrival, road: Road, n: nat)
    requires Inv(s)
    ensures var r := CoreTick(s, gap, arrival);
            EndsInYellow(s, r) && Opens(s, r) && (Gap(s, road, n) ==> Gap(r, road, n + 1))
  {
    if TrainStarts(s) {
      TrainTickGap(s, gap, road, n);
    } else {
      OrdinaryTickGap(s, gap, road, n);
    }
    VehiclesAreBackground(TrafficTick(BeforeTraffic(s), gap), arrival);
  }

  lemma ButtonGap(s: State, button: Road, road: Road, n: nat)
    requires Inv(s)
    ensures var r := AddRequest(s, button);
            EndsInYellow(s, r) && Opens(s, r) && (Gap(s, road, n) ==> Gap(r, road, n))
  {
  }

  /** Any input but the console reset ends a Green only in Yellow, and keeps the gap. */
  lemma StepGap(s: State, input: Input, road: Road, n: nat)
    requires Inv(s) && !input.ConsoleReset?
    ensures var r := Step(s, input);
            EndsInYellow(s, r) && Opens(s, r) && (Gap(s, road, n) ==> Gap(r, road, if input.Tick? then n + 1 else n))
  {
    match input
    case Tick(gap, arrival) => TickGap(s, gap, arrival, road, n);
    case Preempt(eta) => StartTrainGap(s, true, if eta < 0 then 0 else eta, road, n);
    case Button(button) => ButtonGap(s, button, road, n);
    case DemoTrain => StartTrainGap(s, false, 0, road, n);
    case Clear =>
    case ConsoleClear =>
    case _ =>
      UnseenIsBackground(s, input);
      BackgroundGap(s, Step(s, input), road, n);
  }

  lemma {:induction false} RunGap(s: State, inputs: seq<Input>, road: Road, n: nat)
    requires Inv(s) && NoReset(inputs) && Gap(s, road, n)
    ensures Gap(Run(s, inputs), road, n + Ticks(inputs))
    decreases |inputs|
  {
    if inputs != [] {
      var k := |inputs| - 1;
      RunGap(s, inputs[..k], road, n);
      RunOk(s, inputs[..k]);
      StepGap(Run(s, inputs[..k]), inputs[k], road, n + Ticks(inputs[..k]));
    }
  }

  /** In every run without the console reset a green lamp stays green or turns yellow. */
  lemma GreenTurnsYellow(id: nat, gap: int, inputs: seq<Input>, input: Input, road: Road)
    requires !input.ConsoleReset?
    requires Lamp(Run(Init(id, gap), inputs).signals, road).Green?
    ensures !Lamp(Run(Init(id, gap), inputs + [input]).signals, road).Red?
  {
    var s := Run(Init(id, gap), inputs);
    InitOk(id, gap);
    RunOk(Init(id, gap), inputs);
    RunAppend(Init(id, gap), inputs, [input]);
    StepOk(s, input);
    StepGap(s, input, road, 0);
    assert Run(s, [input]) == Step(Run(s, []), input);
  }

  /** When a road leaves Green at some step of a run, the other road has Green again only after two
      more ticks, through pre-emption, early clear and coordination, until the console reset. */
  lemma YellowSeparatesGreens(id: nat, gap: int, before: seq<Input>, leaving: Input, after: seq<Input>, road: Road)
    requires !leaving.ConsoleReset? && NoReset(after)
    requires Lamp(Run(Init(id, gap), before).signals, road).Green?
    requires !Lamp(Run(Init(id, gap), before + [leaving]).signals, road).Green?
    requires Lamp(Run(Init(id, gap), before + [leaving] + after).signals, OtherRoad(road)).Green?
    ensures Ticks(after) >= YELLOW_SEC
  {
    var s := Run(Init(id, gap), before);
    var r := Step(s, leaving);
    InitOk(id, gap);
    RunOk(Init(id, gap), before);
    RunAppend(Init(id, gap), before, [leaving]);
    assert Run(s, [leaving]) == Step(Run(s, []), leaving);
    StepOk(s, leaving);
    StepGap(s, leaving, road, 0);
    RunGap(r, after, road, 0);
    RunAppend(Init(id, gap), before + [leaving], after);
    RunOk(r, after);
  }

  // ----- the railway hold -----

  /** The inputs that end a hold. */
  predicate EndsHold(input: Input) {
    input.Clear? || input.ConsoleClear? || input.ConsoleReset?
  }

  /** Held for the railway: `n` ticks after the pre-emption, both roads are red or the Yellow has no more
      than the rest of two seconds to go. */
  predicate Held(s: State, n: nat) {
    && s.railway.waitingForClear
    && (s.railway.active || (s.railway.pending && n + s.signals.timeRemaining <= YELLOW_SEC))
  }

  lemma BackgroundHeld(s: State, r: State, n: nat)
    requires Background(s, r) && Held(s, n)
    ensures Held(r, n)
  {
  }

  lemma HoldTick(s: State, gap: int, n: nat)
    requires Inv(s) && Held(s, n)
    ensures Held(TrafficTick(s, gap), n + 1) && (s.railway.active ==> TrafficTick(s, gap).railway.active)
  {
  }

  lemma HeldStep(s: State, input: Input, n: nat)
    requires Inv(s) && Held(s, n) && !EndsHold(input)
    ensures Held(Step(s, input), if input.Tick? then n + 1 else n)
  {
    match input
    case Tick(gap, arrival) =>
      BeforeTrafficParts(s);
      BeforeTrafficOk(s);
      var b := BeforeTraffic(s);
      BackgroundHeld(s, b, n);
      HoldTick(b, gap, n);
      VehiclesAreBackground(TrafficTick(b, gap), arrival);
      BackgroundHeld(TrafficTick(b, gap), CoreTick(s, gap, arrival), n + 1);
    case Preempt(eta) =>
    case Button(road) =>
    case DemoTrain =>
    case _ =>
      UnseenIsBackground(s, input);
      BackgroundHeld(s, Step(s, input), n);
  }

  predicate NoneEndsHold(inputs: seq<Input>) {
    forall i :: 0 <= i < |inputs| ==> !EndsHold(inputs[i])
  }

  lemma HeldLast(p: State, input: Input, inputs: seq<Input>)
    requires Inv(p) && inputs != [] && input == inputs[|inputs| - 1] && !EndsHold(input)
    requires Held(p, Ticks(inputs[..|inputs| - 1]))
    ensures Held(Step(p, input), Ticks(inputs))
  {
    HeldStep(p, input, Ticks(inputs[..|inputs| - 1]));
  }

  lemma {:induction false} HeldRun(s: State, inputs: seq<Input>)
    requires Inv(s) && Held(s, 0) && NoneEndsHold(inputs)
    ensures Held(Run(s, inputs), Ticks(inputs))
    decreases |inputs|
  {
    if inputs != [] {
      var k := |inputs| - 1;
      HeldRun(s, inputs[..k]);
      RunOk(s, inputs[..k]);
      HeldLast(Run(s, inputs[..k]), inputs[k], inputs);
    }
  }

  /** A pre-emption is accepted in every state, also over a train simulated at the intersection. */
  lemma PreemptHolds(s: State, eta: int)
    requires Inv(s)
    ensures Held(StartTrainMessage(s, eta), 0)
  {
  }

  /** After a pre-emption in any reachable state, the intersection waits for CLEAR through any other
      inputs, and both roads are red from the second tick on. */
  lemma PreemptionHoldsBothRoads(id: nat, gap: int, before: seq<Input>, eta: int, after: seq<Input>)
    requires NoneEndsHold(after)
    ensures var s := Run(Init(id, gap), before + [Preempt(eta)] + after);
            && s.railway.waitingForClear && (s.railway.pending || s.railway.active)
            && (Ticks(after) >= YELLOW_SEC ==> s.signals.nsLight.Red? && s.signals.ewLight.Red?)
  {
    var s := Run(Init(id, gap), before);
    var r := Step(s, Preempt(eta));
    InitOk(id, gap);
    RunOk(Init(id, gap), before);
    RunAppend(Init(id, gap), before, [Preempt(eta)]);
    assert Run(s, [Preempt(eta)]) == Step(Run(s, []), Preempt(eta));
    RunAppend(Init(id, gap), before + [Preempt(eta)], after);
    StepOk(s, Preempt(eta));
    PreemptHolds(s, eta);
    HeldRun(r, after);
    RunOk(r, after);
  }

  // ----- recovery -----

  /** The inputs that interrupt a recovery. */
  predicate EndsRecovery(input: Input) {
    input.Preempt? || input.DemoTrain? || input.ConsoleReset?
  }

  predicate Recovering(s: State, left: nat) {
    s.railway.recovery == left && !s.railway.pending && !s.railway.active
  }

  lemma RecoveringStep(s: State, input: Input, left: nat)
    requires Inv(s) && !EndsRecovery(input) && Recovering(s, left)
    requires if input.Tick? then left > 1 else left > 0
    ensures Recovering(Step(s, input), if input.Tick? then left - 1 else left)
  {
    match input
    case Tick(gap, arrival) =>
      BeforeTrafficParts(s);
      BeforeTrafficOk(s);
      VehiclesAreBackground(TrafficTick(BeforeTraffic(s), gap), arrival);
    case Button(road) =>
    case Clear =>
    case ConsoleClear =>
    case _ => UnseenIsBackground(s, input);
  }

  lemma {:induction false} RecoveringRun(s: State, inputs: seq<Input>)
    requires Inv(s) && Recovering(s, RAILWAY_RECOVERY_SEC) && Ticks(inputs) < RAILWAY_RECOVERY_SEC
    requires forall i :: 0 <= i < |inputs| ==> !EndsRecovery(inputs[i])
    ensures Recovering(Run(s, inputs), RAILWAY_RECOVERY_SEC - Ticks(inputs))
    decreases |inputs|
  {
    if inputs != [] {
      var k := |inputs| - 1;
      RecoveringRun(s, inputs[..k]);
      RunOk(s, inputs[..k]);
      RecoveringStep(Run(s, inputs[..k]), inputs[k], RAILWAY_RECOVERY_SEC - Ticks(inputs[..k]));
    }
  }

  /** The last second of a recovery starts the initial phase on a plan without carried time. */
  lemma RecoveryEnds(s: State, gap: int, arrival: Arrival)
    requires Inv(s) && Recovering(s, 1)
    ensures var r := CoreTick(s, gap, arrival);
            && r.signals.phase == s.initialPhase == r.initialPhase && r.railway.Idle()
            && r.plan.extraNs == r.plan.extraEw == 0
            && r.signals.timeRemaining == r.signals.duration == GreenTime(r.control.mode, s.demand, InitialRoad(s))
  {
    BeforeTrafficParts(s);
    BeforeTrafficOk(s);
    var b := BeforeTraffic(s);
    assert b.signals == s.signals && b.railway.recovery == 1 && b.demand == s.demand;
    LastRecoveryTick(b, gap);
    VehiclesAreBackground(TrafficTick(b, gap), arrival);
  }

  lemma LastRecoveryTick(s: State, gap: int)
    requires Inv(s) && Recovering(s, 1)
    ensures var r := TrafficTick(s, gap);
            && r.signals.phase == s.initialPhase == r.initialPhase && r.railway.Idle() && r.control == s.control
            && r.plan.extraNs == r.plan.extraEw == 0
            && r.signals.timeRemaining == r.signals.duration == GreenTime(s.control.mode, s.demand, InitialRoad(s))
  {
    var p := UpdateLights(s.(railway := s.railway.(recovery := 0),
                             signals := s.signals.(phase := RailwayHold, timeRemaining := 0)));
    InitialPhaseOk(if p.simRunning && !p.railway.connected then p.(railway := p.railway.(nextTrain := gap)) else p);
  }

  /** After a CLEAR that ends a hold both roads stay red until the second tick, which starts the initial
      phase on a fresh plan. */
  lemma ClearRestartsTheCycle(s: State, between: seq<Input>, gap: int, arrival: Arrival)
    requires Inv(s) && (s.railway.pending || s.railway.active)
    requires forall i :: 0 <= i < |between| ==> !EndsRecovery(between[i])
    requires Ticks(between) < RAILWAY_RECOVERY_SEC
    ensures var c := Run(Step(s, Clear), between);
            var r := Step(c, Tick(gap, arrival));
            && c.signals.nsLight.Red? && c.signals.ewLight.Red?
            && (Ticks(between) == 0 ==> r.signals.nsLight.Red? && r.signals.ewLight.Red?)
            && (Ticks(between) == 1 ==>
                  && Lamp(r.signals, InitialRoad(s)).Green? && r.signals.phase == s.initialPhase
                  && r.plan.extraNs == r.plan.extraEw == 0
                  && r.signals.timeRemaining == r.signals.duration == GreenTime(r.control.mode, c.demand, InitialRoad(s)))
  {
    var f := Step(s, Clear);
    StepOk(s, Clear);
    RecoveringRun(f, between);
    RunOk(f, between);
    var c := Run(f, between);
    StepOk(c, Tick(gap, arrival));
    SameInitialPhase(f, between);
    if Ticks(between) == 0 {
      RecoveringStep(c, Tick(gap, arrival), RAILWAY_RECOVERY_SEC);
    } else {
      RecoveryEnds(c, gap, arrival);
    }
  }

  lemma TrafficKeepsInitial(s: State, gap: int)
    ensures TrafficTick(s, gap).initialPhase == s.initialPhase
  {
  }

  lemma TickKeepsInitial(s: State, gap: int, arrival: Arrival)
    ensures CoreTick(s, gap, arrival).initialPhase == s.initialPhase
  {
    BeforeTrafficParts(s);
    TrafficKeepsInitial(BeforeTraffic(s), gap);
    VehiclesAreBackground(TrafficTick(BeforeTraffic(s), gap), arrival);
  }

  lemma StepKeepsInitial(s: State, input: Input)
    ensures Step(s, input).initialPhase == s.initialPhase
  {
    if input.Tick? {
      TickKeepsInitial(s, input.gap, input.arrival);
    } else if Unseen(input) {
      UnseenIsBackground(s, input);
    } else {
      SignalsKeepInitial(s, input);
    }
  }

  lemma SignalsKeepInitial(s: State, input: Input)
    requires !Unseen(input) && !input.Tick?
    ensures Step(s, input).initialPhase == s.initialPhase
  {
  }

  /** The first phase of an intersection is configuration. */
  lemma {:induction false} SameInitialPhase(s: State, inputs: seq<Input>)
    ensures Run(s, inputs).initialPhase == s.initialPhase
    decreases |inputs|
  {
    if inputs != [] {
      var k := |inputs| - 1;
      SameInitialPhase(s, inputs[..k]);
      StepKeepsInitial(Run(s, inputs[..k]), inputs[k]);
    }
  }
}
