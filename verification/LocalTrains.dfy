/** A train that the intersection simulates itself, started by the console or by its own clock, from its
    Yellow to the next cycle. */
module LocalTrains {
  import opened LocalSpec
  import opened LocalSafety
  import opened LocalHold

  /** No PREEMPT, CLEAR, train or reset from outside. */
  predicate Quiet(input: Input) {
    input.Tick? || input.Button? || Unseen(input)
  }

  predicate AllQuiet(inputs: seq<Input>) {
    forall i :: 0 <= i < |inputs| ==> Quiet(inputs[i])
  }

  /** The Yellow that a train which starts now waits for: a Green gets a full one, a running Yellow ends, and
      roads already held need none. */
  function YellowBefore(g: Signals): (seconds: nat)
    requires SignalsOk(g)
  {
    if g.phase.NsGreen? || g.phase.EwGreen? then 2 else if g.phase.RailwayHold? then 0 else g.timeRemaining
  }

  /** `n` ticks after the start of a local train that waits `yellow` seconds: pending to the end of the
      Yellow, active for ten seconds and recovering for two. */
  predicate Stage(s: State, yellow: nat, n: nat) {
    && !s.railway.waitingForClear
    && (n < yellow ==> s.railway.pending && IsYellow(s.signals.phase) && s.signals.timeRemaining == yellow - n
                       && s.railway.passRemaining == 10)
    && (yellow <= n < yellow + 10 ==> s.railway.active && s.railway.passRemaining == yellow + 10 - n)
    && (yellow + 10 <= n < yellow + 12 ==> Recovering(s, yellow + 12 - n))
  }

  lemma Started(s: State)
    requires Inv(s) && !s.railway.pending && !s.railway.active
    ensures var r := StartTrainCommon(s, false, 0);
            && Stage(r, YellowBefore(s.signals), 0) && r.railway.nextTrain == 0
            && r.signals.phase == match s.signals.phase
                                  case NsGreen => NsYellow
                                  case EwGreen => EwYellow
                                  case phase => phase
  {
  }

  lemma StageBehind(s: State, r: State, yellow: nat, n: nat)
    requires Background(s, r) && Stage(s, yellow, n)
    ensures Stage(r, yellow, n)
  {
  }

  lemma TrafficStage(s: State, gap: int, yellow: nat, n: nat)
    requires Inv(s) && Stage(s, yellow, n) && n < yellow + 11
    ensures Stage(TrafficTick(s, gap), yellow, n + 1)
  {
  }

  lemma ButtonStage(s: State, road: Road, yellow: nat, n: nat)
    requires Inv(s) && Stage(s, yellow, n) && n < yellow + 12
    ensures Stage(AddRequest(s, road), yellow, n)
  {
  }

  /** A train under way is not idle and no lamp is green. */
  predicate UnderWay(s: State) {
    !s.railway.Idle() && !s.signals.nsLight.Green? && !s.signals.ewLight.Green?
  }

  lemma StageUnderWay(s: State, yellow: nat, n: nat)
    requires Inv(s) && Stage(s, yellow, n) && n < yellow + 12
    ensures UnderWay(s)
  {
  }

  lemma TickStage(s: State, gap: int, arrival: Arrival, yellow: nat, n: nat)
    requires Inv(s) && Stage(s, yellow, n) && n < yellow + 11
    ensures Stage(CoreTick(s, gap, arrival), yellow, n + 1)
  {
    StageUnderWay(s, yellow, n);
    BeforeTrafficParts(s);
    BeforeTrafficOk(s);
    var b := BeforeTraffic(s);
    StageBehind(s, b, yellow, n);
    TrafficStage(b, gap, yellow, n);
    VehiclesAreBackground(TrafficTick(b, gap), arrival);
    StageBehind(TrafficTick(b, gap), CoreTick(s, gap, arrival), yellow, n + 1);
  }

  lemma StageStep(s: State, input: Input, yellow: nat, n: nat)
    requires Inv(s) && Quiet(input) && Stage(s, yellow, n)
    requires if input.Tick? then n < yellow + 11 else n < yellow + 12
    ensures Stage(Step(s, input), yellow, if input.Tick? then n + 1 else n)
  {
    if input.Tick? {
      TickStage(s, input.gap, input.arrival, yellow, n);
    } else if input.Button? {
      ButtonStage(s, input.road, yellow, n);
    } else {
      UnseenIsBackground(s, input);
      StageBehind(s, Step(s, input), yellow, n);
    }
  }

  lemma {:induction false} StageRun(s: State, inputs: seq<Input>, yellow: nat, n: nat)
    requires Inv(s) && Stage(s, yellow, n) && AllQuiet(inputs) && n + Ticks(inputs) < yellow + 12
    ensures Stage(Run(s, inputs), yellow, n + Ticks(inputs))
    decreases |inputs|
  {
    if inputs != [] {
      var k := |inputs| - 1;
      StageRun(s, inputs[..k], yellow, n);
      RunOk(s, inputs[..k]);
      assert Quiet(inputs[k]);
      StageStep(Run(s, inputs[..k]), inputs[k], yellow, n + Ticks(inputs[..k]));
    }
  }

  /** In sensor mode the busier road gets 25 seconds and the other one 15; otherwise both get 20. */
  function Wanted(mode: Mode, d: Demand): int {
    if mode.Sensor? && d.nsCars >= 5 && d.ewCars < 5 then 25
    else if mode.Sensor? && d.nsCars < 5 && d.ewCars >= 5 then 15
    else 20
  }

  /** A new cycle: the initial phase has Green for as long as a plan without carried time gives it, and the next
      simulated train is `gap` seconds away, unless Train is connected or the simulation stands. */
  predicate NewCycle(s: State, r: State, gap: int) {
    && r.railway.Idle() && r.signals.phase == s.initialPhase && Lamp(r.signals, InitialRoad(s)).Green?
    && r.plan.valid && r.plan.ns == Wanted(r.control.mode, s.demand) && r.plan.ew == 40 - r.plan.ns
    && r.plan.extraNs == r.plan.extraEw == 0
    && r.signals.timeRemaining == r.signals.duration == FirstGreen(s.initialPhase, r.plan)
    && r.railway.nextTrain == if s.simRunning && !s.railway.connected then gap else s.railway.nextTrain
  }

  lemma LastTraffic(s: State, gap: int)
    requires Inv(s) && Recovering(s, 1)
    ensures NewCycle(s, TrafficTick(s, gap), gap)
  {
    var p := UpdateLights(s.(railway := s.railway.(recovery := 0),
                             signals := s.signals.(phase := RailwayHold, timeRemaining := 0)));
    InitialPhaseOk(if p.simRunning && !p.railway.connected then p.(railway := p.railway.(nextTrain := gap)) else p);
  }

  lemma LastTick(s: State, gap: int, arrival: Arrival)
    requires Inv(s) && Recovering(s, 1)
    ensures NewCycle(s, CoreTick(s, gap, arrival), gap)
  {
    BeforeTrafficParts(s);
    BeforeTrafficOk(s);
    var b := BeforeTraffic(s);
    RecoveryKeepsClock(s);
    LastTraffic(b, gap);
    VehiclesSpareTrains(TrafficTick(b, gap), arrival);
    VehiclesAreBackground(TrafficTick(b, gap), arrival);
  }

  lemma VehiclesSpareTrains(s: State, arrival: Arrival)
    ensures UpdateVehicles(s, arrival).railway == s.railway
  {
  }

  lemma RecoveryKeepsClock(s: State)
    requires !s.railway.Idle()
    ensures BeforeTraffic(s).railway == s.railway && BeforeTraffic(s).simRunning == s.simRunning
    ensures BeforeTraffic(s).signals == s.signals && BeforeTraffic(s).initialPhase == s.initialPhase
  {
  }

  /** What holds `n` ticks after the start of a local train: its stage, and with the tick that ends its
      recovery the next cycle. */
  predicate RunsItsCourse(s: State, yellow: nat, n: nat, gap: int, arrival: Arrival) {
    && (n < yellow + 12 ==> Inv(s) && Stage(s, yellow, n) && UnderWay(s))
    && (n == yellow + 11 ==> NewCycle(s, CoreTick(s, gap, arrival), gap))
  }

  lemma CourseRun(s: State, during: seq<Input>, yellow: nat, n: nat, gap: int, arrival: Arrival)
    requires Inv(s) && Stage(s, yellow, n) && AllQuiet(during)
    ensures RunsItsCourse(Run(s, during), yellow, n + Ticks(during), gap, arrival)
  {
    if n + Ticks(during) < yellow + 12 {
      StageRun(s, during, yellow, n);
      RunOk(s, during);
      StageUnderWay(Run(s, during), yellow, n + Ticks(during));
      if n + Ticks(during) == yellow + 11 {
        LastTick(Run(s, during), gap, arrival);
      }
    }
  }

  /** A train started from the console takes its Yellow, ten seconds and two of recovery, in every state without
      a train; the tick after that, and none before, starts the next cycle. */
  lemma ConsoleTrainRunsItsCourse(s: State, during: seq<Input>, gap: int, arrival: Arrival)
    requires Inv(s) && !s.railway.pending && !s.railway.active && AllQuiet(during)
    ensures RunsItsCourse(Run(Step(s, DemoTrain), during), YellowBefore(s.signals), Ticks(during), gap, arrival)
  {
    Started(s);
    StepOk(s, DemoTrain);
    CourseRun(Step(s, DemoTrain), during, YellowBefore(s.signals), 0, gap, arrival);
  }

  lemma TrainTick(s: State, gap: int, arrival: Arrival)
    requires Inv(s) && TrainStarts(s)
    ensures Stage(CoreTick(s, gap, arrival), YellowBefore(s.signals), 1)
  {
    BeforeTrafficParts(s);
    BeforeTrafficOk(s);
    BackgroundOk(s, Clocked(s));
    Started(Clocked(s));
    var yellow := YellowBefore(s.signals);
    var b := BeforeTraffic(s);
    StageBehind(StartTrainCommon(Clocked(s), false, 0), b, yellow, 0);
    TrafficStage(b, gap, yellow, 0);
    VehiclesAreBackground(TrafficTick(b, gap), arrival);
    StageBehind(TrafficTick(b, gap), CoreTick(s, gap, arrival), yellow, 1);
  }

  /** The clock's own train is due when the simulation runs without Train, the road is idle and at most one
      second is left to it. */
  predicate DueNow(s: State) {
    s.simRunning && !s.railway.connected && s.railway.Idle() && s.railway.nextTrain <= 1
  }

  /** The clock's own train takes the same course; the tick that starts it counts its first second. */
  lemma ClockTrainRunsItsCourse(s: State, first: Input, during: seq<Input>, gap: int, arrival: Arrival)
    requires Inv(s) && DueNow(s) && first.Tick? && AllQuiet(during)
    ensures RunsItsCourse(Run(Step(s, first), during), YellowBefore(s.signals), 1 + Ticks(during), gap, arrival)
  {
    TrainTick(s, first.gap, first.arrival);
    StepOk(s, first);
    CourseRun(Step(s, first), during, YellowBefore(s.signals), 1, gap, arrival);
  }

  /** Without a due train an idle second stays idle, and counts down to the next train while the simulation
      runs without Train. */
  lemma NoTrainBeforeItsTime(s: State, gap: int, arrival: Arrival)
    requires Inv(s) && s.railway.Idle() && !DueNow(s)
    ensures var r := CoreTick(s, gap, arrival).railway;
            && r.Idle() && r.connected == s.railway.connected
            && r.nextTrain == s.railway.nextTrain - if s.simRunning && !s.railway.connected then 1 else 0
  {
    BeforeTrafficOk(s);
    IdleClock(s);
    IdleTraffic(BeforeTraffic(s), gap);
    VehiclesSpareTrains(TrafficTick(BeforeTraffic(s), gap), arrival);
  }

  lemma IdleClock(s: State)
    requires s.railway.Idle() && !DueNow(s)
    ensures BeforeTraffic(s).railway ==
            s.railway.(nextTrain := s.railway.nextTrain - if s.simRunning && !s.railway.connected then 1 else 0)
  {
  }

  lemma IdleTraffic(s: State, gap: int)
    requires Inv(s) && s.railway.Idle()
    ensures TrafficTick(s, gap).railway == s.railway
  {
  }
}
