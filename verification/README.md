# Traffic, railway and command control: a verified model

A Dafny model of five cooperating parts of a city traffic system, with proofs about every run of each:

- **Level crossings and their event simulator** (`Crossing`, `RailSpec`, `RailCommands`, `RailSim`): three crossings with two
  tracks, a gate, flashing lights, faults and generation-stamped timers, driven by an unordered array of 64
  pending events and a tick loop whose handlers arm and cancel timers while the loop scans the array.
- **The road intersection** (`LocalSpec`, `LocalSafety`, `LocalHold`, `LocalCycle`, `LocalTrains`, `LocalSecond`,
  `LocalControl`, `LocalCore`): signal phases, sensor planning, pedestrian time moved between Greens, railway hold
  and recovery, trains of its own, modes, and coordination jumps.
- **Train to intersections** (`TrainToLocal`, `Deliveries`, `Outbox`): crossing callbacks, a 64-item outbox ring, a sender
  thread, and six intersections, as freely interleaved steps.
- **Central's commands** (`LinkSpec`, `LinkSafety`, `LinkOutcome`, `LinkTeardown`; `CentralSpec`, `CentralSafety`,
  `CentralRuns`, `CentralRequests`, `CentralQueues`): the caller/worker/close protocol of one connection, and the
  per-peer command rings with their 64-record history, operator policy and 16-bit ids.
- **Small refinements** (`SimText`, `SimCodec`, `SimWire`, `StatusHistory`, `Schedule`): the SIM1 command text with two
  independent parsers, the status ring, and the daily schedule.

Every stateful part has two layers. A specification module gives each operation as a function on an immutable
state; the runs, invariants and theorems are about these functions. A class holds the fields, arrays and loops
of the program, and each of its methods is proved to change the class's contents exactly as the specification
function says. What an operation does is also told without those functions, from its arguments and the numbers
of the program: `RailCommands`, `LocalSecond`, `LocalControl`, `CentralRequests`, `Deliveries`, `LinkOutcome` and
`SimWire` pin the specification from the outside. The connection protocol is a state machine only: its steps are the sections that run under the
mutex and the calls into the kernel.

`dafny verify dfyconfig.toml` checks everything.

## Main results

- Trains at a time scale of at most 10 always meet a closed gate and never cause a fault, for every accepted
  layout; 10 is the exact limit: `ScaleLimit.TenIsTheLimit` proves that a bound on the scale is safe if and only
  if it is at most 10, with a failing run at 11 (the simulator accepts scales up to 100).
- At every time scale, queued timers mirror the crossings, the event array never overflows, and a gate never
  runs into its own timeout.
- An intersection always shows red to at least one road, keeps two seconds of Yellow between opposite
  Greens, holds both roads red from the second tick of a pre-emption until CLEAR, serves every pedestrian within
  41 ticks, and conserves the 44-second cycle exactly, up to the time carried between cycles.
- A train that an intersection runs by itself takes its Yellow, ten seconds and two of recovery, from any state; the
  next cycle starts with the tick after that and none before. A temporary mode ends with its last second.
- Both intersections beside an occupied crossing hold traffic, once they have consumed their messages and as long
  as none of these was dropped or lost. Every announcement is received, on the way or counted as missed, in order.
- No command is handed to the transport twice or after it was given up, and no connection leaks. The operator policy
  of an intersection always names an operator's command for it, though records are overwritten and ids wrap around.
- A caller of the link is told exactly what the kernel answered to its job, or of the failure when the link was
  closed under it.
- The link's interface has a hazard that Central never meets. A close is acted upon unless it falls between the
  worker's close check and its sleep, while it closes the previous connection (`LinkSafety.CloseNoticedIff`); then
  every job is refused until something else wakes the worker. What a caller can test decides: a close is noticed in
  every run if and only if the link reports to be connected when it is called (`LinkSafety.CloseOnlyWhenConnected`).
  The only caller, central_controller/src/central_controller.c:1071, closes a link that it has just seen connected
  and that no other thread closes, so its closes are always noticed (`LinkSafety.DisciplinedNeverStranded`).

## Modelling decisions

- Clocks, random values, link health and kernel answers are parameters of the steps, so every theorem holds for
  all of them. Log lines, timestamps, screen updates and status flags are not part of the states.
- The simulator's clock is in simulated milliseconds. A slot without a crossing stands for the null pointer of a
  slot that was never used. Timer ids outside the enumeration cannot be written.
- The intersections use the shipped timing table: both Greens are configured with 20 seconds, which is what the
  cycle planner assumes.
- An input that a message handler refuses is an input that changes nothing.
- In `TrainToLocal` the items of one simulator step are queued one at a time, so the sender may run between
  them; the next simulator step starts when all are queued, because the callbacks run inside the step. The sender
  takes an item and delivers it in two steps. Items that are dropped or lost are counted for the intersection they
  were meant for.
- The link's worker keeps the mutex from a report through its next turn of the loop, so these are one step.
- Requests carry a serial number beside their 16-bit id, and connections are numbered in the order they are
  opened. Both tell instances apart after numbers are reused, and neither influences any decision.
- The generation counter of the link wraps at 64 bits; `LinkSafety.GenerationNeverDecides` shows that this is
  harmless.

## Model

| member | source | states |
|---|---|---|
| `RailSpec.ApplyConfig` | train_controller/src/crossing/rail_sim.c:146-177 | every configuration gives an accepted layout; each value in range is kept and each other one replaced by its default, independently |
| `RailSim.Simulator.QueueEvent` | train_controller/src/crossing/rail_sim.c:113-132 | the event goes to the first free slot, or the array is unchanged, the result is false and the refusal is remembered |
| `RailSim.Simulator.StartTimer` | train_controller/src/crossing/rail_sim.c:309-322 | queues the timer with the crossing's current generation |
| `RailSim.Simulator.CancelTimer` | train_controller/src/crossing/rail_sim.c:324-343 | frees exactly the slots of that timer of that crossing |
| `RailSim.Simulator.GateCommand` | train_controller/src/crossing/rail_sim.c:292-304 | sets the completion time of the gate, and only that |
| `RailSim.Simulator.EnterFault` | train_controller/src/crossing/crossing.c:77-114 | the fault state, all five timers cancelled, one alert sent |
| `RailSim.Simulator.StartGateClose` | train_controller/src/crossing/crossing.c:119-153 | closing from open or opening with the matching timers, otherwise nothing |
| `RailSim.Simulator.StartGateOpen` | train_controller/src/crossing/crossing.c:158-191 | opening from closed or closing with the matching timers, otherwise nothing |
| `RailSim.Simulator.Handle` | train_controller/src/crossing/crossing.c:196-482 | every event changes the world as the specification says, other crossings included |
| `RailSim.Simulator.Tick` | train_controller/src/crossing/rail_sim.c:217-279 | gate completions first, then due slots in index order over an array that the handlers change |
| `RailSim.Simulator.TrainPending` | train_controller/src/crossing/rail_sim.c:378-389 | true iff an active train event targets that track |
| `RailSim.Simulator.FreeEventSlots` | train_controller/src/crossing/rail_sim.c:404-415 | counts exactly the inactive slots |
| `RailSim.Simulator.CanStartAt` | train_controller/src/crossing/rail_sim.c:424-445 | true iff the track of that crossing is free and events and timers fit |
| `RailSim.Simulator.CanStartOnLine` | train_controller/src/crossing/rail_sim.c:424-445 | true iff no crossing of the line has a pending train on the track and events and timers fit |
| `RailSim.Simulator.SimulateTrainOnLine` | train_controller/src/crossing/rail_sim.c:454-474 | the accumulated arrival times equal the distances from the start of the line |
| `RailSim.Simulator.SimulateTrainAtCrossing` | train_controller/src/crossing/rail_sim.c:479-489 | warning, entry and, unless it never exits, exit of one train are queued |
| `RailSim.Simulator.Execute` | train_controller/src/crossing/rail_sim.c:494-676 | a command changes the world exactly as its step; from a settled world it leads to a settled one, no queueing is ever refused, and its trains are exactly the events of `RailCommands.CommandDone` |
| `RailCommands.CommandsAct` | train_controller/src/crossing/rail_sim.c:360-676 | in every settled world: a train command is accepted iff the tracks it asks for are free, and then adds, for each crossing and direction asked for, exactly an approach at the distance from the start of the line, an entry a warning later and an exit a train length after that (none for noexit); otherwise nothing changes |
| `RailCommands.StartsIdle` | train_controller/src/crossing/rail_sim.c:182-202 | open gates, dark lights, free tracks, no events; a time scale that is not positive becomes one |
| `CrossingSafety.HandleReacts` | train_controller/src/crossing/crossing.c:196-482 | an event changes one record, timer generations aside, and sends messages, as two small tables say |
| `CrossingSafety.EveryEventRunIsSafe` | train_controller/src/crossing/crossing.c:53-482 | for any event sequence, spurious timers included: fault iff gate FAULT and then flashing, a train on the crossing only behind a closed gate, a cleared track only while the other is occupied, reset pending only while closing or in fault, occupied tracks announced |
| `CrossingSafety.FlashUntilClear` | train_controller/src/crossing/crossing.c:207-254 | in every event sequence the lights of a crossing flash from a PREEMPT until its next CLEAR |
| `CrossingSafety.LightsOutWithClear` | train_controller/src/crossing/crossing.c:355-396 | an event that turns the lights off sends CLEAR, with the gate open and both tracks free |
| `CrossingSafety.ClearOnlyWhenClear` | train_controller/src/crossing/crossing.c:355-396 | CLEAR is sent only with both tracks clear and the gate open |
| `Agenda.NeverFull` | train_controller/src/crossing/rail_sim.c:113-132 | an array whose active events have distinct keys has a free slot |
| `RailInvariant.DueHandled` | train_controller/src/crossing/rail_sim.c:254-276 | the handler of a due event keeps the timers in step and leaves the event's own slot alone, so freeing it afterwards erases no new timer |
| `RailInvariant.TickSettled` | train_controller/src/crossing/rail_sim.c:217-279 | a tick keeps the mirror of timers and crossings, and every event left lies in the future |
| `RailInvariant.AlwaysRoomInTick` | train_controller/src/crossing/rail_sim.c:231-276 | a free slot exists while gates arrive and between any two deliveries of a tick |
| `RailInvariant.EveryRunSettled` | train_controller/src/crossing/rail_sim.c:113-489 | the full simulator invariant in every run of commands, at every scale |
| `RailRuns.EveryRunSafe` | train_controller/src/crossing/crossing.c:196-482 | every run of simulator commands keeps all crossings safe and announced |
| `RailRuns.TimersMirrorCrossings` | train_controller/src/crossing/rail_sim.c:309-343 | a timer is queued iff its crossing waits for it, once, with the current generation, and none in fault |
| `RailRuns.GatesBeatTheirTimeouts` | train_controller/src/crossing/rail_sim.c:226-304 | no gate timeout fault at any scale; a moving gate completes seven seconds before its timeout |
| `RailRuns.NeverOutOfSlots` | train_controller/src/crossing/rail_sim.c:367-445 | a free slot always exists and a free line always has room for its trains |
| `TrainTiming.EntersClosedGate` | train_controller/src/crossing/rail_sim.c:254-276 | whenever the tick loop reaches a due entry on an approaching track, the gate is closed |
| `TrainTiming.OrdinaryTrainsNeverFault` | train_controller/src/crossing/crossing_config.h:10-52 | at a scale of at most 10, for every accepted layout and every run without noexit trains and injected faults: no fault, and every entry on an approaching track finds the gate closed |
| `ScaleLimit.TenIsTheLimit` | train_controller/src/crossing/rail_sim.c:217-279 | bounding the scale by b makes all ordinary runs fault-free iff b is at most 10 |
| `LocalCore.Controller.constructor` | local_intersection_controller/src/local_state.c:200-248 | the initial state of each intersection, valid and safe |
| `LocalCore.Controller.PreemptMessage` | local_intersection_controller/src/local_traffic.c:316-335 | accepted in every valid state, also over a local train; waits for CLEAR afterwards, signals safe |
| `LocalCore.Controller.ClearRailway` | local_intersection_controller/src/local_traffic.c:337-350 | a hold ends in a recovery with both roads red; otherwise nothing changes |
| `LocalCore.Controller.PressButton` | local_intersection_controller/src/local_pedestrian.c:42-91 | the request is noted, all seconds taken from the running Green are given to the next opposite one, the phase and the safety of the signals stay |
| `LocalCore.Controller.TickSecond` | local_intersection_controller/src/local_core.c:77-96 | one second of the core loop keeps the state valid and the signals safe, accounts for exactly one second of the undisturbed cycle, and does to clock, mode, cars, lamps, WALK signs and trains what `LocalSecond.SecondDone` lists |
| `LocalCore.Controller.Reset` | local_intersection_controller/src/local_simulation.c:183-215 | the console reset starts the initial phase, without train or carried time |
| `LocalCore.Controller.Handle` | local_intersection_controller/src/local_ipc.c:139-329 | every input keeps the state valid, one road red and failsafe off, and all but the reset end a Green only in Yellow |
| `LocalSafety.GreenStartsWhole` | local_intersection_controller/src/local_traffic.c:60-76 | a Green lasts its allocation plus all time carried to it: the clamp discards nothing |
| `LocalSafety.StepOk` | local_intersection_controller/src/local_traffic.c:28-350 | every input keeps the invariant of plan, lamps, railway flags and modes |
| `LocalSafety.EveryRunIsSafe` | local_intersection_controller/src/local_traffic.c:78-281 | in every run one road is red, failsafe is never entered, and WALK is lit only against red with more than five seconds of Green left and the other sign off |
| `LocalHold.GreenTurnsYellow` | local_intersection_controller/src/local_traffic.c:164-188 | without the console reset a green lamp stays green or turns yellow |
| `LocalHold.YellowSeparatesGreens` | local_intersection_controller/src/local_traffic.c:78-350 | at least two ticks pass between one road leaving Green and the other having it, through pre-emption, early clear and coordination |
| `LocalHold.PreemptionHoldsBothRoads` | local_intersection_controller/src/local_traffic.c:283-335 | after a pre-emption in any reachable state the intersection waits for CLEAR through all other inputs, both roads red from the second tick on |
| `LocalHold.ClearRestartsTheCycle` | local_intersection_controller/src/local_traffic.c:252-268 | after CLEAR both roads stay red until the second tick, which starts the initial phase on a fresh plan |
| `LocalCycle.CycleTimeConserved` | local_intersection_controller/src/local_pedestrian.c:42-91 | ticks passed plus time ahead is constant but for 44 seconds with each cycle, whatever sensors, modes and buttons do |
| `LocalCycle.CyclesTakeExactly` | local_intersection_controller/PROCESSES.md:117-137 | n undisturbed cycles take 44n + carry in - carry out ticks, each carry between 0 and 20 |
| `LocalCycle.GreensLastTenToThirty` | local_intersection_controller/src/local_traffic.c:164-188 | every Green that starts and ends in an undisturbed run lasts 10 to 30 ticks |
| `LocalCycle.PedestriansAreServed` | local_intersection_controller/src/local_pedestrian.c:3-40 | in 41 undisturbed ticks every pending request gets WALK |
| `LocalCycle.TargetIsPosition` | local_intersection_controller/src/local_traffic.c:128-162 | the jump target for any offset is the position of the fixed cycle counted second by second |
| `LocalCycle.JumpIsRunningAhead` | local_intersection_controller/src/local_traffic.c:164-171 | the tick that takes up a pending coordination, with any offset, shows the phase, remaining time and lamps that as many fixed-mode ticks from the start of the base Green show |
| `LocalCycle.CoordinationLands` | local_intersection_controller/src/local_ipc.c:204-244 | a coordination accepted in any state lands on its offset when it is taken up, whatever came between, trains included |
| `LocalCycle.CoordinationTakenUp` | local_intersection_controller/src/local_traffic.c:164-171 | a coordination is taken up within 32 ticks without trains |
| `LocalTrains.ConsoleTrainRunsItsCourse` | local_intersection_controller/src/local_traffic.c:206-312 | a train started in any state without one, whatever other inputs come but PREEMPT, CLEAR, train and reset: pending to the end of its Yellow (two full seconds from a Green), active for exactly ten ticks, recovering for two; the next tick, and none before, gives the initial Green on a fresh plan |
| `LocalTrains.ClockTrainRunsItsCourse` | local_intersection_controller/src/local_simulation.c:112-140 | the same course for the train that the clock starts, whose first second is the tick that starts it |
| `LocalTrains.NoTrainBeforeItsTime` | local_intersection_controller/src/local_simulation.c:112-140 | an idle second without a due train stays idle and counts down to the next one, only while the simulation runs without Train |
| `LocalSecond.EverySecond` | local_intersection_controller/src/local_core.c:77-96 | one second in every reachable state: the clock's mode by rush hours, temporary modes counting down, cars leaving and arriving, lamps counting down, the next Green with its plan nearest to what the sensors want, WALK in time and its request answered, trains one second further |
| `LocalControl.EachStartsWithItsRoad` | local_intersection_controller/src/local_state.c:200-248 | I1, I4 and I5 start with EW and the others with NS, with 20 seconds at six in the morning |
| `LocalControl.FirstRequestCutsGreen` | local_intersection_controller/src/local_pedestrian.c:42-91 | a first request cuts the Green to ten seconds or by as much as the next opposite Green can take, never less; a repeated one changes nothing |
| `LocalControl.TrainsComeAndGo` | local_intersection_controller/src/local_traffic.c:283-350 | the whole state after PREEMPT, a train from the console and CLEAR, with and without a train under way |
| `LocalControl.ResetStartsAfresh` | local_intersection_controller/src/local_simulation.c:183-215 | the whole state after the console reset |
| `LocalControl.CommandsSetMode` | local_intersection_controller/src/local_ipc.c:139-244 | which mode and coordination commands are accepted, what a temporary mode saves and a revert gives back |
| `LocalControl.SensorsSetCars` | local_intersection_controller/src/local_ipc.c:246-273 | at most twelve cars are accepted, for the road reported |
| `LocalControl.SimulationInputs` | local_intersection_controller/src/local_ipc.c:68-111 | start, stop and time of day, which gives mode and sensors back to the clock |
| `LocalControl.TemporaryModeEnds` | local_intersection_controller/src/local_simulation.c:63-83 | a temporary mode accepted in any reachable state is in force until its last second, which gives back the mode it replaced: an operator's own or the clock's |
| `Outbox.Ring.Add` | train_controller/src/train_controller.c:188-202 | appends to the queue while it holds fewer than 64 items, otherwise drops and counts the item |
| `Outbox.Ring.Take` | train_controller/src/train_controller.c:253-261 | removes the oldest item |
| `Outbox.Ring.QueueRailway` | train_controller/src/train_controller.c:531-559 | one item for each of the two intersections of the crossing, in order, each queued while there is room and counted as dropped otherwise |
| `TrainToLocal.KindsOfAll` | train_controller/src/train_controller.c:878-880 | each intersection is sent the announcements of its own crossing and no others |
| `TrainToLocal.DeliveredInOrder` | train_controller/src/train_controller.c:245-264 | in every interleaving, an intersection that missed nothing has received the announcements of its crossing in order, up to those in the outbox or in the sender's hand |
| `TrainToLocal.OccupiedCrossingIsHeld` | local_intersection_controller/src/local_traffic.c:316-350 | in every interleaving an occupied crossing last announced PREEMPT, and each of its intersections that missed nothing and has no message on the way holds traffic |
| `Deliveries.EveryStepMoves` | train_controller/src/train_controller.c:188-264 | in every interleaving an item is missed only if the outbox holds 64 or the send does not arrive, and what arrives is handled by its intersection alone |
| `Deliveries.EveryMessageAccounted` | train_controller/src/train_controller.c:188-264 | for every intersection and whatever it missed: received, on the way and missed add up to the announcements of its crossing, and what is left of them keeps its order |
| `Deliveries.SimulatorRunsAlone` | train_controller/src/train_controller.c:531-559 | the world in every interleaving is that of a run of the simulator alone, so every result about its runs holds here |
| `Deliveries.IntersectionRunsAlone` | local_intersection_controller/src/local_ipc.c:298-329 | each intersection in every interleaving is in the state of a run of its own, on its own inputs and the messages as they arrive |
| `Deliveries.IntersectionHearsItsMessages` | train_controller/src/train_controller.c:531-559 | among these inputs are exactly the messages received, in order, and every PREEMPT announces the configured warning time |
| `LinkSafety.StepInv` | central_controller/src/ipc.c:284-373 | every step of callers, worker and close keeps the protocol invariant |
| `LinkSafety.AtMostOneCall` | central_controller/src/ipc.c:302-331 | each accepted job reaches MsgSend or name_open at most once |
| `LinkSafety.WithdrawnIsNeverSent` | central_controller/src/ipc.c:473-484 | a job given up or cancelled while queued never reaches the kernel, whatever follows |
| `LinkSafety.OwnOutcome` | central_controller/src/ipc.c:485-494 | a caller is told the outcome of its own job, and accepted, rejected or malformed only as the peer answered it; `LinkOutcome.ToldWhatTheKernelAnswered` and `LinkTeardown.ClosedUnderWay` are the other half |
| `LinkOutcome.AcceptedIff` | central_controller/src/ipc.c:451-468 | a job is accepted iff the link does not stop, serves nobody, has no close pending, and is connected for a message and not connected for a connection |
| `LinkOutcome.ToldWhatTheKernelAnswered` | central_controller/src/ipc.c:302-373 | in every run, a job whose link is neither closed nor stopped until it is finished: its caller, if it has not given up, can collect exactly what the kernel answered in that call, and is never told anything else; a connection that was found is then in use |
| `LinkOutcome.QueuedJobIsPickedUp` | central_controller/src/ipc.c:284-305 | in every run the worker by itself picks up a queued job within two steps |
| `LinkTeardown.ClosedUnderWay` | central_controller/src/ipc.c:334-354 | a close or stop in any run while the worker has a job: whatever the kernel answers, the caller is told of failure and of nothing else |
| `LinkTeardown.ClosedInQueue` | central_controller/src/ipc.c:512-529 | a close in any run over a queued job: it is withdrawn, and its caller can collect the failure at once |
| `LinkTeardown.InstalledIsTold` | central_controller/src/ipc.c:334-349 | in every run no connection is taken into use for a caller that gave up |
| `LinkTeardown.StopEndsTheWorker` | central_controller/src/ipc.c:531-557 | stopping in any run wakes the worker, which leaves within four steps and holds no connection |
| `LinkSafety.ConnectionsAccounted` | central_controller/src/ipc.c:334-349 | every opened connection is current, closed once, or in the worker's hand, exactly one of these; an exited worker has closed all |
| `LinkSafety.SendsOnOpenConnection` | central_controller/src/ipc.c:306-324 | a message goes out on the current connection, which is not closed before the call returns |
| `LinkSafety.GenerationNeverDecides` | central_controller/src/ipc.c:335-336 | the generation comparison never rejects a job that no close or stop rejects |
| `LinkSafety.CloseNoticedIff` | central_controller/src/ipc.c:287-305 | the worker by itself acts upon a close, whatever the kernel answers, iff it is not between its close check and its sleep and has not left |
| `LinkSafety.ConnectedCloseNoticed` | central_controller/src/ipc.c:512-529 | closing a connected link is always noticed |
| `LinkSafety.CloseOnlyWhenConnected` | central_controller/src/ipc.c:501-529 | of the two answers of the connection test, exactly "connected" makes a close noticed in every run |
| `LinkSafety.DisciplinedNeverStranded` | central_controller/src/central_controller.c:1050-1071 | in every run whose closes find the link connected, no close ever waits for a sleeping worker |
| `LinkSafety.StrandedStays` | central_controller/src/ipc.c:452-457 | after a missed close no job is accepted until another close, the end of the link or a spurious wake-up |
| `LinkSafety.SecondCloseIsMissed` | central_controller/src/ipc.c:288-305 | a run of connect and close after which another close is not noticed |
| `CentralSpec.NextId` | central_controller/src/central_controller.c:886-896 | the search ends, on a non-zero id that neither history nor policy uses; that it is the first such id is part of `CentralRequests.EveryStepDoes` |
| `CentralQueues.Commander.FindCommand` | central_controller/src/central_controller.c:879-884 | the first record with the id; zero is never found |
| `CentralQueues.Commander.NextFreeId` | central_controller/src/central_controller.c:886-896 | the loop terminates by counting reserved ids and yields the specified id |
| `CentralQueues.Commander.FreeRecord` | central_controller/src/central_controller.c:1195-1200 | the slot search terminates and yields the first overwritable record from the cursor on |
| `CentralQueues.Commander.EnqueueCommand` | central_controller/src/central_controller.c:1159-1230 | accepted iff running, ready and with room in history and rings; then one request for each target with its id, place, time and policy, otherwise no change; soundness of queues and history is kept |
| `CentralQueues.Commander.FindReady` | central_controller/src/central_controller.c:924-929 | the first entry whose time has come |
| `CentralQueues.Commander.RemoveAt` | central_controller/src/central_controller.c:939-950 | the shift removes exactly one entry of one ring and keeps the order of the others |
| `CentralQueues.Commander.TakeCommand` | central_controller/src/central_controller.c:931-975 | the first due command is sent, expired or cancelled; soundness is kept |
| `CentralQueues.Commander.FinishSend` | central_controller/src/central_controller.c:977-1003 | the outcome is written to the record with the id that was sent; soundness is kept |
| `CentralQueues.Commander.DiscardQueue` | central_controller/src/central_controller.c:908-915 | the queue is empty and exactly its queued records are cancelled |
| `CentralQueues.Commander.CancelRing` | central_controller/src/central_controller.c:1235-1245 | in-place compaction keeps exactly the entries that are not superseded, in order |
| `CentralQueues.Commander.CancelCommands` | central_controller/src/central_controller.c:1232-1247 | all rings are filtered; soundness is kept |
| `CentralSafety.EnqueueAllOrNothing` | central_controller/src/central_controller.c:1159-1230 | accepted iff running, ready and all requests fit; then each target has one new entry at the end of its peer's queue, in order, with its record, and the policy of each holds the id of that record if the wish is remembered; otherwise nothing changes |
| `CentralSafety.TakeResolves` | central_controller/src/central_controller.c:931-975 | take removes exactly the first due entry, whose queued record always exists and alone changes state |
| `CentralSafety.RunFromInv` | central_controller/src/central_controller.c:879-1247 | the queue and history invariant in every run from the start |
| `CentralRuns.StatesMoveForward` | central_controller/src/central_controller.c:898-1003 | records move only QUEUED to SENDING, CANCELED or EXPIRED and SENDING to an outcome, or make place for a new request once finished |
| `CentralRuns.HandedAtMostOnce` | central_controller/src/central_controller.c:969-981 | no request is handed to the transport twice |
| `CentralRuns.GivenUpIsNeverSent` | central_controller/src/central_controller.c:954-968 | expired and cancelled requests are never sent, whatever follows |
| `CentralRuns.OutcomeLandsOnItsRecord` | central_controller/src/central_controller.c:985-1000 | the outcome changes the one record of the request that was sent |
| `CentralRuns.EntriesMatchRecords` | central_controller/src/central_controller.c:1193-1226 | in every run entries and queued records of the same peer correspond one to one |
| `CentralRuns.CancelFilters` | central_controller/src/central_controller.c:1232-1247 | cancelling is an order-preserving filter of every queue and cancels exactly the queued automatic records of the target |
| `CentralRequests.EveryStepDoes` | central_controller/src/central_controller.c:879-1247 | in every run, from the arguments alone: who is sent a request under the first unused id in the first free place, not before its delay is over; when an operator's mode command becomes the policy; which entry a take removes and what it makes of it; where an outcome goes; what cancel and discard remove; and that nothing else changes |
| `CentralRequests.StartsEmpty` | central_controller/src/central_controller.c:1583 | Central starts running with nothing queued, recorded, remembered or being sent |
| `CentralRequests.PolicyNamesItsCommand` | central_controller/src/central_controller.c:886-896 | in every run the id held as an intersection's policy is given to no other request, though records are overwritten and ids wrap around |
| `SimText.ParseNumber` | central_controller/src/commands.c:19-41 | accepts exactly the digit texts whose value lies within the bounds |
| `SimText.ParseCanonical` | local_intersection_controller/src/local_ipc.c:7-21 | the same without leading zeros |
| `SimText.CutTokens` | central_controller/src/commands.c:102-114 | the tokens of the text, or failure at a sixth |
| `SimCodec.CutStrictly` | local_intersection_controller/src/local_ipc.c:37-47 | the tokens of the text, or failure at a sixth or at a gap |
| `SimCodec.DecodeCentral` | central_controller/src/commands.c:86-141 | the decoder as loops computes the specified result |
| `SimCodec.ParseLocal` | local_intersection_controller/src/local_ipc.c:23-66 | the parser as loops computes the specified result on a data field |
| `SimCodec.DecodeEncode` | central_controller/src/commands.c:74-141 | every valid command is decoded to itself |
| `SimCodec.DecodesOnlyCanonical` | central_controller/src/commands.c:134-138 | only canonical encodings of valid commands are accepted |
| `SimCodec.ParsersAgree` | local_intersection_controller/src/local_ipc.c:23-66 | for a non-zero id and one target both parsers accept the same texts with the same command |
| `SimCodec.FieldsAgree` | central_controller/src/commands.c:93-101 | on whole data fields they differ exactly in that Central also refuses anything but zero bytes after the text |
| `SimWire.EncodeIsPrinted` | central_controller/src/commands.c:74-84 | the exact text of every command |
| `SimWire.CentralAcceptsExactly` | central_controller/src/commands.c:86-141 | Central accepts exactly the zero-filled fields that hold the printed text of a command for intersection 0 to 5 or all, with a 16-bit id and a minute of the day |
| `SimWire.LocalAcceptsExactly` | local_intersection_controller/src/local_ipc.c:23-66 | the intersection accepts exactly the fields that start with the printed and terminated text of a command for one intersection with an id other than zero |
| `StatusHistory.History.Record` | local_intersection_controller/src/local_core.c:12-25 | appends to the log unless nothing changed, the ring keeps the last 64, and the first event has the number after the clock's |
| `StatusHistory.History.NextEvent` | local_intersection_controller/src/local_core.c:27-40 | a reader that starts gets the last event of the log; any other the retained one of smallest number above what it was delivered, or the last if there is none |
| `StatusHistory.FirstReadIsLatest` | local_intersection_controller/src/local_core.c:27-31 | whatever was recorded before, the first event a reader receives is the latest |
| `StatusHistory.ReaderMissesNothing` | local_intersection_controller/src/local_comm.c:43-52 | however reads and records interleave, events arrive in order without repetition, and without a gap while the reader lags by no more than 64 |
| `Schedule.DailySchedule.Add` | central_controller/src/operator_policy.c:147-159 | an entry is added iff its minute, target and mode are valid, fewer than 32 are there, and no entry of the same minute concerns an intersection that it concerns |
| `Schedule.DailySchedule.ModeAt` | central_controller/src/operator_policy.c:235-255 | the mode of the entry for the intersection that was due last, or none if there is no entry for it |
| `Schedule.ConflictIsATie` | central_controller/src/operator_policy.c:151-156 | two valid entries conflict exactly when some intersection would have both in force at once |
| `Schedule.OneInForce` | central_controller/src/operator_policy.c:151-156 | at most one entry is in force for an intersection at any minute |
| `Schedule.OrderDoesNotMatter` | central_controller/src/operator_policy.c:235-255 | every permutation of the entries gives the same lookup |

## Left out

- Kernel calls, threads and message passing: they are steps with arbitrary results; real-time deadlines, jitter and reconnection are not modelled.
- Central's link state machine is modelled on values, so freeing the link's memory after a detached destroy and the content of the reply buffer are not captured.
- Terminal screens, menus, command-line parsing, logging, schedule files and timestamps.
- Peer monitoring and heartbeats: whether a peer is ready is an arbitrary truth value of each step.
- Validation of complete message frames, and the helpers that rewrite the id and target of a queued message: they would add only easy members.
- Random car and train times: they are parameters, within no particular range.
- Command replies of the simulator, and its query and help commands.
- Simulated seconds of the train and real seconds of the intersections are different clocks, so the protocol results are about order and not about time.
- TrainToLocal.OccupiedCrossingIsHeld: does not cover an intersection whose own messages were dropped by a full outbox or lost on a link that is down; the source does not resend them.
