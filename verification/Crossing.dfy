/** One level crossing: the record that the crossing logic updates (crossing.h). */
module Crossing {

  const GATE_CLOSE_DELAY_SEC := 5
  const GATE_MOVE_SEC := 3
  const GATE_CLOSE_TIMEOUT_SEC := 10
  const GATE_OPEN_TIMEOUT_SEC := 10
  const TRAIN_TIMEOUT_SEC := 60
  const GENERATIONS := 0x1_0000_0000

  datatype Direction = Up | Down

  datatype Track = NoTrain | Approaching | OnCrossing | Cleared

  datatype Gate = GateOpen | GateClosing | GateClosed | GateOpening | GateFault

  datatype Fault =
    | NoFault
    | GateCloseTimeout
    | GateOpenTimeout
    | TrainTimeout
    | TrainEarly
    | Injected

  datatype Timer =
    | CloseDelay
    | CloseTimeout
    | OpenTimeout
    | TrainTimeoutUp
    | TrainTimeoutDown

  /** Timer ids in the order of the enumeration: the order in which a fault cancels them. */
  const ALL_TIMERS: seq<Timer> := [CloseDelay, CloseTimeout, OpenTimeout, TrainTimeoutUp, TrainTimeoutDown]

  function TrainTimeoutTimer(d: Direction): Timer {
    if d.Down? then TrainTimeoutDown else TrainTimeoutUp
  }

  /** Events accepted by the crossing logic. A timer event names its timer and generation. */
  datatype Signal =
    | TrainApproach(dir: Direction)
    | TrainEnter(dir: Direction)
    | TrainExit(dir: Direction)
    | GateHasClosed
    | GateHasOpened
    | TimerFired(timer: Timer, generation: nat)
    | InjectFault
    | ResetFault

  /** The generation counters, one 32-bit word for each timer. */
  datatype Generations = Generations(closeDelay: nat, closeTimeout: nat, openTimeout: nat,
                                     trainUp: nat, trainDown: nat)
  {
    function Get(t: Timer): nat {
      match t
      case CloseDelay => closeDelay
      case CloseTimeout => closeTimeout
      case OpenTimeout => openTimeout
      case TrainTimeoutUp => trainUp
      case TrainTimeoutDown => trainDown
    }

    function Bump(t: Timer): Generations {
      var g := (Get(t) + 1) % GENERATIONS;
      match t
      case CloseDelay => this.(closeDelay := g)
      case CloseTimeout => this.(closeTimeout := g)
      case OpenTimeout => this.(openTimeout := g)
      case TrainTimeoutUp => this.(trainUp := g)
      case TrainTimeoutDown => this.(trainDown := g)
    }
  }

  datatype Crossing = Crossing(up: Track, down: Track, gate: Gate, flashOn: bool, fault: Fault,
                               resetPending: bool, closeDelayPending: bool, generations: Generations)
  {
    function TrackOf(d: Direction): Track {
      if d.Up? then up else down
    }

    function SetTrack(d: Direction, t: Track): Crossing {
      if d.Up? then this.(up := t) else this.(down := t)
    }

    function Bump(t: Timer): Crossing {
      this.(generations := generations.Bump(t))
    }

    predicate BothTracksClear() {
      (up.NoTrain? || up.Cleared?) && (down.NoTrain? || down.Cleared?)
    }

    /** The gate is travelling and will report the end of its movement. */
    predicate Moving() {
      gate.GateClosing? || gate.GateOpening?
    }

    predicate Occupied(d: Direction) {
      TrackOf(d).Approaching? || TrackOf(d).OnCrossing?
    }

    /** Tracks that have cleared become free again. */
    function ReleaseCleared(): Crossing {
      this.(up := if up.Cleared? then NoTrain else up, down := if down.Cleared? then NoTrain else down)
    }
  }

  /** The state set up by crossing_init. */
  const Initial: Crossing :=
    Crossing(NoTrain, NoTrain, GateOpen, false, NoFault, false, false, Generations(0, 0, 0, 0, 0))

  function Other(d: Direction): Direction {
    if d.Up? then Down else Up
  }
}
