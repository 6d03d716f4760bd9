/** What the crossing logic keeps under every sequence of events, including timer events that
    the simulator would never produce. */
module CrossingSafety {
  import opened Crossing
  import opened RailSpec

  /** The record invariant of one crossing. */
  predicate CrossingOk(c: Crossing) {
    && (c.fault.NoFault? <==> !c.gate.GateFault?)
    && (c.gate.GateFault? ==> c.flashOn && !c.closeDelayPending)
    && (c.resetPending ==> c.gate.GateClosing? || c.gate.GateFault?)
    && (c.closeDelayPending ==> c.gate.GateOpen? && c.flashOn)
    && TrackOk(c, Up) && TrackOk(c, Down)
  }

  predicate TrackOk(c: Crossing, d: Direction) {
    && (c.Occupied(d) ==> c.flashOn)
    && (c.fault.NoFault? ==>
          && (c.TrackOf(d).OnCrossing? ==> c.gate.GateClosed?)
          && (c.TrackOf(d).Cleared? ==> c.gate.GateClosed? && c.Occupied(Other(d)))
          && (c.Occupied(d) && c.gate.GateOpen? ==> c.closeDelayPending))
  }

  /** The last PREEMPT or CLEAR sent for crossing i is a PREEMPT. */
  predicate Preempted(sent: seq<Notice>, i: nat)
    decreases |sent|
  {
    sent != [] &&
    var last := sent[|sent| - 1];
    if last == Preempt(i) then true
    else if last == Clear(i) then false
    else Preempted(sent[..|sent| - 1], i)
  }

  /** Every occupied track has been announced, and announced crossings keep flashing. */
  ghost predicate Announced(w: World, i: nat)
    requires w.Wf() && i < NUM_CROSSINGS
  {
    && (forall d :: w.cx[i].Occupied(d) ==> Preempted(w.sent, i))
    && (Preempted(w.sent, i) ==> w.cx[i].flashOn)
  }

  ghost predicate Safe(w: World) {
    w.Wf() && forall i :: 0 <= i < NUM_CROSSINGS ==> CrossingOk(w.cx[i]) && Announced(w, i)
  }

  /** Dropping timers only changes generations and slots. */
  lemma {:induction false} DropTimersFrame(w: World, i: nat, n: nat)
    requires w.Wf() && i < NUM_CROSSINGS && n <= |ALL_TIMERS|
    ensures var r := DropTimers(w, i, n);
            && r == w.(cx := r.cx, slots := r.slots)
            && r.cx == w.cx[i := w.cx[i].(generations := r.cx[i].generations)]
  {
    if n > 0 {
      DropTimersFrame(w, i, n - 1);
    }
  }

  lemma EnterFaultFrame(w: World, i: nat, f: Fault)
    requires w.Wf() && i < NUM_CROSSINGS
    ensures var r := EnterFault(w, i, f);
            && r == w.(cx := r.cx, slots := r.slots, sent := w.sent + [FaultAlert(i, f)])
            && r.cx == w.cx[i := w.cx[i].(fault := f, gate := GateFault, closeDelayPending := false,
                                          flashOn := true, generations := r.cx[i].generations)]
  {
    var w1 := w.Put(i, w.cx[i].(fault := f, gate := GateFault, closeDelayPending := false, flashOn := true));
    DropTimersFrame(w1, i, |ALL_TIMERS|);
  }

  lemma GateCloseFrame(w: World, i: nat)
    requires w.Wf() && i < NUM_CROSSINGS
    ensures var r := StartGateClose(w, i);
            && r == w.(cx := r.cx, slots := r.slots, gates := r.gates)
            && r.cx == if w.cx[i].gate.GateOpen? || w.cx[i].gate.GateOpening?
                       then w.cx[i := w.cx[i].(gate := GateClosing, closeDelayPending := false,
                                               generations := r.cx[i].generations)]
                       else w.cx
  {
  }

  lemma GateOpenFrame(w: World, i: nat)
    requires w.Wf() && i < NUM_CROSSINGS
    ensures var r := StartGateOpen(w, i);
            && r == w.(cx := r.cx, slots := r.slots, gates := r.gates)
            && r.cx == if w.cx[i].gate.GateClosed? || w.cx[i].gate.GateClosing?
                       then w.cx[i := w.cx[i].(gate := GateOpening, closeDelayPending := false,
                                               generations := r.cx[i].generations)]
                       else w.cx
  {
  }

  // ----- the record part of the crossing logic -----

  /** The fault an event raises when it raises one. */
  function FaultOf(signal: Signal): Fault {
    match signal
    case TrainEnter(_) => TrainEarly
    case TimerFired(CloseTimeout, _) => GateCloseTimeout
    case TimerFired(OpenTimeout, _) => GateOpenTimeout
    case TimerFired(_, _) => TrainTimeout
    case InjectFault => Injected
    case _ => NoFault
  }

  function Closing(c: Crossing): Crossing {
    if c.gate.GateOpen? || c.gate.GateOpening? then c.(gate := GateClosing, closeDelayPending := false) else c
  }

  function Opening(c: Crossing): Crossing {
    if c.gate.GateClosed? || c.gate.GateClosing? then c.(gate := GateOpening, closeDelayPending := false) else c
  }

  function Faulted(c: Crossing, f: Fault): Crossing {
    c.(fault := f, gate := GateFault, closeDelayPending := false, flashOn := true)
  }

  /** The event is dropped: the crossing is in fault, or the timer is stale. */
  predicate Ignored(c: Crossing, signal: Signal) {
    || (!c.fault.NoFault? && !signal.ResetFault?)
    || (signal.TimerFired? && signal.generation != c.generations.Get(signal.timer))
  }

  /** The record after an event, generations aside. */
  function React(c: Crossing, signal: Signal): Crossing {
    if Ignored(c, signal) then c
    else match signal
      case TrainApproach(d) =>
        if !c.TrackOf(d).NoTrain? then c
        else
          var c1 := c.SetTrack(d, Approaching).(flashOn := true);
          if c.gate.GateOpen? then c1.(closeDelayPending := true)
          else if c.gate.GateOpening? then Closing(c1) else c1
      case TrainEnter(d) =>
        if !c.TrackOf(d).Approaching? then c
        else if c.gate.GateClosed? then c.SetTrack(d, OnCrossing) else Faulted(c, TrainEarly)
      case TrainExit(d) =>
        if !c.TrackOf(d).OnCrossing? then c
        else
          var c1 := c.SetTrack(d, Cleared);
          if c1.BothTracksClear() then Opening(c1.ReleaseCleared()) else c1
      case GateHasClosed =>
        if !c.gate.GateClosing? then c
        else if c.resetPending then Opening(c.(gate := GateClosed, resetPending := false))
        else c.(gate := GateClosed)
      case GateHasOpened =>
        if !c.gate.GateOpening? then c
        else if c.BothTracksClear() then c.(gate := GateOpen, flashOn := false)
        else Closing(c.(gate := GateOpen))
      case TimerFired(t, _) =>
        if t.CloseDelay? then Closing(c.(closeDelayPending := false)) else Faulted(c, FaultOf(signal))
      case InjectFault => Faulted(c, Injected)
      case ResetFault =>
        if c.fault.NoFault? then c
        else c.(fault := NoFault, up := NoTrain, down := NoTrain, gate := GateClosing, resetPending := true)
  }

  /** What the event sends. */
  function Sends(i: nat, c: Crossing, signal: Signal): seq<Notice> {
    if Ignored(c, signal) then []
    else if signal.TrainApproach? && c.TrackOf(signal.dir).NoTrain? then [Preempt(i)]
    else if signal.GateHasOpened? && c.gate.GateOpening? && c.BothTracksClear() then [Clear(i)]
    else if React(c, signal).gate.GateFault? then [FaultAlert(i, FaultOf(signal))]
    else []
  }

  /** Handling the event changes only crossing i, its gate, the slots and the outbox, as described. */
  ghost predicate Reacts(w: World, i: nat, signal: Signal, r: World)
    requires w.Wf() && r.Wf() && i < NUM_CROSSINGS
  {
    && r == w.(cx := r.cx, slots := r.slots, gates := r.gates, sent := w.sent + Sends(i, w.cx[i], signal))
    && r.cx == w.cx[i := React(w.cx[i], signal).(generations := r.cx[i].generations)]
  }

  lemma HandleReacts(w: World, i: nat, signal: Signal)
    requires w.Wf() && i < NUM_CROSSINGS && CrossingOk(w.cx[i])
    ensures Reacts(w, i, signal, Handle(w, i, signal))
  {
    if Ignored(w.cx[i], signal) {
      assert w.cx[i := w.cx[i]] == w.cx;
    } else {
      match signal
      case TrainApproach(d) => ApproachReacts(w, i, d);
      case TrainEnter(d) => EnterFaultFrame(w, i, TrainEarly);
      case TrainExit(d) => ExitReacts(w, i, d);
      case GateHasClosed => GateClosedReacts(w, i);
      case GateHasOpened => GateOpenedReacts(w, i);
      case TimerFired(t, g) => TimerReacts(w, i, t, g);
      case InjectFault => EnterFaultFrame(w, i, Injected);
      case ResetFault =>
    }
  }

  lemma ApproachReacts(w: World, i: nat, d: Direction)
    requires w.Wf() && i < NUM_CROSSINGS && CrossingOk(w.cx[i]) && w.cx[i].fault.NoFault?
    ensures Reacts(w, i, TrainApproach(d), OnApproach(w, i, d))
  {
    if w.cx[i].TrackOf(d).NoTrain? {
      GateCloseFrame(w.Put(i, w.cx[i].SetTrack(d, Approaching).(flashOn := true)).Send(Preempt(i)), i);
    }
  }

  lemma ExitReacts(w: World, i: nat, d: Direction)
    requires w.Wf() && i < NUM_CROSSINGS && w.cx[i].fault.NoFault? && CrossingOk(w.cx[i])
    ensures Reacts(w, i, TrainExit(d), OnExit(w, i, d))
  {
    if w.cx[i].TrackOf(d).OnCrossing? {
      var w1 := DropTimer(w.Put(i, w.cx[i].SetTrack(d, Cleared)), i, TrainTimeoutTimer(d));
      GateOpenFrame(w1.Put(i, w1.cx[i].ReleaseCleared()), i);
    }
  }

  lemma GateClosedReacts(w: World, i: nat)
    requires w.Wf() && i < NUM_CROSSINGS && w.cx[i].fault.NoFault? && CrossingOk(w.cx[i])
    ensures Reacts(w, i, GateHasClosed, OnGateClosed(w, i))
  {
    if w.cx[i].gate.GateClosing? {
      var w1 := DropTimer(w.Put(i, w.cx[i].(gate := GateClosed)), i, CloseTimeout);
      GateOpenFrame(w1.Put(i, w1.cx[i].(resetPending := false)), i);
    }
  }

  lemma GateOpenedReacts(w: World, i: nat)
    requires w.Wf() && i < NUM_CROSSINGS && w.cx[i].fault.NoFault? && CrossingOk(w.cx[i])
    ensures Reacts(w, i, GateHasOpened, OnGateOpened(w, i))
  {
    if w.cx[i].gate.GateOpening? {
      GateCloseFrame(DropTimer(w.Put(i, w.cx[i].(gate := GateOpen)), i, OpenTimeout), i);
    }
  }

  lemma TimerReacts(w: World, i: nat, t: Timer, g: nat)
    requires w.Wf() && i < NUM_CROSSINGS && CrossingOk(w.cx[i]) && !Ignored(w.cx[i], TimerFired(t, g))
    ensures Reacts(w, i, TimerFired(t, g), OnTimer(w, i, t, g))
  {
    if t.CloseDelay? {
      GateCloseFrame(w.Put(i, w.cx[i].(closeDelayPending := false)), i);
    } else {
      EnterFaultFrame(w, i, FaultOf(TimerFired(t, g)));
    }
  }

  /** Every event keeps the record invariant. */
  lemma ReactOk(c: Crossing, signal: Signal)
    requires CrossingOk(c)
    ensures CrossingOk(React(c, signal))
  {
  }

  /** One event keeps the record invariant. */
  lemma HandleOk(w: World, i: nat, signal: Signal)
    requires w.Wf() && i < NUM_CROSSINGS && CrossingOk(w.cx[i])
    ensures var r := Handle(w, i, signal);
            CrossingOk(r.cx[i]) && Reacts(w, i, signal, r)
  {
    HandleReacts(w, i, signal);
    ReactOk(w.cx[i], signal);
  }

  lemma PreemptedExtends(sent: seq<Notice>, n: Notice, i: nat)
    ensures Preempted(sent + [n], i) <==>
            n == Preempt(i) || (n != Clear(i) && Preempted(sent, i))
  {
    assert (sent + [n])[..|sent|] == sent;
  }

  lemma SentAnnounces(sent: seq<Notice>, i: nat, c: Crossing, signal: Signal, j: nat)
    ensures var n := Sends(i, c, signal);
            Preempted(sent + n, j) <==> n == [Preempt(j)] || (n != [Clear(j)] && Preempted(sent, j))
  {
    var n := Sends(i, c, signal);
    if n == [] {
      assert sent + n == sent;
    } else {
      assert n == [n[0]];
      PreemptedExtends(sent, n[0], j);
    }
  }

  /** A track that becomes occupied is announced at once. */
  lemma NewlyOccupied(i: nat, c: Crossing, signal: Signal, d: Direction)
    ensures React(c, signal).Occupied(d) ==> c.Occupied(d) || Sends(i, c, signal) == [Preempt(i)]
  {
  }

  lemma ChangeSafeHere(w: World, i: nat, signal: Signal, r: World)
    requires Safe(w) && i < NUM_CROSSINGS && r.Wf() && Reacts(w, i, signal, r)
    ensures CrossingOk(r.cx[i]) && Announced(r, i)
  {
    assert Announced(w, i);
    ReactOk(w.cx[i], signal);
    SentAnnounces(w.sent, i, w.cx[i], signal, i);
    NewlyOccupied(i, w.cx[i], signal, Up);
    NewlyOccupied(i, w.cx[i], signal, Down);
  }

  lemma ChangeSafeElsewhere(w: World, i: nat, signal: Signal, r: World, j: nat)
    requires Safe(w) && i < NUM_CROSSINGS && j < NUM_CROSSINGS && j != i && r.Wf() && Reacts(w, i, signal, r)
    ensures CrossingOk(r.cx[j]) && Announced(r, j)
  {
    assert Announced(w, j);
    SentAnnounces(w.sent, i, w.cx[i], signal, j);
  }

  lemma ChangeSafe(w: World, i: nat, signal: Signal, r: World)
    requires Safe(w) && i < NUM_CROSSINGS && r.Wf() && Reacts(w, i, signal, r)
    ensures Safe(r)
  {
    forall j | 0 <= j < NUM_CROSSINGS
      ensures CrossingOk(r.cx[j]) && Announced(r, j)
    {
      if j == i {
        ChangeSafeHere(w, i, signal, r);
      } else {
        ChangeSafeElsewhere(w, i, signal, r, j);
      }
    }
  }

  /** One event on any crossing keeps every crossing safe. */
  lemma HandleSafe(w: World, i: nat, signal: Signal)
    requires Safe(w) && i < NUM_CROSSINGS
    ensures Safe(Handle(w, i, signal))
  {
    HandleReacts(w, i, signal);
    ChangeSafe(w, i, signal, Handle(w, i, signal));
  }

  /** A run of arbitrary events, each addressed to a crossing. */
  function HandleAll(w: World, events: seq<(nat, Signal)>): (r: World)
    requires w.Wf() && forall k :: 0 <= k < |events| ==> events[k].0 < NUM_CROSSINGS
    ensures r.Wf()
    decreases |events|
  {
    if events == [] then w
    else
      var n := |events| - 1;
      Handle(HandleAll(w, events[..n]), events[n].0, events[n].1)
  }

  /** Every sequence of events keeps all crossings safe. */
  lemma {:induction false} EveryEventRunIsSafe(w: World, events: seq<(nat, Signal)>)
    requires Safe(w) && forall k :: 0 <= k < |events| ==> events[k].0 < NUM_CROSSINGS
    ensures Safe(HandleAll(w, events))
    decreases |events|
  {
    if events != [] {
      var n := |events| - 1;
      EveryEventRunIsSafe(w, events[..n]);
      HandleSafe(HandleAll(w, events[..n]), events[n].0, events[n].1);
    }
  }

  /** An event that turns the road lights off sends CLEAR, with the gate open and both tracks free. */
  lemma LightsOutWithClear(w: World, i: nat, signal: Signal)
    requires Safe(w) && i < NUM_CROSSINGS
    ensures var r := Handle(w, i, signal);
            w.cx[i].flashOn && !r.cx[i].flashOn
            ==> r.sent == w.sent + [Clear(i)] && r.cx[i].gate.GateOpen?
                && r.cx[i].up.NoTrain? && r.cx[i].down.NoTrain?
  {
    HandleOk(w, i, signal);
  }

  predicate NoClear(sent: seq<Notice>, from: nat, i: nat) {
    forall k :: from <= k < |sent| ==> sent[k] != Clear(i)
  }

  lemma {:induction false} PreemptedStays(sent: seq<Notice>, from: nat, i: nat)
    requires from <= |sent| && Preempted(sent[..from], i) && NoClear(sent, from, i)
    ensures Preempted(sent, i)
    decreases |sent|
  {
    if from == |sent| {
      assert sent[..from] == sent;
    } else {
      var n := |sent| - 1;
      assert sent[..n][..from] == sent[..from];
      PreemptedStays(sent[..n], from, i);
    }
  }

  lemma {:induction false} OnlyMoreSent(w: World, events: seq<(nat, Signal)>)
    requires Safe(w) && forall k :: 0 <= k < |events| ==> events[k].0 < NUM_CROSSINGS
    ensures w.sent <= HandleAll(w, events).sent
    decreases |events|
  {
    if events != [] {
      var n := |events| - 1;
      OnlyMoreSent(w, events[..n]);
      EveryEventRunIsSafe(w, events[..n]);
      HandleReacts(HandleAll(w, events[..n]), events[n].0, events[n].1);
    }
  }

  /** In every sequence of events, from a PREEMPT of a crossing until its next CLEAR its road lights flash. */
  lemma FlashUntilClear(w: World, events: seq<(nat, Signal)>, i: nat)
    requires Safe(w) && i < NUM_CROSSINGS && forall k :: 0 <= k < |events| ==> events[k].0 < NUM_CROSSINGS
    ensures var r := HandleAll(w, events);
            Preempted(w.sent, i) && NoClear(r.sent, |w.sent|, i) ==> r.cx[i].flashOn
  {
    EveryEventRunIsSafe(w, events);
    OnlyMoreSent(w, events);
    var r := HandleAll(w, events);
    assert Announced(r, i);
    if Preempted(w.sent, i) && NoClear(r.sent, |w.sent|, i) {
      assert r.sent[..|w.sent|] == w.sent;
      PreemptedStays(r.sent, |w.sent|, i);
    }
  }

  /** A CLEAR is sent by an opened gate only, and only when both tracks are free. */
  lemma ClearOnlyWhenClear(w: World, i: nat, signal: Signal)
    requires Safe(w) && i < NUM_CROSSINGS
    ensures var r := Handle(w, i, signal);
            r.sent == w.sent + [Clear(i)] ==>
              && signal.GateHasOpened? && w.cx[i].gate.GateOpening?
              && r.cx[i].gate.GateOpen? && r.cx[i].up.NoTrain? && r.cx[i].down.NoTrain?
  {
    HandleOk(w, i, signal);
    var sent := Handle(w, i, signal).sent;
    assert sent == w.sent + [Clear(i)] ==> sent[|w.sent|] == Clear(i);
  }

  lemma InitSafe(layout: Layout, scale: int)
    ensures Safe(Init(layout, scale))
  {
  }
}
