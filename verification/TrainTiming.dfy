/** Trains and gates on time: while a tick advances simulated time by at most one second, every
    registered train enters a closed crossing and no crossing ever faults. */
module TrainTiming {
  import opened Crossing
  import opened RailSpec
  import opened Agenda
  import opened CrossingSafety
  import opened TimerMirror
  import opened RailInvariant

  const DELAY_MS := 1000 * GATE_CLOSE_DELAY_SEC
  const TIMEOUT_MS := 1000 * TRAIN_TIMEOUT_SEC
  /** The longest tick covered by the warning margin. */
  const TICK_MS := 1000

  // ----- a crossing's part of the queue, as due times -----

  datatype Due = Never | At(ms: int)
  {
    /** Not queued, or due no earlier than t. */
    predicate From(t: int) {
      At? ==> t <= ms
    }
  }

  /** When the events of the train on one track are due, and when its timeout is. */
  datatype TrackDue = TrackDue(approach: Due, enter: Due, exit: Due, timeout: Due)

  datatype CrossingDue = CrossingDue(delay: Due, up: TrackDue, down: TrackDue)
  {
    function Of(d: Direction): TrackDue {
      if d.Up? then up else down
    }
  }

  /** Entry e of crossing i is about the same timer or train event as signal k. */
  predicate HasKey(e: Entry, i: nat, k: Signal) {
    e.cx == i && Sort(e.signal) == Sort(k)
  }

  /** Timer events are told apart by their timer only. */
  function Sort(signal: Signal): Signal {
    if signal.TimerFired? then signal.(generation := 0) else signal
  }

  ghost function DueOf(a: set<Entry>, i: nat, k: Signal): (r: Due)
    ensures r.At? ==> exists e :: e in a && HasKey(e, i, k) && e.at == r.ms
    ensures r.Never? ==> forall e :: e in a ==> !HasKey(e, i, k)
  {
    if exists e :: e in a && HasKey(e, i, k) then
      var e :| e in a && HasKey(e, i, k);
      At(e.at)
    else Never
  }

  ghost function TrackDueOf(a: set<Entry>, i: nat, d: Direction): TrackDue {
    TrackDue(DueOf(a, i, TrainApproach(d)), DueOf(a, i, TrainEnter(d)), DueOf(a, i, TrainExit(d)),
             DueOf(a, i, TimerFired(TrainTimeoutTimer(d), 0)))
  }

  ghost function View(a: set<Entry>, i: nat): CrossingDue {
    CrossingDue(DueOf(a, i, TimerFired(CloseDelay, 0)), TrackDueOf(a, i, Up), TrackDueOf(a, i, Down))
  }

  ghost predicate OneKey(a: set<Entry>) {
    && (forall e :: e in a ==> Queueable(e.signal))
    && (forall e, f {:trigger SameKey(e.cx, e.signal, f.cx, f.signal)} ::
          e in a && f in a && SameKey(e.cx, e.signal, f.cx, f.signal) ==> e == f)
  }

  lemma SoundOneKey(slots: seq<Slot>)
    requires Sound(slots)
    ensures OneKey(Entries(slots))
  {
    forall e, f | e in Entries(slots) && f in Entries(slots) && SameKey(e.cx, e.signal, f.cx, f.signal)
      ensures e == f
    {
      var s :| 0 <= s < |slots| && slots[s].active && EntryOf(slots[s]) == e;
      var r :| 0 <= r < |slots| && slots[r].active && EntryOf(slots[r]) == f;
      assert SameKey(slots[s].cx, slots[s].signal, slots[r].cx, slots[r].signal);
    }
  }

  lemma DueIs(a: set<Entry>, e: Entry, k: Signal)
    requires OneKey(a) && e in a && Sort(e.signal) == Sort(k)
    ensures DueOf(a, e.cx, k) == At(e.at)
  {
    var due := DueOf(a, e.cx, k);
    assert HasKey(e, e.cx, k);
    var f: Entry :| f in a && HasKey(f, e.cx, k) && f.at == due.ms;
    assert SameKey(e.cx, e.signal, f.cx, f.signal);
  }

  // ----- the plan -----

  /** The gate will be closed when the events of time `enter` are delivered. */
  predicate Ready(v: CrossingDue, c: Crossing, gate: int, enter: int) {
    || c.gate.GateClosed?
    || (c.gate.GateClosing? && gate <= enter)
    || (c.gate.GateOpen? && c.closeDelayPending && v.delay.At? && v.delay.ms + TICK_MS + MOVE_MS <= enter)
  }

  /** The queued events of the train on track d agree with the track and the gate. */
  predicate Planned(v: CrossingDue, c: Crossing, gate: int, l: Layout, now: int, d: Direction) {
    var t, track := v.Of(d), c.TrackOf(d);
    && (t.approach.At? ==> && t.enter == At(t.approach.ms + 1000 * l.warning)
                           && (track.NoTrain? || track.Cleared?))
    && (t.enter.At? ==> t.exit == At(t.enter.ms + 1000 * l.trainLength) && !track.OnCrossing?)
    && (track.Approaching? ==> t.enter.At? && Ready(v, c, gate, t.enter.ms))
    && (track.OnCrossing? ==> && t.exit.At? && t.exit.ms + TICK_MS <= now + TIMEOUT_MS
                              && t.timeout.From(t.exit.ms + TICK_MS))
    && (t.timeout.At? ==> track.OnCrossing?)
  }

  /** A crossing without fault, running to plan. */
  predicate OnTime(v: CrossingDue, c: Crossing, gate: int, l: Layout, now: int) {
    && c.fault.NoFault? && !c.resetPending && CrossingOk(c)
    && Planned(v, c, gate, l, now, Up) && Planned(v, c, gate, l, now, Down)
    && (v.delay.At? ==> v.delay.ms <= now + DELAY_MS)
    && (c.closeDelayPending <==> v.delay.At?)
    && (c.Moving() ==> gate <= now + MOVE_MS)
  }

  /** Nothing queued is older than the previous tick; what is not a warning is younger. */
  predicate Recent(v: CrossingDue, previous: int) {
    v.delay.From(previous + 1) && RecentTrack(v.up, previous) && RecentTrack(v.down, previous)
  }

  predicate RecentTrack(t: TrackDue, previous: int) {
    t.approach.From(previous) && t.enter.From(previous + 1) && t.exit.From(previous + 1) && t.timeout.From(previous + 1)
  }

  /** A timer keeps its due time, is dropped, or is started now if it was not armed. */
  predicate TimerMoves(due: Due, due': Due, armed: bool, armed': bool, now: int, delay: int) {
    && (due' == due || due' == Never || (!armed && due' == At(now + delay)))
    && (armed' <==> due'.At?)
  }

  /** How an event changes the due times of the timers. */
  predicate Moves(v: CrossingDue, v': CrossingDue, c: Crossing, c': Crossing, now: int) {
    && TimerMoves(v.delay, v'.delay, Armed(c, CloseDelay), Armed(c', CloseDelay), now, DELAY_MS)
    && TimerMoves(v.up.timeout, v'.up.timeout, Armed(c, TrainTimeoutUp), Armed(c', TrainTimeoutUp), now, TIMEOUT_MS)
    && TimerMoves(v.down.timeout, v'.down.timeout, Armed(c, TrainTimeoutDown), Armed(c', TrainTimeoutDown),
                  now, TIMEOUT_MS)
  }

  predicate SameTrains(t: TrackDue, t': TrackDue) {
    t'.approach == t.approach && t'.enter == t.enter && t'.exit == t.exit
  }

  predicate GateMoves(c: Crossing, c': Crossing, gate: int, gate': int, now: int) {
    && (c'.Moving() && c'.gate == c.gate ==> gate' == gate)
    && (c'.Moving() ==> gate' <= now + MOVE_MS)
  }

  predicate Warned(v: CrossingDue, v': CrossingDue, c: Crossing, c': Crossing, gate: int, gate': int,
                    l: Layout, now: int, previous: int, d: Direction)
  {
    && l.Accepted() && OnTime(v, c, gate, l, now) && Recent(v, previous) && now <= previous + TICK_MS
    && v.Of(d).approach.At? && v.Of(d).approach.ms <= now
    && c' == React(c, TrainApproach(d)).(generations := c'.generations)
    && Moves(v, v', c, c', now) && GateMoves(c, c', gate, gate', now)
    && SameTrains(v.Of(d).(approach := Never), v'.Of(d)) && SameTrains(v.Of(Other(d)), v'.Of(Other(d)))
  }

  lemma WarnedHere(v: CrossingDue, v': CrossingDue, c: Crossing, c': Crossing, gate: int, gate': int,
                   l: Layout, now: int, previous: int, d: Direction)
    requires Warned(v, v', c, c', gate, gate', l, now, previous, d)
    ensures Planned(v', c', gate', l, now, d)
  {
  }

  lemma WarnedBeside(v: CrossingDue, v': CrossingDue, c: Crossing, c': Crossing, gate: int, gate': int,
                     l: Layout, now: int, previous: int, d: Direction)
    requires Warned(v, v', c, c', gate, gate', l, now, previous, d)
    ensures Planned(v', c', gate', l, now, Other(d))
  {
  }

  /** A warning is delivered: the gate will be closed in time. */
  lemma WarningOnTime(v: CrossingDue, v': CrossingDue, c: Crossing, c': Crossing, gate: int, gate': int,
                   l: Layout, now: int, previous: int, d: Direction)
    requires Warned(v, v', c, c', gate, gate', l, now, previous, d)
    ensures OnTime(v', c', gate', l, now)
  {
    ReactOk(c, TrainApproach(d));
    WarnedHere(v, v', c, c', gate, gate', l, now, previous, d);
    WarnedBeside(v, v', c, c', gate, gate', l, now, previous, d);
  }

  /** A train enters: the gate is closed. */
  lemma EntryOnTime(v: CrossingDue, v': CrossingDue, c: Crossing, c': Crossing, gate: int, gate': int,
                    l: Layout, now: int, previous: int, d: Direction)
    requires l.Accepted() && OnTime(v, c, gate, l, now) && Recent(v, previous) && now <= previous + TICK_MS
    requires v.Of(d).enter.At? && v.Of(d).enter.ms <= now && (c.Moving() ==> gate > now)
    requires c' == React(c, TrainEnter(d)).(generations := c'.generations)
    requires Moves(v, v', c, c', now) && GateMoves(c, c', gate, gate', now)
    requires SameTrains(v.Of(d).(enter := Never), v'.Of(d)) && SameTrains(v.Of(Other(d)), v'.Of(Other(d)))
    ensures OnTime(v', c', gate', l, now)
    ensures c.TrackOf(d).Approaching? ==> c.gate.GateClosed?
  {
    ReactOk(c, TrainEnter(d));
  }

  predicate Departed(v: CrossingDue, v': CrossingDue, c: Crossing, c': Crossing, gate: int, gate': int,
                    l: Layout, now: int, previous: int, d: Direction)
  {
    && l.Accepted() && OnTime(v, c, gate, l, now) && Recent(v, previous) && now <= previous + TICK_MS
    && v.Of(d).exit.At? && v.Of(d).exit.ms <= now
    && c' == React(c, TrainExit(d)).(generations := c'.generations)
    && Moves(v, v', c, c', now) && GateMoves(c, c', gate, gate', now)
    && SameTrains(v.Of(d).(exit := Never), v'.Of(d)) && SameTrains(v.Of(Other(d)), v'.Of(Other(d)))
  }

  lemma DepartedHere(v: CrossingDue, v': CrossingDue, c: Crossing, c': Crossing, gate: int, gate': int,
                   l: Layout, now: int, previous: int, d: Direction)
    requires Departed(v, v', c, c', gate, gate', l, now, previous, d)
    ensures Planned(v', c', gate', l, now, d)
  {
  }

  lemma DepartedBeside(v: CrossingDue, v': CrossingDue, c: Crossing, c': Crossing, gate: int, gate': int,
                     l: Layout, now: int, previous: int, d: Direction)
    requires Departed(v, v', c, c', gate, gate', l, now, previous, d)
    ensures Planned(v', c', gate', l, now, Other(d))
  {
  }

  /** A train leaves. */
  lemma ExitOnTime(v: CrossingDue, v': CrossingDue, c: Crossing, c': Crossing, gate: int, gate': int,
                   l: Layout, now: int, previous: int, d: Direction)
    requires Departed(v, v', c, c', gate, gate', l, now, previous, d)
    ensures OnTime(v', c', gate', l, now)
  {
    ReactOk(c, TrainExit(d));
    DepartedHere(v, v', c, c', gate, gate', l, now, previous, d);
    DepartedBeside(v, v', c, c', gate, gate', l, now, previous, d);
  }

  /** The close delay ends: the gate starts early enough. */
  lemma DelayOnTime(v: CrossingDue, v': CrossingDue, c: Crossing, c': Crossing, gate: int, gate': int,
                    l: Layout, now: int, previous: int)
    requires l.Accepted() && OnTime(v, c, gate, l, now) && Recent(v, previous) && now <= previous + TICK_MS
    requires c.closeDelayPending && v.delay.ms <= now
    requires c' == Closing(c.(closeDelayPending := false)).(generations := c'.generations)
    requires Moves(v, v', c, c', now) && GateMoves(c, c', gate, gate', now)
    requires SameTrains(v.up, v'.up) && SameTrains(v.down, v'.down)
    ensures OnTime(v', c', gate', l, now)
  {
  }

  /** The gate arrives. */
  lemma ArrivalOnTime(v: CrossingDue, v': CrossingDue, c: Crossing, c': Crossing, gate: int, gate': int,
                      l: Layout, now: int, signal: Signal)
    requires l.Accepted() && OnTime(v, c, gate, l, now)
    requires (signal.GateHasClosed? && c.gate.GateClosing?) || (signal.GateHasOpened? && c.gate.GateOpening?)
    requires c' == React(c, signal).(generations := c'.generations)
    requires Moves(v, v', c, c', now) && GateMoves(c, c', gate, gate', now)
    requires SameTrains(v.up, v'.up) && SameTrains(v.down, v'.down)
    ensures OnTime(v', c', gate', l, now)
  {
    ReactOk(c, signal);
  }

  /** No train timeout is ever due. */
  lemma NoTrainTimeout(v: CrossingDue, c: Crossing, gate: int, l: Layout, now: int, previous: int, d: Direction)
    requires OnTime(v, c, gate, l, now) && Recent(v, previous) && now <= previous + TICK_MS
    requires c.TrackOf(d).OnCrossing?
    ensures v.Of(d).timeout.From(now + 1)
  {
  }

  // ----- from the event array to due times -----

  lemma SameDue(a: set<Entry>, a': set<Entry>, i: nat, k: Signal)
    requires OneKey(a) && OneKey(a')
    requires forall x :: HasKey(x, i, k) ==> (x in a <==> x in a')
    ensures DueOf(a', i, k) == DueOf(a, i, k)
  {
    if x :| x in a && HasKey(x, i, k) {
      DueIs(a, x, k);
      DueIs(a', x, k);
    }
  }

  lemma SameView(a: set<Entry>, a': set<Entry>, i: nat)
    requires OneKey(a) && OneKey(a')
    requires forall x: Entry :: x.cx == i ==> (x in a <==> x in a')
    ensures View(a', i) == View(a, i)
  {
    forall k: Signal
      ensures DueOf(a', i, k) == DueOf(a, i, k)
    {
      SameDue(a, a', i, k);
    }
  }

  lemma SameTrainDue(a: set<Entry>, a': set<Entry>, i: nat, d: Direction)
    requires OneKey(a) && OneKey(a')
    requires forall x :: TrainEntry(x, i, d) ==> (x in a <==> x in a')
    ensures SameTrains(TrackDueOf(a, i, d), TrackDueOf(a', i, d))
  {
    SameDue(a, a', i, TrainApproach(d));
    SameDue(a, a', i, TrainEnter(d));
    SameDue(a, a', i, TrainExit(d));
  }

  /** Entry e of track d is gone; the other events of the train keep their times. */
  lemma LessTrainDue(a: set<Entry>, a': set<Entry>, i: nat, d: Direction, e: Entry)
    requires OneKey(a) && OneKey(a') && e in a && e !in a' && TrainEntry(e, i, d)
    requires forall x :: TrainEntry(x, i, d) && x != e ==> (x in a <==> x in a')
    ensures var t := TrackDueOf(a, i, d);
            SameTrains(match e.signal
                       case TrainApproach(_) => t.(approach := Never)
                       case TrainEnter(_) => t.(enter := Never)
                       case TrainExit(_) => t.(exit := Never),
                       TrackDueOf(a', i, d))
  {
    forall x | x in a' && HasKey(x, i, e.signal)
      ensures false
    {
      assert TrainEntry(x, i, d);
      assert SameKey(x.cx, x.signal, e.cx, e.signal);
    }
    if !e.signal.TrainApproach? { SameDue(a, a', i, TrainApproach(d)); }
    if !e.signal.TrainEnter? { SameDue(a, a', i, TrainEnter(d)); }
    if !e.signal.TrainExit? { SameDue(a, a', i, TrainExit(d)); }
  }

  /** How the due time of a timer follows from the change of the queue. */
  lemma TimerDue(c: Crossing, c': Crossing, i: nat, gate': int, now: int, a: set<Entry>, a': set<Entry>, t: Timer)
    requires OneKey(a) && OneKey(a') && Mirrors(c', i, gate', a')
    requires forall x :: x in a' && TimerEntry(x, i, t) && x !in a ==>
               !Armed(c, t) && x.at == now + 1000 * TimerDelay(t)
    ensures var k := TimerFired(t, 0);
            TimerMoves(DueOf(a, i, k), DueOf(a', i, k), Armed(c, t), Armed(c', t), now, 1000 * TimerDelay(t))
  {
    var k := TimerFired(t, 0);
    assert forall x :: TimerEntry(x, i, t) <==> HasKey(x, i, k);
    if x :| x in a' && TimerEntry(x, i, t) {
      DueIs(a', x, k);
      if x in a {
        DueIs(a, x, k);
      }
    }
  }

  lemma TimersDue(c: Crossing, c': Crossing, i: nat, gate': int, now: int, a: set<Entry>, a': set<Entry>)
    requires OneKey(a) && OneKey(a') && Mirrors(c', i, gate', a')
    requires forall x :: x in a' && x !in a && x.cx == i && x.signal.TimerFired? ==>
               !Armed(c, x.signal.timer) && x.at == now + 1000 * TimerDelay(x.signal.timer)
    ensures Moves(View(a, i), View(a', i), c, c', now)
  {
    var v, v' := View(a, i), View(a', i);
    assert TimerMoves(v.delay, v'.delay, Armed(c, CloseDelay), Armed(c', CloseDelay), now, DELAY_MS) by {
      TimerDue(c, c', i, gate', now, a, a', CloseDelay);
    }
    assert TimerMoves(v.up.timeout, v'.up.timeout, Armed(c, TrainTimeoutUp), Armed(c', TrainTimeoutUp),
                      now, TIMEOUT_MS) by {
      TimerDue(c, c', i, gate', now, a, a', TrainTimeoutUp);
    }
    assert TimerMoves(v.down.timeout, v'.down.timeout, Armed(c, TrainTimeoutDown), Armed(c', TrainTimeoutDown),
                      now, TIMEOUT_MS) by {
      TimerDue(c, c', i, gate', now, a, a', TrainTimeoutDown);
    }
  }

  lemma AllTimersDue(w: World, i: nat, h: World, a': set<Entry>, ex: set<Entry>)
    requires w.Wf() && i < NUM_CROSSINGS && Sound(w.slots) && Changed(w, i, h, ex)
    requires a' == Entries(h.slots) - ex
    ensures OneKey(Entries(w.slots)) && OneKey(a')
    ensures Moves(View(Entries(w.slots), i), View(a', i), w.cx[i], h.cx[i], w.now)
  {
    var a := Entries(w.slots);
    SoundOneKey(w.slots);
    SoundOneKey(h.slots);
    assert OneKey(a');
    TimersDue(w.cx[i], h.cx[i], i, h.gates[i], w.now, a, a');
  }

  /** A change of crossing i in terms of due times. */
  lemma ChangeFacts(w: World, i: nat, h: World, a': set<Entry>, ex: set<Entry>)
    requires w.Wf() && i < NUM_CROSSINGS && Sound(w.slots) && Changed(w, i, h, ex)
    requires a' == Entries(h.slots) - ex
    ensures OneKey(Entries(w.slots)) && OneKey(a')
    ensures Moves(View(Entries(w.slots), i), View(a', i), w.cx[i], h.cx[i], w.now)
    ensures GateMoves(w.cx[i], h.cx[i], w.gates[i], h.gates[i], w.now)
    ensures forall x: Entry :: !x.signal.TimerFired? && x !in ex ==> (x in Entries(w.slots) <==> x in a')
    ensures forall x: Entry :: x.cx != i && x !in ex ==> (x in Entries(w.slots) <==> x in a')
  {
    AllTimersDue(w, i, h, a', ex);
  }

  // ----- the tick -----

  ghost predicate OnTimeAt(w: World, previous: int, i: nat)
    requires w.Wf() && i < NUM_CROSSINGS
  {
    var v := View(Entries(w.slots), i);
    OnTime(v, w.cx[i], w.gates[i], w.layout, w.now) && Recent(v, previous)
  }

  /** During a tick every crossing is on time, and nothing queued is older than the previous tick. */
  ghost predicate Timed(w: World, previous: int) {
    && Inv(w) && w.layout.Accepted() && previous <= w.now <= previous + TICK_MS
    && forall i :: 0 <= i < NUM_CROSSINGS ==> OnTimeAt(w, previous, i)
  }

  /** What a change of crossing i leaves to prove. */
  lemma OthersOnTime(w: World, previous: int, i: nat, r: World)
    requires Timed(w, previous) && i < NUM_CROSSINGS && Inv(r) && SameClock(w, r)
    requires r.cx == w.cx[i := r.cx[i]] && r.gates == w.gates[i := r.gates[i]]
    requires forall e: Entry :: e.cx != i ==> (e in Entries(r.slots) <==> e in Entries(w.slots))
    requires OnTimeAt(r, previous, i)
    ensures Timed(r, previous)
  {
    SoundOneKey(w.slots);
    SoundOneKey(r.slots);
    forall j | 0 <= j < NUM_CROSSINGS && j != i
      ensures OnTimeAt(r, previous, j)
    {
      assert OnTimeAt(w, previous, j);
      SameView(Entries(w.slots), Entries(r.slots), j);
    }
  }

  lemma TrainEventOnTime(a: set<Entry>, a': set<Entry>, c: Crossing, c': Crossing, g: int, g': int, l: Layout,
                         now: int, previous: int, i: nat, e: Entry)
    requires l.Accepted() && OnTime(View(a, i), c, g, l, now) && Recent(View(a, i), previous)
    requires previous <= now <= previous + TICK_MS && (c.Moving() ==> g > now)
    requires e in a && e !in a' && e.at <= now && OneKey(a) && OneKey(a')
    requires e.signal.TrainApproach? || e.signal.TrainEnter? || e.signal.TrainExit?
    requires TrainEntry(e, i, e.signal.dir)
    requires forall x: Entry :: !x.signal.TimerFired? && x != e ==> (x in a <==> x in a')
    requires c' == React(c, e.signal).(generations := c'.generations)
    requires Moves(View(a, i), View(a', i), c, c', now) && GateMoves(c, c', g, g', now)
    ensures OnTime(View(a', i), c', g', l, now) && Recent(View(a', i), previous)
    ensures e.signal.TrainEnter? && c.TrackOf(e.signal.dir).Approaching? ==> c.gate.GateClosed?
  {
    var v, v', d := View(a, i), View(a', i), e.signal.dir;
    DueIs(a, e, e.signal);
    LessTrainDue(a, a', i, d, e);
    SameTrainDue(a, a', i, Other(d));
    TrainDueOnTime(v, v', c, c', g, g', l, now, previous, e.signal, e.at);
  }

  /** The three train events, told by due times. */
  lemma TrainDueOnTime(v: CrossingDue, v': CrossingDue, c: Crossing, c': Crossing, g: int, g': int, l: Layout,
                       now: int, previous: int, signal: Signal, at: int)
    requires l.Accepted() && OnTime(v, c, g, l, now) && Recent(v, previous)
    requires previous <= now <= previous + TICK_MS && at <= now && (c.Moving() ==> g > now)
    requires c' == React(c, signal).(generations := c'.generations)
    requires Moves(v, v', c, c', now) && GateMoves(c, c', g, g', now)
    requires match signal
             case TrainApproach(d) =>
               && v.Of(d).approach == At(at) && SameTrains(v.Of(d).(approach := Never), v'.Of(d))
               && SameTrains(v.Of(Other(d)), v'.Of(Other(d)))
             case TrainEnter(d) =>
               && v.Of(d).enter == At(at) && SameTrains(v.Of(d).(enter := Never), v'.Of(d))
               && SameTrains(v.Of(Other(d)), v'.Of(Other(d)))
             case TrainExit(d) =>
               && v.Of(d).exit == At(at) && SameTrains(v.Of(d).(exit := Never), v'.Of(d))
               && SameTrains(v.Of(Other(d)), v'.Of(Other(d)))
             case _ => false
    ensures OnTime(v', c', g', l, now) && Recent(v', previous)
    ensures signal.TrainEnter? && c.TrackOf(signal.dir).Approaching? ==> c.gate.GateClosed?
  {
    match signal
    case TrainApproach(d) => WarningOnTime(v, v', c, c', g, g', l, now, previous, d);
    case TrainEnter(d) => EntryOnTime(v, v', c, c', g, g', l, now, previous, d);
    case TrainExit(d) => ExitOnTime(v, v', c, c', g, g', l, now, previous, d);
  }

  lemma TimerEventOnTime(a: set<Entry>, a': set<Entry>, c: Crossing, c': Crossing, g: int, g': int, l: Layout,
                         now: int, previous: int, i: nat, e: Entry)
    requires l.Accepted() && OnTime(View(a, i), c, g, l, now) && Recent(View(a, i), previous)
    requires previous <= now <= previous + TICK_MS
    requires e in a && e !in a' && e.at <= now && OneKey(a) && OneKey(a') && e.cx == i && e.signal.TimerFired?
    requires forall x: Entry :: !x.signal.TimerFired? ==> (x in a <==> x in a')
    requires !GateTimer(e.signal.timer) && Armed(c, e.signal.timer)
    requires e.signal.generation == c.generations.Get(e.signal.timer)
    requires c' == React(c, e.signal).(generations := c'.generations)
    requires Moves(View(a, i), View(a', i), c, c', now) && GateMoves(c, c', g, g', now)
    ensures OnTime(View(a', i), c', g', l, now) && Recent(View(a', i), previous)
  {
    var v, v' := View(a, i), View(a', i);
    DueIs(a, e, Sort(e.signal));
    SameTrainDue(a, a', i, Up);
    SameTrainDue(a, a', i, Down);
    match e.signal.timer
    case CloseDelay => DelayOnTime(v, v', c, c', g, g', l, now, previous);
    case TrainTimeoutUp => NoTrainTimeout(v, c, g, l, now, previous, Up);
    case TrainTimeoutDown => NoTrainTimeout(v, c, g, l, now, previous, Down);
  }

  /** What is known of the crossing and the entry when a due event is delivered. */
  ghost predicate EventReady(w: World, previous: int, i: nat, e: Entry) {
    && w.Wf() && i < NUM_CROSSINGS && Sound(w.slots) && e in Entries(w.slots) && e.cx == i && e.at <= w.now
    && w.layout.Accepted() && previous <= w.now <= previous + TICK_MS
    && OnTimeAt(w, previous, i) && (w.cx[i].Moving() ==> w.gates[i] > w.now)
    && (e.signal.TimerFired? ==> && Armed(w.cx[i], e.signal.timer) && !GateTimer(e.signal.timer)
                                 && e.signal.generation == w.cx[i].generations.Get(e.signal.timer))
  }

  lemma IsEventReady(w: World, previous: int, k: nat)
    requires Timed(w, previous) && GatesAhead(w, NUM_CROSSINGS) && k < MAX_PENDING_EVENTS && SlotDue(w, k)
    ensures EventReady(w, previous, w.slots[k].cx, EntryOf(w.slots[k]))
  {
    var i, e := w.slots[k].cx, EntryOf(w.slots[k]);
    assert e in Entries(w.slots);
    assert OnTimeAt(w, previous, i) && Mirrors(w.cx[i], i, w.gates[i], Entries(w.slots));
  }

  /** A due event keeps its crossing on time; a train due to enter finds the gate closed. */
  lemma EventIsDue(w: World, previous: int, i: nat, e: Entry, h: World, a': set<Entry>)
    requires EventReady(w, previous, i, e)
    requires Changed(w, i, h, {e}) && Reacts(w, i, e.signal, h) && a' == Entries(h.slots) - {e}
    ensures EventDue(Entries(w.slots), a', w.cx[i], h.cx[i], w.gates[i], h.gates[i], w.layout, w.now, previous, i, e)
  {
    ChangeFacts(w, i, h, a', {e});
  }

  lemma EventOnTime(w: World, previous: int, i: nat, e: Entry, h: World, a': set<Entry>)
    requires EventReady(w, previous, i, e)
    requires Changed(w, i, h, {e}) && Reacts(w, i, e.signal, h) && a' == Entries(h.slots) - {e}
    ensures OnTime(View(a', i), h.cx[i], h.gates[i], w.layout, w.now) && Recent(View(a', i), previous)
    ensures e.signal.TrainEnter? && w.cx[i].TrackOf(e.signal.dir).Approaching? ==> w.cx[i].gate.GateClosed?
  {
    EventIsDue(w, previous, i, e, h, a');
    AnyEventOnTime(Entries(w.slots), a', w.cx[i], h.cx[i], w.gates[i], h.gates[i], w.layout, w.now, previous, i, e);
  }

  /** What is known of a due event e of crossing i and of the change it makes. */
  ghost predicate EventDue(a: set<Entry>, a': set<Entry>, c: Crossing, c': Crossing, g: int, g': int, l: Layout,
                           now: int, previous: int, i: nat, e: Entry)
  {
    && l.Accepted() && OnTime(View(a, i), c, g, l, now) && Recent(View(a, i), previous)
    && previous <= now <= previous + TICK_MS && (c.Moving() ==> g > now)
    && e in a && e !in a' && e.at <= now && OneKey(a) && OneKey(a') && e.cx == i
    && (forall x: Entry :: !x.signal.TimerFired? && x != e ==> (x in a <==> x in a'))
    && (e.signal.TimerFired? ==> && Armed(c, e.signal.timer) && !GateTimer(e.signal.timer)
                                 && e.signal.generation == c.generations.Get(e.signal.timer))
    && c' == React(c, e.signal).(generations := c'.generations)
    && Moves(View(a, i), View(a', i), c, c', now) && GateMoves(c, c', g, g', now)
  }

  lemma AnyEventOnTime(a: set<Entry>, a': set<Entry>, c: Crossing, c': Crossing, g: int, g': int, l: Layout,
                       now: int, previous: int, i: nat, e: Entry)
    requires EventDue(a, a', c, c', g, g', l, now, previous, i, e)
    ensures OnTime(View(a', i), c', g', l, now) && Recent(View(a', i), previous)
    ensures e.signal.TrainEnter? && c.TrackOf(e.signal.dir).Approaching? ==> c.gate.GateClosed?
  {
    assert Queueable(e.signal);
    if e.signal.TimerFired? {
      TimerEventOnTime(a, a', c, c', g, g', l, now, previous, i, e);
    } else {
      TrainEventOnTime(a, a', c, c', g, g', l, now, previous, i, e);
    }
  }

  lemma DeliverSlotOnTime(w: World, previous: int, k: nat)
    requires Timed(w, previous) && Delivered(w, k) && k < MAX_PENDING_EVENTS
    ensures Timed(DeliverSlot(w, k), previous)
  {
    if SlotDue(w, k) {
      var i := w.slots[k].cx;
      var h := Handle(w, i, w.slots[k].signal);
      DueHandled(w, k);
      HandleOk(w, i, w.slots[k].signal);
      IsEventReady(w, previous, k);
      EventOnTime(w, previous, i, EntryOf(w.slots[k]), h, Entries(h.slots) - {EntryOf(w.slots[k])});
      DeliverSlotInv(w, k);
      OffRemoves(h.slots, k);
      SlotOnTime(w, previous, k, h, DeliverSlot(w, k));
    }
  }

  lemma SlotOnTime(w: World, previous: int, k: nat, h: World, r: World)
    requires Timed(w, previous) && k < MAX_PENDING_EVENTS && SlotDue(w, k) && Inv(r)
    requires var i, e := w.slots[k].cx, EntryOf(w.slots[k]);
             var a' := Entries(h.slots) - {e};
             && i < NUM_CROSSINGS && Changed(w, i, h, {e}) && SlotSpared(w, k, h)
             && r == h.(slots := r.slots)
             && Entries(r.slots) == (if h.slots[k].active then Entries(h.slots) - {EntryOf(h.slots[k])} else Entries(h.slots))
             && OnTime(View(a', i), h.cx[i], h.gates[i], w.layout, w.now) && Recent(View(a', i), previous)
    ensures Timed(r, previous)
  {
    assert Entries(r.slots) == Entries(h.slots) - {EntryOf(w.slots[k])};
    OthersOnTime(w, previous, w.slots[k].cx, r);
  }

  lemma {:induction false} DeliverOnTime(w: World, previous: int, n: nat)
    requires Timed(w, previous) && Delivered(w, 0) && n <= MAX_PENDING_EVENTS
    ensures Timed(Deliver(w, n), previous) && Delivered(Deliver(w, n), n)
  {
    DeliverInv(w, n);
    if n > 0 {
      DeliverOnTime(w, previous, n - 1);
      DeliverSlotOnTime(Deliver(w, n - 1), previous, n - 1);
    }
  }

  /** The arrival of a gate keeps its crossing on time. */
  lemma GateOnTime(w: World, previous: int, i: nat, signal: Signal, r: World)
    requires Timed(w, previous) && i < NUM_CROSSINGS && Inv(r)
    requires (signal.GateHasClosed? && w.cx[i].gate.GateClosing?) || (signal.GateHasOpened? && w.cx[i].gate.GateOpening?)
    requires Changed(w, i, r, {}) && r.cx[i] == React(w.cx[i], signal).(generations := r.cx[i].generations)
    ensures Timed(r, previous)
  {
    var a, a' := Entries(w.slots), Entries(r.slots);
    assert a' - {} == a';
    assert OnTimeAt(w, previous, i);
    ChangeFacts(w, i, r, a', {});
    GateEventOnTime(a, a', w.cx[i], r.cx[i], w.gates[i], r.gates[i], w.layout, w.now, previous, i, signal);
    OthersOnTime(w, previous, i, r);
  }

  lemma GateEventOnTime(a: set<Entry>, a': set<Entry>, c: Crossing, c': Crossing, g: int, g': int, l: Layout,
                        now: int, previous: int, i: nat, signal: Signal)
    requires l.Accepted() && OnTime(View(a, i), c, g, l, now) && Recent(View(a, i), previous) && previous <= now
    requires OneKey(a) && OneKey(a') && forall x: Entry :: !x.signal.TimerFired? ==> (x in a <==> x in a')
    requires (signal.GateHasClosed? && c.gate.GateClosing?) || (signal.GateHasOpened? && c.gate.GateOpening?)
    requires c' == React(c, signal).(generations := c'.generations)
    requires Moves(View(a, i), View(a', i), c, c', now) && GateMoves(c, c', g, g', now)
    ensures OnTime(View(a', i), c', g', l, now) && Recent(View(a', i), previous)
  {
    SameTrainDue(a, a', i, Up);
    SameTrainDue(a, a', i, Down);
    ArrivalOnTime(View(a, i), View(a', i), c, c', g, g', l, now, signal);
  }

  lemma FireGateOnTime(w: World, previous: int, i: nat)
    requires Timed(w, previous) && i < NUM_CROSSINGS && GatesAhead(w, i)
    ensures Timed(FireGate(w, i), previous)
  {
    assert OnTimeAt(w, previous, i);
    if 0 <= w.gates[i] <= w.now {
      FireGateInv(w, i);
      GoodAt(w, i);
      var w0 := w.(gates := w.gates[i := -1]);
      if w.cx[i].gate.GateClosing? {
        GateClosedChanged(w, i);
        HandleOk(w0, i, GateHasClosed);
        GateOnTime(w, previous, i, GateHasClosed, FireGate(w, i));
      } else {
        GateOpenedChanged(w, i);
        HandleOk(w0, i, GateHasOpened);
        GateOnTime(w, previous, i, GateHasOpened, FireGate(w, i));
      }
    }
  }

  lemma {:induction false} FireGatesOnTime(w: World, previous: int, n: nat)
    requires Timed(w, previous) && n <= NUM_CROSSINGS
    ensures Timed(FireGates(w, n), previous) && GatesAhead(FireGates(w, n), n)
  {
    FireGatesInv(w, n);
    if n > 0 {
      FireGatesOnTime(w, previous, n - 1);
      FireGateOnTime(FireGates(w, n - 1), previous, n - 1);
    }
  }

  // ----- runs -----

  const MAX_SAFE_SCALE := 10

  /** Between ticks of a punctual run. */
  ghost predicate Punctual(w: World) {
    Settled(w) && w.scale <= MAX_SAFE_SCALE && Timed(w, w.now)
  }

  /** The world in which slot k of the next tick is looked at. */
  function Midway(w: World, k: nat): World
    requires w.Wf() && k <= MAX_PENDING_EVENTS
  {
    Deliver(FireGates(Advance(w), NUM_CROSSINGS), k)
  }

  lemma MidwayOnTime(w: World, k: nat)
    requires Punctual(w) && k <= MAX_PENDING_EVENTS
    ensures Timed(Midway(w, k), w.now) && Delivered(Midway(w, k), k)
  {
    var w1 := Advance(w);
    AdvanceInv(w);
    forall i | 0 <= i < NUM_CROSSINGS
      ensures OnTimeAt(w1, w.now, i)
    {
      assert OnTimeAt(w, w.now, i);
    }
    FireGatesOnTime(w1, w.now, NUM_CROSSINGS);
    DeliverOnTime(FireGates(w1, NUM_CROSSINGS), w.now, k);
  }

  /** A train that enters while its track is registered always finds the gate closed. */
  lemma EntersClosedGate(w: World, k: nat)
    requires Punctual(w) && k < MAX_PENDING_EVENTS
    ensures var m := Midway(w, k);
            SlotDue(m, k) && m.slots[k].cx < NUM_CROSSINGS && m.slots[k].signal.TrainEnter?
            && m.cx[m.slots[k].cx].TrackOf(m.slots[k].signal.dir).Approaching?
            ==> m.cx[m.slots[k].cx].gate.GateClosed?
  {
    MidwayOnTime(w, k);
    var m := Midway(w, k);
    if SlotDue(m, k) {
      var h := Handle(m, m.slots[k].cx, m.slots[k].signal);
      DueHandled(m, k);
      HandleOk(m, m.slots[k].cx, m.slots[k].signal);
      IsEventReady(m, w.now, k);
      EventOnTime(m, w.now, m.slots[k].cx, EntryOf(m.slots[k]), h, Entries(h.slots) - {EntryOf(m.slots[k])});
    }
  }

  /** The due times with a new train on a free track. */
  lemma NewTrainDue(a: set<Entry>, a': set<Entry>, l: Layout, i: nat, d: Direction, at: int)
    requires OneKey(a) && OneKey(a') && TrackFree(a, i, d) && a' == a + TrainEntries(l, i, d, at, false)
    ensures var enter := at + 1000 * l.warning;
            && TrackDueOf(a', i, d).approach == At(at) && TrackDueOf(a', i, d).enter == At(enter)
            && TrackDueOf(a', i, d).exit == At(enter + 1000 * l.trainLength)
    ensures TrackDueOf(a, i, d).approach.Never? && TrackDueOf(a, i, d).enter.Never? && TrackDueOf(a, i, d).exit.Never?
  {
    var enter := at + 1000 * l.warning;
    DueIs(a', Entry(i, TrainApproach(d), at), TrainApproach(d));
    DueIs(a', Entry(i, TrainEnter(d), enter), TrainEnter(d));
    DueIs(a', Entry(i, TrainExit(d), enter + 1000 * l.trainLength), TrainExit(d));
  }

  lemma NewTrainOnTime(a: set<Entry>, a': set<Entry>, c: Crossing, g: int, l: Layout, now: int,
                       i: nat, d: Direction, at: int)
    requires OneKey(a) && OneKey(a') && TrackFree(a, i, d) && a' == a + TrainEntries(l, i, d, at, false)
    requires l.Accepted() && at >= now && OnTime(View(a, i), c, g, l, now) && Recent(View(a, i), now)
    ensures OnTime(View(a', i), c, g, l, now) && Recent(View(a', i), now)
  {
    NewTrainDue(a, a', l, i, d, at);
    EntriesOfTrain(l, i, d, at);
    RestDue(a, a', i, d);
    WaitingTrainOnTime(View(a, i), View(a', i), c, g, l, now, d, at);
  }

  lemma EntriesOfTrain(l: Layout, i: nat, d: Direction, at: int)
    ensures forall x :: x in TrainEntries(l, i, d, at, false) ==> TrainEntry(x, i, d)
  {
  }

  lemma RestDue(a: set<Entry>, a': set<Entry>, i: nat, d: Direction)
    requires OneKey(a) && OneKey(a') && forall x :: !TrainEntry(x, i, d) ==> (x in a <==> x in a')
    ensures View(a', i).delay == View(a, i).delay
    ensures TrackDueOf(a', i, d).timeout == TrackDueOf(a, i, d).timeout
    ensures TrackDueOf(a', i, Other(d)) == TrackDueOf(a, i, Other(d))
  {
    SameDue(a, a', i, TimerFired(CloseDelay, 0));
    SameDue(a, a', i, TimerFired(TrainTimeoutTimer(d), 0));
    SameDue(a, a', i, TimerFired(TrainTimeoutTimer(Other(d)), 0));
    SameTrainDue(a, a', i, Other(d));
  }

  /** A train whose three events have just been queued is on time. */
  lemma WaitingTrainOnTime(v: CrossingDue, v': CrossingDue, c: Crossing, g: int, l: Layout, now: int,
                           d: Direction, at: int)
    requires l.Accepted() && at >= now && OnTime(v, c, g, l, now) && Recent(v, now)
    requires v'.delay == v.delay && v'.Of(Other(d)) == v.Of(Other(d))
    requires var enter := at + 1000 * l.warning;
             v'.Of(d) == v.Of(d).(approach := At(at), enter := At(enter), exit := At(enter + 1000 * l.trainLength))
    requires v.Of(d).approach.Never? && v.Of(d).enter.Never? && v.Of(d).exit.Never?
    ensures OnTime(v', c, g, l, now) && Recent(v', now)
  {
  }

  /** A train started on a free track keeps the run punctual. */
  lemma TrainPunctual(w: World, i: nat, d: Direction, warn: int)
    requires Punctual(w) && i < NUM_CROSSINGS && TrackFree(Entries(w.slots), i, d) && warn >= 0
    ensures Punctual(QueueTrain(w, i, d, warn, false))
  {
    QueueTrainSettled(w, i, d, warn, false);
    TrainAdded(w, i, d, w.now + 1000 * warn, QueueTrain(w, i, d, warn, false));
  }

  lemma TrainAdded(w: World, i: nat, d: Direction, at: int, r: World)
    requires Punctual(w) && i < NUM_CROSSINGS && TrackFree(Entries(w.slots), i, d) && at >= w.now
    requires Settled(r) && r == w.(slots := r.slots)
    requires Entries(r.slots) == Entries(w.slots) + TrainEntries(w.layout, i, d, at, false)
    ensures Punctual(r)
  {
    SoundOneKey(w.slots);
    SoundOneKey(r.slots);
    assert OnTimeAt(w, w.now, i);
    NewTrainOnTime(Entries(w.slots), Entries(r.slots), w.cx[i], w.gates[i], w.layout, w.now, i, d, at);
    EntriesOfTrain(w.layout, i, d, at);
    OthersOnTime(w, w.now, i, r);
  }

  ghost predicate AllFree(w: World, d: Direction) {
    forall i: nat :: i < NUM_CROSSINGS ==> TrackFree(Entries(w.slots), i, d)
  }

  lemma LineNext(w: World, m: World, d: Direction, n: nat)
    requires n < NUM_CROSSINGS && w.Wf() && w.layout.Accepted() && Punctual(m) && LineQueued(w, m, d, n)
    ensures Punctual(QueueTrain(m, Visit(d, n), d, WarnDelay(w.layout, d, Visit(d, n)), false))
  {
    TrainPunctual(m, Visit(d, n), d, WarnDelay(w.layout, d, Visit(d, n)));
  }

  lemma LineFollows(w: World, m: World, r: World, d: Direction, n: nat)
    requires Settled(w) && w.layout.Accepted() && n < NUM_CROSSINGS && AllFree(w, d)
    requires m == QueueLine(w, d, n) && Punctual(m)
    requires r == QueueTrain(m, Visit(d, n), d, WarnDelay(w.layout, d, Visit(d, n)), false)
    ensures r == QueueLine(w, d, n + 1) && Punctual(r)
  {
    QueueLineSettled(w, d, n);
    LineNext(w, m, d, n);
  }

  lemma LinePunctual(w: World, d: Direction)
    requires Punctual(w) && AllFree(w, d)
    ensures Punctual(QueueLine(w, d, NUM_CROSSINGS))
  {
    var one := QueueTrain(w, Visit(d, 0), d, WarnDelay(w.layout, d, Visit(d, 0)), false);
    var two := QueueTrain(one, Visit(d, 1), d, WarnDelay(w.layout, d, Visit(d, 1)), false);
    var three := QueueTrain(two, Visit(d, 2), d, WarnDelay(w.layout, d, Visit(d, 2)), false);
    LineFollows(w, w, one, d, 0);
    LineFollows(w, one, two, d, 1);
    LineFollows(w, two, three, d, 2);
  }

  lemma LineCommandPunctual(w: World, d: Direction)
    requires Punctual(w) && LineFree(w, d)
    ensures Punctual(QueueLine(w, d, NUM_CROSSINGS))
  {
    forall i: nat | i < NUM_CROSSINGS
      ensures TrackFree(Entries(w.slots), i, d)
    {
      NotPending(w, i, d);
    }
    LinePunctual(w, d);
  }

  lemma TickPunctual(w: World)
    requires Punctual(w)
    ensures Punctual(Tick(w))
  {
    TickSettled(w);
    MidwayOnTime(w, MAX_PENDING_EVENTS);
    var r := Tick(w);
    SoundOneKey(r.slots);
    forall i | 0 <= i < NUM_CROSSINGS
      ensures OnTimeAt(r, r.now, i)
    {
      assert OnTimeAt(r, w.now, i);
      NothingDue(r, i);
    }
  }

  lemma NothingDue(r: World, i: nat)
    requires Delivered(r, MAX_PENDING_EVENTS) && i < NUM_CROSSINGS
    ensures Recent(View(Entries(r.slots), i), r.now)
  {
    forall e | e in Entries(r.slots)
      ensures e.at > r.now
    {
      var s: nat :| s < |r.slots| && r.slots[s].active && EntryOf(r.slots[s]) == e;
      assert !SlotDue(r, s);
    }
  }

  /** Commands of a run with ordinary trains and a time scale of at most b. */
  predicate Ordinary(c: Command, b: int) {
    !c.NoExit? && !c.InjectCmd? && (c.Scale? ==> c.n <= b || c.n > 100)
  }

  lemma StepPunctual(w: World, c: Command)
    requires Punctual(w) && Ordinary(c, MAX_SAFE_SCALE)
    ensures Punctual(Step(w, c))
  {
    match c
    case TickCmd => TickPunctual(w);
    case TrainLine(d) => if LineFree(w, d) { LineCommandPunctual(w, d); }
    case TrainBoth =>
      if LineFree(w, Up) && LineFree(w, Down) {
        LineCommandPunctual(w, Up);
        LineSettled(w, Up);
        LineCommandPunctual(QueueLine(w, Up, NUM_CROSSINGS), Down);
      }
    case TrainAt(i, d) =>
      if i < NUM_CROSSINGS && !TrainPending(w, i, d) {
        NotPending(w, i, d);
        TrainPunctual(w, i, d, 0);
      }
    case ResetCmd(i) =>
      assert i < NUM_CROSSINGS ==> OnTimeAt(w, w.now, i);
      assert Step(w, c) == w;
    case Scale(n) => if 1 <= n <= 100 { ScalePunctual(w, n); }
  }

  lemma ScalePunctual(w: World, n: int)
    requires Punctual(w) && 1 <= n <= MAX_SAFE_SCALE
    ensures Punctual(w.(scale := n))
  {
    var r := w.(scale := n);
    forall i | 0 <= i < NUM_CROSSINGS
      ensures OnTimeAt(r, r.now, i)
    {
      assert OnTimeAt(w, w.now, i);
    }
  }

  lemma InitPunctual(layout: Layout, scale: int)
    requires layout.Accepted() && scale <= MAX_SAFE_SCALE
    ensures Punctual(Init(layout, scale))
  {
    InitSettled(layout, scale);
    var w := Init(layout, scale);
    assert Entries(w.slots) == {};
    forall i | 0 <= i < NUM_CROSSINGS
      ensures OnTimeAt(w, w.now, i)
    {
    }
  }

  lemma {:induction false} RunPunctual(layout: Layout, scale: int, cmds: seq<Command>)
    requires layout.Accepted() && scale <= MAX_SAFE_SCALE
    requires forall k :: 0 <= k < |cmds| ==> Ordinary(cmds[k], MAX_SAFE_SCALE)
    ensures Punctual(Run(Init(layout, scale), cmds))
    decreases |cmds|
  {
    if cmds == [] {
      InitPunctual(layout, scale);
    } else {
      var n := |cmds| - 1;
      RunPunctual(layout, scale, cmds[..n]);
      StepPunctual(Run(Init(layout, scale), cmds[..n]), cmds[n]);
    }
  }

  /** With ticks of at most one second, no run of ordinary trains ever ends in a fault, and every
      registered train enters behind a closed gate. */
  lemma OrdinaryTrainsNeverFault(layout: Layout, scale: int, cmds: seq<Command>)
    requires layout.Accepted() && scale <= MAX_SAFE_SCALE
    requires forall k :: 0 <= k < |cmds| ==> Ordinary(cmds[k], MAX_SAFE_SCALE)
    ensures var w := Run(Init(layout, scale), cmds);
            && (forall i :: 0 <= i < NUM_CROSSINGS ==> w.cx[i].fault.NoFault?)
            && forall k: nat :: k < MAX_PENDING_EVENTS ==>
                 var m := Midway(w, k);
                 SlotDue(m, k) && m.slots[k].cx < NUM_CROSSINGS && m.slots[k].signal.TrainEnter?
                 && m.cx[m.slots[k].cx].TrackOf(m.slots[k].signal.dir).Approaching?
                 ==> m.cx[m.slots[k].cx].gate.GateClosed?
  {
    RunPunctual(layout, scale, cmds);
    var w := Run(Init(layout, scale), cmds);
    forall i | 0 <= i < NUM_CROSSINGS
      ensures w.cx[i].fault.NoFault?
    {
      assert OnTimeAt(w, w.now, i);
    }
    forall k: nat | k < MAX_PENDING_EVENTS
      ensures var m := Midway(w, k);
              SlotDue(m, k) && m.slots[k].cx < NUM_CROSSINGS && m.slots[k].signal.TrainEnter?
              && m.cx[m.slots[k].cx].TrackOf(m.slots[k].signal.dir).Approaching?
              ==> m.cx[m.slots[k].cx].gate.GateClosed?
    {
      EntersClosedGate(w, k);
    }
  }
}
