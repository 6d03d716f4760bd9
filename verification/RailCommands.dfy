/** What the commands of the simulator do, said of the events in the array and nothing else. */
module RailCommands {
  import opened Crossing
  import opened RailSpec
  import opened Agenda
  import opened CrossingSafety
  import opened RailInvariant
  import RailRuns

  predicate IsTrainEvent(s: Signal) {
    s.TrainApproach? || s.TrainEnter? || s.TrainExit?
  }

  predicate IsTrainCommand(c: Command) {
    c.TrainLine? || c.TrainBoth? || c.TrainAt? || c.NoExit?
  }

  /** The command asks for a train in direction d at crossing i. */
  predicate Asks(c: Command, d: Direction, i: nat) {
    i < NUM_CROSSINGS &&
    match c
    case TrainLine(x) => d == x
    case TrainBoth => true
    case TrainAt(j, x) => i == j && d == x
    case NoExit(j, x) => i == j && d == x
    case _ => false
  }

  /** Seconds between crossing i and the next one to the east. */
  function Gap(l: Layout, i: nat): int {
    if i == 0 then l.distance01 else l.distance12
  }

  /** Seconds from the start of the line to crossing i, gap by gap: DOWN trains start at P1, UP trains at P3. */
  function FromStart(l: Layout, d: Direction, i: nat): int
    requires i < NUM_CROSSINGS
    decreases if d.Up? then NUM_CROSSINGS - i else i
  {
    match d
    case Down => if i == 0 then 0 else FromStart(l, d, i - 1) + Gap(l, i - 1)
    case Up => if i == NUM_CROSSINGS - 1 then 0 else FromStart(l, d, i + 1) + Gap(l, i)
  }

  /** Simulated time at which the train is announced at crossing i. */
  function Announcement(w: World, c: Command, d: Direction, i: nat): int
    requires i < NUM_CROSSINGS
  {
    w.now + 1000 * if c.TrainLine? || c.TrainBoth? then FromStart(w.layout, d, i) else 0
  }

  /** One of the events a command adds: the announcement of a train asked for, its entry when the warning has
      passed, and its exit after its length, unless it never exits. */
  predicate NewEvent(w: World, c: Command, e: Entry) {
    IsTrainEvent(e.signal) && Asks(c, e.signal.dir, e.cx) &&
    var at := Announcement(w, c, e.signal.dir, e.cx);
    match e.signal
    case TrainApproach(_) => e.at == at
    case TrainEnter(_) => e.at == at + 1000 * w.layout.warning
    case _ => !c.NoExit? && e.at == at + 1000 * (w.layout.warning + w.layout.trainLength)
  }

  /** No train event is queued for any track the command asks for. */
  ghost predicate AskedFree(w: World, c: Command) {
    forall e :: e in Entries(w.slots) && IsTrainEvent(e.signal) ==> !Asks(c, e.signal.dir, e.cx)
  }

  /** The events of the trains are added to those that were queued; nothing else changes. */
  ghost predicate TrainsAdded(w: World, c: Command, r: World) {
    && r == w.(slots := r.slots) && Sound(r.slots)
    && forall e :: e in Entries(r.slots) <==> e in Entries(w.slots) || NewEvent(w, c, e)
  }

  /** What each command does to a settled world. */
  ghost predicate CommandDone(w: World, c: Command, r: World)
    requires w.Wf() && r.Wf()
  {
    match c
    case TickCmd => r.now == w.now + 100 * w.scale && forall e :: e in Entries(r.slots) ==> e.at > r.now
    case Scale(n) => r == w.(scale := if 1 <= n <= 100 then n else w.scale)
    case InjectCmd(i) => if i < NUM_CROSSINGS then Reacts(w, i, InjectFault, r) else r == w
    case ResetCmd(i) => if i < NUM_CROSSINGS then Reacts(w, i, ResetFault, r) else r == w
    case _ => if AskedFree(w, c) then TrainsAdded(w, c, r) else r == w
  }

  /** The simulator starts with open gates, dark lights and free tracks, without events, and a time scale that is
      not positive becomes one. */
  lemma StartsIdle(layout: Layout, scale: int, i: nat)
    requires i < NUM_CROSSINGS
    ensures var w := Init(layout, scale);
            && w.cx[i] == Crossing(NoTrain, NoTrain, GateOpen, false, NoFault, false, false, Generations(0, 0, 0, 0, 0))
            && w.gates[i] == -1 && w.now == 0 && w.scale == (if scale <= 0 then 1 else scale) && w.layout == layout
            && w.sent == [] && |w.slots| == 64 && forall k :: 0 <= k < 64 ==> !w.slots[k].active
  {
  }

  // ----- what is asked before a command -----

  /** The event of a train at crossing i in direction d. */
  predicate OnTrack(s: Slot, i: nat, d: Direction) {
    s.active && s.cx == i && (s.signal == TrainApproach(d) || s.signal == TrainEnter(d) || s.signal == TrainExit(d))
  }

  predicate Pending(slots: seq<Slot>, i: nat, d: Direction) {
    exists k :: 0 <= k < |slots| && OnTrack(slots[k], i, d)
  }

  ghost function Unused(slots: seq<Slot>, n: nat): set<nat>
    requires n <= |slots|
  {
    set k: nat | k < n && !slots[k].active
  }

  lemma PendingIsOnTrack(w: World, i: nat, d: Direction)
    ensures TrainPending(w, i, d) <==> Pending(w.slots, i, d)
  {
    forall k | 0 <= k < |w.slots|
      ensures IsTrainSlot(w.slots[k], i, d) <==> OnTrack(w.slots[k], i, d)
    {
    }
  }

  lemma {:induction false} FreeIsUnused(slots: seq<Slot>, n: nat)
    requires n <= |slots|
    ensures FreeSlots(slots, n) == |Unused(slots, n)|
    decreases n
  {
    if n > 0 {
      FreeIsUnused(slots, n - 1);
      var s := Unused(slots, n - 1);
      assert Unused(slots, n) == if slots[n - 1].active then s else s + {n - 1};
    }
  }

  // ----- a line train -----

  /** The events of a line train at crossing i. */
  function LineEntries(w: World, d: Direction, i: nat): set<Entry>
    requires i < NUM_CROSSINGS
  {
    TrainEntries(w.layout, i, d, w.now + 1000 * WarnDelay(w.layout, d, i), false)
  }

  lemma LineAddsOne(w: World, m: World, r: World, d: Direction, n: nat)
    requires n < NUM_CROSSINGS && LineQueued(w, m, d, n)
    requires r == QueueTrain(m, Visit(d, n), d, WarnDelay(w.layout, d, Visit(d, n)), false)
    ensures LineQueued(w, r, d, n + 1) && Entries(r.slots) == Entries(m.slots) + LineEntries(w, d, Visit(d, n))
  {
    QueueTrainSettled(m, Visit(d, n), d, WarnDelay(w.layout, d, Visit(d, n)), false);
    LineGrows(w, m, d, n + 1, Visit(d, n), WarnDelay(w.layout, d, Visit(d, n)));
  }

  lemma LineIsThreeTrains(w: World, d: Direction, one: World, two: World, three: World)
    requires w.Wf() && one.Wf() && two.Wf()
    requires one == QueueTrain(w, Visit(d, 0), d, WarnDelay(w.layout, d, Visit(d, 0)), false)
    requires two == QueueTrain(one, Visit(d, 1), d, WarnDelay(w.layout, d, Visit(d, 1)), false)
    requires three == QueueTrain(two, Visit(d, 2), d, WarnDelay(w.layout, d, Visit(d, 2)), false)
    ensures QueueLine(w, d, NUM_CROSSINGS) == three
  {
    assert QueueLine(w, d, 0) == w;
    assert QueueLine(w, d, 1) == one;
    assert QueueLine(w, d, 2) == two;
  }

  lemma ThreeTrainsAdded(w: World, d: Direction, one: World, two: World, three: World)
    requires LineQueued(w, w, d, 0) && one.Wf() && two.Wf()
    requires one == QueueTrain(w, Visit(d, 0), d, WarnDelay(w.layout, d, Visit(d, 0)), false)
    requires two == QueueTrain(one, Visit(d, 1), d, WarnDelay(w.layout, d, Visit(d, 1)), false)
    requires three == QueueTrain(two, Visit(d, 2), d, WarnDelay(w.layout, d, Visit(d, 2)), false)
    ensures LineQueued(w, three, d, NUM_CROSSINGS)
    ensures Entries(three.slots) == Entries(w.slots) + LineEntries(w, d, Visit(d, 0)) + LineEntries(w, d, Visit(d, 1))
                                    + LineEntries(w, d, Visit(d, 2))
  {
    LineAddsOne(w, w, one, d, 0);
    LineAddsOne(w, one, two, d, 1);
    LineAddsOne(w, two, three, d, 2);
  }

  lemma LineAdds(w: World, d: Direction, r: World)
    requires LineQueued(w, w, d, 0) && r == QueueLine(w, d, NUM_CROSSINGS)
    ensures LineQueued(w, r, d, NUM_CROSSINGS)
    ensures Entries(r.slots) == Entries(w.slots) + LineEntries(w, d, Visit(d, 0)) + LineEntries(w, d, Visit(d, 1))
                                + LineEntries(w, d, Visit(d, 2))
  {
    var one := QueueTrain(w, Visit(d, 0), d, WarnDelay(w.layout, d, Visit(d, 0)), false);
    var two := QueueTrain(one, Visit(d, 1), d, WarnDelay(w.layout, d, Visit(d, 1)), false);
    var three := QueueTrain(two, Visit(d, 2), d, WarnDelay(w.layout, d, Visit(d, 2)), false);
    LineIsThreeTrains(w, d, one, two, three);
    ThreeTrainsAdded(w, d, one, two, three);
  }

  lemma DelayIsDistance(l: Layout, d: Direction, i: nat)
    requires i < NUM_CROSSINGS
    ensures WarnDelay(l, d, i) == FromStart(l, d, i)
  {
    assert FromStart(l, Down, 1) == FromStart(l, Down, 0) + Gap(l, 0);
    assert FromStart(l, Up, 1) == FromStart(l, Up, 2) + Gap(l, 1);
  }

  lemma TrainEntriesAre(l: Layout, i: nat, d: Direction, at: int, noExit: bool, e: Entry)
    ensures e in TrainEntries(l, i, d, at, noExit) <==>
            && e.cx == i && IsTrainEvent(e.signal) && e.signal.dir == d
            && match e.signal
               case TrainApproach(_) => e.at == at
               case TrainEnter(_) => e.at == at + 1000 * l.warning
               case _ => !noExit && e.at == at + 1000 * (l.warning + l.trainLength)
  {
  }

  /** The events of a line train at a crossing are those the command asks for there. */
  lemma LineEntriesAre(w: World, c: Command, d: Direction, i: nat, e: Entry)
    requires (c == TrainLine(d) || c.TrainBoth?) && i < NUM_CROSSINGS
    ensures e in LineEntries(w, d, i) <==> NewEvent(w, c, e) && e.signal.dir == d && e.cx == i
  {
    DelayIsDistance(w.layout, d, i);
    TrainEntriesAre(w.layout, i, d, w.now + 1000 * WarnDelay(w.layout, d, i), false, e);
  }

  /** The events of the line trains in direction d, and no others, were added. */
  ghost predicate LineAdded(w: World, c: Command, d: Direction, r: World) {
    forall e :: e in Entries(r.slots) <==> e in Entries(w.slots) || (NewEvent(w, c, e) && e.signal.dir == d)
  }

  lemma LineIsAdded(w: World, c: Command, d: Direction, r: World)
    requires LineQueued(w, w, d, 0) && r == QueueLine(w, d, NUM_CROSSINGS) && (c == TrainLine(d) || c.TrainBoth?)
    ensures LineQueued(w, r, d, NUM_CROSSINGS) && LineAdded(w, c, d, r)
  {
    LineAdds(w, d, r);
    forall e: Entry
      ensures e in Entries(r.slots) <==> e in Entries(w.slots) || (NewEvent(w, c, e) && e.signal.dir == d)
    {
      LineEntriesAre(w, c, d, Visit(d, 0), e);
      LineEntriesAre(w, c, d, Visit(d, 1), e);
      LineEntriesAre(w, c, d, Visit(d, 2), e);
    }
  }

  lemma FreeLineStarts(w: World, d: Direction)
    requires Settled(w) && LineFree(w, d)
    ensures LineQueued(w, w, d, 0)
  {
    LineFreeIff(w, d);
  }

  // ----- acceptance -----

  lemma FreeIffNotPending(w: World, i: nat, d: Direction)
    requires w.Wf()
    ensures TrainPending(w, i, d) <==> !TrackFree(Entries(w.slots), i, d)
  {
    if TrainPending(w, i, d) {
      var s :| 0 <= s < |w.slots| && IsTrainSlot(w.slots[s], i, d);
      assert EntryOf(w.slots[s]) in Entries(w.slots) && TrainEntry(EntryOf(w.slots[s]), i, d);
    } else {
      NotPending(w, i, d);
    }
  }

  lemma LineFreeIff(w: World, d: Direction)
    requires w.Wf()
    ensures LineFree(w, d) <==> forall i: nat :: i < NUM_CROSSINGS ==> TrackFree(Entries(w.slots), i, d)
  {
    forall i: nat | i < NUM_CROSSINGS
      ensures TrainPending(w, i, d) <==> !TrackFree(Entries(w.slots), i, d)
    {
      FreeIffNotPending(w, i, d);
    }
  }

  /** A settled world always has room for the trains of free tracks. */
  lemma SettledHasRoom(w: World)
    requires Settled(w)
    ensures HasRoom(w, 3 * NUM_CROSSINGS) && HasRoom(w, 3) && HasRoom(w, 2)
    ensures LineFree(w, Up) && LineFree(w, Down) ==> HasRoom(w, 6 * NUM_CROSSINGS)
  {
    Room(w.slots);
    if LineFree(w, Up) && LineFree(w, Down) {
      forall s | 0 <= s < |w.slots| && w.slots[s].active
        ensures w.slots[s].signal.TimerFired?
      {
        if !w.slots[s].signal.TimerFired? {
          assert IsTrainSlot(w.slots[s], w.slots[s].cx, w.slots[s].signal.dir);
          assert TrainPending(w, w.slots[s].cx, w.slots[s].signal.dir);
        }
      }
      RailRuns.RoomWithoutTrains(w);
    }
  }

  lemma AskedFreeLine(w: World, c: Command, d: Direction)
    requires w.Wf() && (c == TrainLine(d) || c.TrainBoth?) && AskedFree(w, c)
    ensures LineFree(w, d)
  {
    forall i: nat, e | i < NUM_CROSSINGS && e in Entries(w.slots)
      ensures !TrainEntry(e, i, d)
    {
      assert TrainEntry(e, i, d) ==> IsTrainEvent(e.signal) && Asks(c, e.signal.dir, e.cx);
    }
    LineFreeIff(w, d);
  }

  lemma EventIsPending(w: World, e: Entry)
    requires w.Wf() && e in Entries(w.slots) && IsTrainEvent(e.signal) && e.cx < NUM_CROSSINGS
    ensures TrainPending(w, e.cx, e.signal.dir)
  {
    var s :| 0 <= s < |w.slots| && w.slots[s].active && EntryOf(w.slots[s]) == e;
    assert IsTrainSlot(w.slots[s], e.cx, e.signal.dir);
  }

  lemma FreeLineAsked(w: World, c: Command)
    requires w.Wf() && (c.TrainLine? || c.TrainBoth?)
    requires forall d :: c == TrainLine(d) || c.TrainBoth? ==> LineFree(w, d)
    ensures AskedFree(w, c)
  {
    forall e | e in Entries(w.slots) && IsTrainEvent(e.signal)
      ensures !Asks(c, e.signal.dir, e.cx)
    {
      var d := e.signal.dir;
      assert c == TrainLine(d) || c.TrainBoth? ==> LineFree(w, d);
      if e.cx < NUM_CROSSINGS {
        EventIsPending(w, e);
      }
    }
  }

  lemma LineAccepted(w: World, d: Direction)
    requires w.Wf()
    ensures AskedFree(w, TrainLine(d)) <==> LineFree(w, d)
  {
    if AskedFree(w, TrainLine(d)) {
      AskedFreeLine(w, TrainLine(d), d);
    }
    if LineFree(w, d) {
      FreeLineAsked(w, TrainLine(d));
    }
  }

  lemma BothAccepted(w: World)
    requires w.Wf()
    ensures AskedFree(w, TrainBoth) <==> LineFree(w, Up) && LineFree(w, Down)
  {
    if AskedFree(w, TrainBoth) {
      AskedFreeLine(w, TrainBoth, Up);
      AskedFreeLine(w, TrainBoth, Down);
    }
    if LineFree(w, Up) && LineFree(w, Down) {
      forall d: Direction
        ensures LineFree(w, d)
      {
        assert d == Up || d == Down;
      }
      FreeLineAsked(w, TrainBoth);
    }
  }

  lemma OneAccepted(w: World, c: Command, i: nat, d: Direction)
    requires w.Wf() && i < NUM_CROSSINGS && (c == TrainAt(i, d) || c == NoExit(i, d))
    ensures AskedFree(w, c) <==> !TrainPending(w, i, d)
  {
    FreeIffNotPending(w, i, d);
    forall e: Entry
      ensures IsTrainEvent(e.signal) && Asks(c, e.signal.dir, e.cx) <==> TrainEntry(e, i, d)
    {
    }
  }

  // ----- the commands -----

  lemma OneTrainAdded(w: World, c: Command, i: nat, d: Direction, r: World)
    requires Settled(w) && i < NUM_CROSSINGS && (c == TrainAt(i, d) || c == NoExit(i, d))
    requires TrackFree(Entries(w.slots), i, d) && r == QueueTrain(w, i, d, 0, c.NoExit?)
    ensures TrainsAdded(w, c, r)
  {
    QueueTrainSettled(w, i, d, 0, c.NoExit?);
    forall e: Entry
      ensures e in TrainEntries(w.layout, i, d, w.now, c.NoExit?) <==> NewEvent(w, c, e)
    {
      TrainEntriesAre(w.layout, i, d, w.now, c.NoExit?, e);
    }
  }

  lemma OneTrainDone(w: World, c: Command, i: nat, d: Direction)
    requires Settled(w) && (c == TrainAt(i, d) || c == NoExit(i, d))
    ensures CommandDone(w, c, Step(w, c))
  {
    if i < NUM_CROSSINGS {
      SettledHasRoom(w);
      OneAccepted(w, c, i, d);
      FreeIffNotPending(w, i, d);
      if AskedFree(w, c) {
        OneTrainAdded(w, c, i, d, Step(w, c));
      }
    } else {
      assert Step(w, c) == w;
      assert forall e :: !NewEvent(w, c, e);
    }
  }

  lemma LineTrainDone(w: World, d: Direction)
    requires Settled(w)
    ensures CommandDone(w, TrainLine(d), Step(w, TrainLine(d)))
  {
    SettledHasRoom(w);
    LineAccepted(w, d);
    if LineFree(w, d) {
      FreeLineStarts(w, d);
      LineIsAdded(w, TrainLine(d), d, Step(w, TrainLine(d)));
    }
  }

  lemma BothLinesAdded(w: World, m: World, r: World)
    requires SameClock(w, m) && LineAdded(w, TrainBoth, Up, m) && LineAdded(m, TrainBoth, Down, r)
    ensures forall e :: e in Entries(r.slots) <==> e in Entries(w.slots) || NewEvent(w, TrainBoth, e)
  {
    forall e: Entry
      ensures NewEvent(m, TrainBoth, e) <==> NewEvent(w, TrainBoth, e)
    {
    }
  }

  lemma BothTrainsAdded(w: World, m: World, r: World)
    requires Settled(w) && LineFree(w, Up) && LineFree(w, Down)
    requires m == QueueLine(w, Up, NUM_CROSSINGS) && r == QueueLine(m, Down, NUM_CROSSINGS)
    ensures TrainsAdded(w, TrainBoth, r)
  {
    FreeLineStarts(w, Up);
    LineIsAdded(w, TrainBoth, Up, m);
    LineSettled(w, Up);
    FreeLineStarts(m, Down);
    LineIsAdded(m, TrainBoth, Down, r);
    BothLinesAdded(w, m, r);
  }

  lemma BothTrainsDone(w: World)
    requires Settled(w)
    ensures CommandDone(w, TrainBoth, Step(w, TrainBoth))
  {
    SettledHasRoom(w);
    BothAccepted(w);
    if LineFree(w, Up) && LineFree(w, Down) {
      BothTrainsAdded(w, QueueLine(w, Up, NUM_CROSSINGS), Step(w, TrainBoth));
    }
  }

  /** In a settled world a train command is accepted iff no train event is queued for a track it asks for. It
      then adds exactly the events of the trains asked for, and otherwise changes nothing. The other commands
      advance the clock, set the scale within its bounds, or act on one crossing. */
  lemma CommandsAct(w: World, c: Command)
    requires Settled(w)
    ensures CommandDone(w, c, Step(w, c))
  {
    match c
    case TickCmd => TickSettled(w); TickAdvances(w);
    case TrainLine(d) => LineTrainDone(w, d);
    case TrainBoth => BothTrainsDone(w);
    case TrainAt(i, d) => OneTrainDone(w, c, i, d);
    case NoExit(i, d) => OneTrainDone(w, c, i, d);
    case InjectCmd(i) => if i < NUM_CROSSINGS { ActsOn(w, i, InjectFault); }
    case ResetCmd(i) => if i < NUM_CROSSINGS { ActsOn(w, i, ResetFault); }
    case Scale(n) =>
  }

  lemma ActsOn(w: World, i: nat, signal: Signal)
    requires Settled(w) && i < NUM_CROSSINGS
    ensures Reacts(w, i, signal, Handle(w, i, signal))
  {
    GoodAt(w, i);
    HandleReacts(w, i, signal);
  }

  lemma TickAdvances(w: World)
    requires Settled(w)
    ensures Tick(w).now == w.now + 100 * w.scale
  {
    AdvanceInv(w);
    FireGatesInv(Advance(w), NUM_CROSSINGS);
    DeliverInv(FireGates(Advance(w), NUM_CROSSINGS), MAX_PENDING_EVENTS);
  }
}
