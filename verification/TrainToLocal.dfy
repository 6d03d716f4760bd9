/** Messages from the crossings to the intersections: the callbacks of a simulator step queue items
    into the outbox, the sender thread takes them one at a time, and each intersection also has inputs
    of its own. The steps of these parties interleave freely. */
module TrainToLocal {
  import opened Options
  import Crossing
  import Rail = RailSpec
  import Local = LocalSpec
  import CrossingSafety
  import RailRuns
  import LocalSafety
  import LocalHold

  const OUTBOX_CAPACITY := 64
  const NUM_INTERSECTIONS := 6

  /** A message for an intersection, or a fault alert for Central. */
  datatype Item = Railway(local: nat, cx: nat, preempt: bool, eta: int) | Alert(cx: nat)

  /** Crossing i stands between the intersections 2i and 2i + 1. */
  function Pair(i: nat, preempt: bool, eta: int): seq<Item> {
    [Railway(2 * i, i, preempt, eta), Railway(2 * i + 1, i, preempt, eta)]
  }

  function ItemsOf(n: Rail.Notice, warning: int): seq<Item> {
    match n
    case Preempt(i) => Pair(i, true, warning)
    case Clear(i) => Pair(i, false, 0)
    case FaultAlert(i, _) => [Alert(i)]
  }

  function AllItems(notices: seq<Rail.Notice>, warning: int): seq<Item>
    decreases |notices|
  {
    if notices == [] then []
    else AllItems(notices[..|notices| - 1], warning) + ItemsOf(notices[|notices| - 1], warning)
  }

  /** The outbox ring as a sequence: a full ring drops the item. */
  function Push(outbox: seq<Item>, item: Item): seq<Item> {
    if |outbox| < OUTBOX_CAPACITY then outbox + [item] else outbox
  }

  /** The simulator, the items its callbacks still have to queue, the outbox, the item in the sender's hand,
      the six intersections, and for each of them the railway messages it has received (true for PREEMPT)
      and the number of those that were dropped or lost on the way. */
  datatype System = System(world: Rail.World, pushing: seq<Item>, outbox: seq<Item>, hand: Option<Item>,
                           locals: seq<Local.State>, received: seq<seq<bool>>, missed: seq<nat>)
  {
    predicate Wf() {
      && world.Wf() && |locals| == NUM_INTERSECTIONS && |received| == NUM_INTERSECTIONS
      && |missed| == NUM_INTERSECTIONS
    }
  }

  datatype Action =
    | RailStep(cmd: Rail.Command)
    | Queue
    | Take
    | Send(arrives: bool)
    | LocalInput(local: nat, input: Local.Input)

  /** An intersection accepts the messages of its own crossing. */
  function Receive(s: System, item: Item): (r: System)
    requires s.Wf()
    ensures r.Wf()
  {
    if item.Railway? && item.local < NUM_INTERSECTIONS && item.cx == item.local / 2 then
      s.(locals := s.locals[item.local :=
           Local.Step(s.locals[item.local], if item.preempt then Local.Preempt(item.eta) else Local.Clear)],
         received := s.received[item.local := s.received[item.local] + [item.preempt]])
    else s
  }

  /** An item that will not arrive is counted for the intersection it was meant for. */
  function Miss(s: System, item: Item): (r: System)
    requires s.Wf()
    ensures r.Wf()
  {
    if item.Railway? && item.local < NUM_INTERSECTIONS then
      s.(missed := s.missed[item.local := s.missed[item.local] + 1])
    else s
  }

  function Step(s: System, a: Action): (r: System)
    requires s.Wf()
    ensures r.Wf()
  {
    match a
    case RailStep(cmd) =>
      if s.pushing != [] then s
      else
        var w := Rail.Step(s.world, cmd);
        var added := if |s.world.sent| <= |w.sent| then w.sent[|s.world.sent|..] else [];
        s.(world := w, pushing := AllItems(added, w.layout.warning))
    case Queue =>
      if s.pushing == [] then s
      else
        var t := s.(pushing := s.pushing[1..], outbox := Push(s.outbox, s.pushing[0]));
        if |s.outbox| < OUTBOX_CAPACITY then t else Miss(t, s.pushing[0])
    case Take =>
      if s.outbox == [] || s.hand.Some? then s else s.(outbox := s.outbox[1..], hand := Some(s.outbox[0]))
    case Send(arrives) =>
      if s.hand.None? then s
      else
        var t := s.(hand := None);
        if arrives then Receive(t, s.hand.value) else Miss(t, s.hand.value)
    case LocalInput(l, input) =>
      if l < NUM_INTERSECTIONS then s.(locals := s.locals[l := Local.Step(s.locals[l], input)]) else s
  }

  function Run(s: System, actions: seq<Action>): (r: System)
    requires s.Wf()
    ensures r.Wf()
    decreases |actions|
  {
    if actions == [] then s else Step(Run(s, actions[..|actions| - 1]), actions[|actions| - 1])
  }

  function Init(layout: Rail.Layout, scale: int, gap: int): (s: System)
    ensures s.Wf()
  {
    System(Rail.Init(layout, scale), [], [], None, seq(NUM_INTERSECTIONS, l requires 0 <= l => Local.Init(l, gap)),
           seq(NUM_INTERSECTIONS, _ => []), seq(NUM_INTERSECTIONS, _ => 0))
  }

  /** Railway messages reach an intersection through the outbox only, and nobody clears it by hand. */
  predicate Allowed(a: Action) {
    a.LocalInput? ==> !a.input.Preempt? && !LocalHold.EndsHold(a.input)
  }

  // ----- messages of one intersection -----

  function Kinds(items: seq<Item>, l: nat): seq<bool>
    decreases |items|
  {
    if items == [] then []
    else
      var k := |items| - 1;
      Kinds(items[..k], l) + if items[k].Railway? && items[k].local == l then [items[k].preempt] else []
  }

  /** The message in the sender's hand, if it is for this intersection. */
  function InHand(hand: Option<Item>, l: nat): seq<bool> {
    if hand.Some? && hand.value.Railway? && hand.value.local == l then [hand.value.preempt] else []
  }

  /** The messages on their way to an intersection, oldest first. */
  function OnTheWay(s: System, l: nat): seq<bool> {
    InHand(s.hand, l) + Kinds(s.outbox, l) + Kinds(s.pushing, l)
  }

  /** What crossing i has announced, in order. */
  function Announcements(notices: seq<Rail.Notice>, i: nat): seq<bool>
    decreases |notices|
  {
    if notices == [] then []
    else
      var k := |notices| - 1;
      Announcements(notices[..k], i) +
      if notices[k] == Rail.Preempt(i) then [true] else if notices[k] == Rail.Clear(i) then [false] else []
  }

  lemma {:induction false} KindsAppend(a: seq<Item>, b: seq<Item>, l: nat)
    ensures Kinds(a + b, l) == Kinds(a, l) + Kinds(b, l)
    decreases |b|
  {
    if b == [] {
      assert a + b == a;
    } else {
      var k := |b| - 1;
      assert (a + b)[..|a + b| - 1] == a + b[..k];
      KindsAppend(a, b[..k], l);
    }
  }

  lemma {:induction false} AnnouncementsAppend(a: seq<Rail.Notice>, b: seq<Rail.Notice>, i: nat)
    ensures Announcements(a + b, i) == Announcements(a, i) + Announcements(b, i)
    decreases |b|
  {
    if b == [] {
      assert a + b == a;
    } else {
      var k := |b| - 1;
      assert (a + b)[..|a + b| - 1] == a + b[..k];
      AnnouncementsAppend(a, b[..k], i);
    }
  }

  lemma KindsOfNotice(n: Rail.Notice, warning: int, l: nat)
    ensures Kinds(ItemsOf(n, warning), l) == Announcements([n], l / 2)
  {
    var items := ItemsOf(n, warning);
    assert Announcements([n][..0], l / 2) == [];
    assert items[..0] == [];
    assert Kinds(items[..1], l) == if items[0].Railway? && items[0].local == l then [items[0].preempt] else [] by {
      assert items[..1][..0] == [];
    }
    if !n.FaultAlert? {
      assert items[..2] == items;
    }
  }

  /** Both intersections of a crossing get its announcements, and no others do. */
  lemma {:induction false} KindsOfAll(notices: seq<Rail.Notice>, warning: int, l: nat)
    ensures Kinds(AllItems(notices, warning), l) == Announcements(notices, l / 2)
    decreases |notices|
  {
    if notices != [] {
      var k := |notices| - 1;
      KindsOfAll(notices[..k], warning, l);
      KindsAppend(AllItems(notices[..k], warning), ItemsOf(notices[k], warning), l);
      KindsOfNotice(notices[k], warning, l);
      assert notices == notices[..k] + [notices[k]];
      AnnouncementsAppend(notices[..k], [notices[k]], l / 2);
    }
  }

  lemma {:induction false} LastAnnouncement(sent: seq<Rail.Notice>, i: nat)
    ensures CrossingSafety.Preempted(sent, i) <==>
            Announcements(sent, i) != [] && Announcements(sent, i)[|Announcements(sent, i)| - 1]
    decreases |sent|
  {
    if sent != [] {
      LastAnnouncement(sent[..|sent| - 1], i);
    }
  }

  // ----- the invariant -----

  predicate Waits(s: Local.State) {
    s.railway.waitingForClear && (s.railway.pending || s.railway.active)
  }

  predicate Wired(items: seq<Item>) {
    forall k :: 0 <= k < |items| && items[k].Railway? ==> items[k].cx == items[k].local / 2
  }

  /** An intersection that missed nothing has received its announcements in order, up to those on the way. */
  predicate InOrder(s: System, l: nat)
    requires s.Wf() && l < NUM_INTERSECTIONS
  {
    s.missed[l] == 0 ==> s.received[l] + OnTheWay(s, l) == Announcements(s.world.sent, l / 2)
  }

  /** An intersection whose last message was a PREEMPT waits for the CLEAR. */
  predicate Obeys(s: Local.State, received: seq<bool>) {
    LocalSafety.Inv(s) && (received != [] && received[|received| - 1] ==> Waits(s))
  }

  ghost predicate Inv(s: System) {
    && s.Wf() && CrossingSafety.Safe(s.world) && Wired(s.outbox) && Wired(s.pushing)
    && (s.hand.Some? ==> Wired([s.hand.value]))
    && forall l :: 0 <= l < NUM_INTERSECTIONS ==> InOrder(s, l) && Obeys(s.locals[l], s.received[l])
  }

  lemma {:induction false} AllWired(notices: seq<Rail.Notice>, warning: int)
    ensures Wired(AllItems(notices, warning))
    decreases |notices|
  {
    if notices != [] {
      AllWired(notices[..|notices| - 1], warning);
    }
  }

  /** What a simulator step changes. */
  predicate Simulated(s: System, r: System, added: seq<Rail.Notice>) {
    && r == s.(world := r.world, pushing := AllItems(added, r.world.layout.warning))
    && r.world.sent == s.world.sent + added
  }

  lemma RailStepSimulates(s: System, cmd: Rail.Command)
    requires s.Wf() && CrossingSafety.Safe(s.world) && s.pushing == []
    ensures var r := Step(s, RailStep(cmd));
            CrossingSafety.Safe(r.world) && |s.world.sent| <= |r.world.sent| && Simulated(s, r, r.world.sent[|s.world.sent|..])
  {
    RailRuns.StepSafe(s.world, cmd);
  }

  lemma SimulatedInv(s: System, r: System, added: seq<Rail.Notice>)
    requires Inv(s) && s.pushing == [] && Simulated(s, r, added) && CrossingSafety.Safe(r.world)
    ensures Inv(r)
  {
    AllWired(added, r.world.layout.warning);
    forall l | 0 <= l < NUM_INTERSECTIONS
      ensures InOrder(r, l)
    {
      assert InOrder(s, l);
      AddedInOrder(s, r, added, l);
    }
  }

  lemma RailStepInv(s: System, cmd: Rail.Command)
    requires Inv(s)
    ensures Inv(Step(s, RailStep(cmd)))
  {
    if s.pushing == [] {
      var r := Step(s, RailStep(cmd));
      RailStepSimulates(s, cmd);
      SimulatedInv(s, r, r.world.sent[|s.world.sent|..]);
    }
  }

  lemma AddedInOrder(s: System, r: System, added: seq<Rail.Notice>, l: nat)
    requires s.Wf() && r.Wf() && l < NUM_INTERSECTIONS && InOrder(s, l) && s.pushing == []
    requires r == s.(world := r.world, pushing := AllItems(added, r.world.layout.warning))
    requires r.world.sent == s.world.sent + added
    ensures InOrder(r, l)
  {
    KindsOfAll(added, r.world.layout.warning, l);
    AnnouncementsAppend(s.world.sent, added, l / 2);
  }

  lemma TakeHead(items: seq<Item>, l: nat)
    requires items != []
    ensures Kinds(items, l) == InHand(Some(items[0]), l) + Kinds(items[1..], l)
  {
    assert items == [items[0]] + items[1..];
    KindsAppend([items[0]], items[1..], l);
    assert [items[0]][..0] == [];
  }

  lemma QueueKinds(before: seq<bool>, outbox: seq<Item>, pushing: seq<Item>, l: nat)
    requires pushing != []
    ensures before + Kinds(outbox + [pushing[0]], l) + Kinds(pushing[1..], l) ==
            before + Kinds(outbox, l) + Kinds(pushing, l)
  {
    TakeHead(pushing, l);
    assert [pushing[0]][1..] == [];
    TakeHead([pushing[0]], l);
    KindsAppend(outbox, [pushing[0]], l);
  }

  lemma QueueRoom(s: System, l: nat)
    requires s.Wf() && l < NUM_INTERSECTIONS && InOrder(s, l) && s.pushing != [] && |s.outbox| < OUTBOX_CAPACITY
    ensures InOrder(Step(s, Queue), l)
  {
    QueueKinds(InHand(s.hand, l), s.outbox, s.pushing, l);
    assert OnTheWay(Step(s, Queue), l) == OnTheWay(s, l);
  }

  lemma QueueFull(s: System, l: nat)
    requires s.Wf() && l < NUM_INTERSECTIONS && InOrder(s, l) && s.pushing != [] && |s.outbox| >= OUTBOX_CAPACITY
    ensures InOrder(Step(s, Queue), l)
  {
    var item, r := s.pushing[0], Step(s, Queue);
    if item.Railway? && item.local == l {
      assert r.missed[l] > 0;
    } else {
      TakeHead(s.pushing, l);
      assert Kinds(r.pushing, l) == Kinds(s.pushing, l);
      assert OnTheWay(r, l) == OnTheWay(s, l);
    }
  }

  lemma QueueOrder(s: System, l: nat)
    requires s.Wf() && l < NUM_INTERSECTIONS && InOrder(s, l) && s.pushing != []
    ensures InOrder(Step(s, Queue), l)
  {
    if |s.outbox| < OUTBOX_CAPACITY {
      QueueRoom(s, l);
    } else {
      QueueFull(s, l);
    }
  }

  lemma QueueInv(s: System)
    requires Inv(s)
    ensures Inv(Step(s, Queue))
  {
    if s.pushing != [] {
      var r := Step(s, Queue);
      forall l | 0 <= l < NUM_INTERSECTIONS
        ensures InOrder(r, l)
      {
        assert InOrder(s, l);
        QueueOrder(s, l);
      }
    }
  }

  lemma TakeOrder(s: System, l: nat)
    requires s.Wf() && l < NUM_INTERSECTIONS && InOrder(s, l) && s.outbox != [] && s.hand.None?
    ensures InOrder(Step(s, Take), l)
  {
    TakeHead(s.outbox, l);
    assert OnTheWay(Step(s, Take), l) == OnTheWay(s, l);
  }

  lemma TakeInv(s: System)
    requires Inv(s)
    ensures Inv(Step(s, Take))
  {
    if s.outbox != [] && s.hand.None? {
      var r := Step(s, Take);
      forall l | 0 <= l < NUM_INTERSECTIONS
        ensures InOrder(r, l)
      {
        assert InOrder(s, l);
        TakeOrder(s, l);
      }
    }
  }

  /** A PREEMPT makes any intersection wait for CLEAR, also one that runs a train of its own. */
  lemma ReceiveObeys(s: Local.State, received: seq<bool>, preempt: bool, eta: int)
    requires Obeys(s, received)
    ensures Obeys(Local.Step(s, if preempt then Local.Preempt(eta) else Local.Clear), received + [preempt])
  {
    LocalSafety.StepOk(s, if preempt then Local.Preempt(eta) else Local.Clear);
    if preempt {
      LocalHold.PreemptHolds(s, eta);
    }
  }

  /** A message that arrives moves from the way to the received ones. */
  lemma SendOrder(s: System, arrives: bool, l: nat)
    requires s.Wf() && l < NUM_INTERSECTIONS && InOrder(s, l) && s.hand.Some? && Wired([s.hand.value])
    ensures InOrder(Step(s, Send(arrives)), l)
  {
    var item, r := s.hand.value, Step(s, Send(arrives));
    assert [item][0] == item;
    assert OnTheWay(s, l) == InHand(s.hand, l) + OnTheWay(r, l);
    if arrives {
      assert r.received[l] == s.received[l] + InHand(s.hand, l);
    }
  }

  lemma SendObeys(s: System, arrives: bool, l: nat)
    requires s.Wf() && l < NUM_INTERSECTIONS && s.hand.Some? && Wired([s.hand.value]) && Obeys(s.locals[l], s.received[l])
    ensures var r := Step(s, Send(arrives)); Obeys(r.locals[l], r.received[l])
  {
    var item := s.hand.value;
    assert [item][0] == item;
    if arrives && item.Railway? && item.local == l {
      ReceiveObeys(s.locals[l], s.received[l], item.preempt, item.eta);
    }
  }

  lemma SendInv(s: System, arrives: bool)
    requires Inv(s)
    ensures Inv(Step(s, Send(arrives)))
  {
    if s.hand.Some? {
      var r := Step(s, Send(arrives));
      forall l | 0 <= l < NUM_INTERSECTIONS
        ensures InOrder(r, l) && Obeys(r.locals[l], r.received[l])
      {
        assert InOrder(s, l) && Obeys(s.locals[l], s.received[l]);
        SendOrder(s, arrives, l);
        SendObeys(s, arrives, l);
      }
    }
  }

  lemma LocalInputInv(s: System, l: nat, input: Local.Input)
    requires Inv(s) && Allowed(LocalInput(l, input))
    ensures Inv(Step(s, LocalInput(l, input)))
  {
    if l < NUM_INTERSECTIONS {
      var r := Step(s, LocalInput(l, input));
      assert Obeys(s.locals[l], s.received[l]);
      LocalSafety.StepOk(s.locals[l], input);
      if Waits(s.locals[l]) {
        LocalHold.HeldStep(s.locals[l], input, 0);
      }
      forall k | 0 <= k < NUM_INTERSECTIONS
        ensures InOrder(r, k) && Obeys(r.locals[k], r.received[k])
      {
        assert InOrder(s, k) && Obeys(s.locals[k], s.received[k]);
      }
    }
  }

  lemma {:induction false} RunInv(layout: Rail.Layout, scale: int, gap: int, actions: seq<Action>)
    requires forall k :: 0 <= k < |actions| ==> Allowed(actions[k])
    ensures Inv(Run(Init(layout, scale, gap), actions))
    decreases |actions|
  {
    if actions == [] {
      CrossingSafety.InitSafe(layout, scale);
      forall l: nat | l < NUM_INTERSECTIONS
        ensures LocalSafety.Inv(Local.Init(l, gap))
      {
        LocalSafety.InitOk(l, gap);
      }
    } else {
      var k := |actions| - 1;
      RunInv(layout, scale, gap, actions[..k]);
      var s := Run(Init(layout, scale, gap), actions[..k]);
      match actions[k]
      case RailStep(cmd) => RailStepInv(s, cmd);
      case Queue => QueueInv(s);
      case Take => TakeInv(s);
      case Send(arrives) => SendInv(s, arrives);
      case LocalInput(l, input) => LocalInputInv(s, l, input);
    }
  }

  /** An intersection has received exactly what its crossing announced, in order, up to what is on the way. */
  predicate Ordered(s: System, l: nat)
    requires s.Wf() && l < NUM_INTERSECTIONS
  {
    s.received[l] + OnTheWay(s, l) == Announcements(s.world.sent, l / 2)
  }

  predicate Occupied(s: System, i: nat)
    requires s.Wf() && i < Rail.NUM_CROSSINGS
  {
    s.world.cx[i].Occupied(Crossing.Up) || s.world.cx[i].Occupied(Crossing.Down)
  }

  /** Waiting for CLEAR, in the Yellow that clears the road or with both roads red. */
  predicate HoldsTraffic(s: Local.State) {
    && Waits(s)
    && (s.railway.active ==> s.signals.nsLight.Red? && s.signals.ewLight.Red?)
    && (s.railway.pending ==> LocalSafety.IsYellow(s.signals.phase))
  }

  lemma InvHolds(s: System, l: nat)
    requires Inv(s) && l < NUM_INTERSECTIONS && s.missed[l] == 0
    requires CrossingSafety.Preempted(s.world.sent, l / 2) && OnTheWay(s, l) == []
    ensures HoldsTraffic(s.locals[l])
  {
    assert InOrder(s, l) && Obeys(s.locals[l], s.received[l]);
    LastAnnouncement(s.world.sent, l / 2);
  }

  /** In every interleaving, an intersection that missed no message has received exactly what its crossing
      has announced, in order, up to what is still on the way to it. */
  lemma DeliveredInOrder(layout: Rail.Layout, scale: int, gap: int, actions: seq<Action>, l: nat)
    requires l < NUM_INTERSECTIONS && forall k :: 0 <= k < |actions| ==> Allowed(actions[k])
    ensures var s := Run(Init(layout, scale, gap), actions);
            s.missed[l] == 0 ==> Ordered(s, l)
  {
    RunInv(layout, scale, gap, actions);
    var s := Run(Init(layout, scale, gap), actions);
    assert InOrder(s, l);
  }

  /** In every interleaving, a crossing with a train approaching or on it has last announced PREEMPT, and
      each of its two intersections that missed no message and has none on the way holds traffic. */
  lemma OccupiedCrossingIsHeld(layout: Rail.Layout, scale: int, gap: int, actions: seq<Action>, l: nat)
    requires l < NUM_INTERSECTIONS && forall k :: 0 <= k < |actions| ==> Allowed(actions[k])
    ensures var s := Run(Init(layout, scale, gap), actions);
            Occupied(s, l / 2) ==>
              && CrossingSafety.Preempted(s.world.sent, l / 2)
              && (s.missed[l] == 0 && OnTheWay(s, l) == [] ==> HoldsTraffic(s.locals[l]))
  {
    RunInv(layout, scale, gap, actions);
    var s := Run(Init(layout, scale, gap), actions);
    assert CrossingSafety.Announced(s.world, l / 2);
    if Occupied(s, l / 2) && s.missed[l] == 0 && OnTheWay(s, l) == [] {
      InvHolds(s, l);
    }
  }
}
