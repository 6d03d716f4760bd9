/** What becomes of every announcement on its way to an intersection, and how the parties of the system behave
    on their own. */
module Deliveries {
  import opened Options
  import opened TrainToLocal
  import Rail = RailSpec
  import Local = LocalSpec
  import RailInvariant
  import CrossingSafety
  import LocalHold

  // ----- each step -----

  /** One item more is missed by the intersection it is for. */
  predicate Missed(s: System, item: Item, r: seq<nat>)
    requires s.Wf()
  {
    && |r| == 6
    && forall l :: 0 <= l < 6 ==> r[l] == s.missed[l] + if item.Railway? && item.local == l then 1 else 0
  }

  /** The message is handled by its intersection, and by no other. */
  predicate Delivered(s: System, item: Item, r: System)
    requires s.Wf() && r.Wf()
  {
    forall l :: 0 <= l < 6 ==>
      if item.Railway? && item.local == l then
        && r.locals[l] == Local.Step(s.locals[l], if item.preempt then Local.Preempt(item.eta) else Local.Clear)
        && r.received[l] == s.received[l] + [item.preempt]
      else r.locals[l] == s.locals[l] && r.received[l] == s.received[l]
  }

  /** The outbox takes an item while it holds fewer than 64 and misses it otherwise; the sender holds one item at
      a time, which arrives at its intersection or is missed. */
  predicate Moved(s: System, a: Action, r: System)
    requires s.Wf() && r.Wf()
  {
    match a
    case Queue =>
      && (s.pushing == [] ==> r == s)
      && (s.pushing != [] ==>
            && r == s.(pushing := s.pushing[1..], outbox := r.outbox, missed := r.missed)
            && (|s.outbox| < 64 ==> r.outbox == s.outbox + [s.pushing[0]] && r.missed == s.missed)
            && (|s.outbox| >= 64 ==> r.outbox == s.outbox && Missed(s, s.pushing[0], r.missed)))
    case Take =>
      if s.outbox == [] || s.hand.Some? then r == s else r == s.(outbox := s.outbox[1..], hand := Some(s.outbox[0]))
    case Send(arrives) =>
      && (s.hand.None? ==> r == s)
      && (s.hand.Some? ==>
            && r == s.(hand := None, locals := r.locals, received := r.received, missed := r.missed)
            && (arrives ==> r.missed == s.missed && Delivered(s, s.hand.value, r))
            && (!arrives ==> r.locals == s.locals && r.received == s.received && Missed(s, s.hand.value, r.missed)))
    case LocalInput(l, input) =>
      r == if l < 6 then s.(locals := s.locals[l := Local.Step(s.locals[l], input)]) else s
    case RailStep(cmd) =>
      if s.pushing != [] then r == s else r == s.(world := Rail.Step(s.world, cmd), pushing := r.pushing)
  }

  predicate AllAllowed(actions: seq<Action>) {
    forall k :: 0 <= k < |actions| ==> Allowed(actions[k])
  }

  lemma SendMoves(s: System, arrives: bool)
    requires s.Wf() && (s.hand.Some? ==> Wired([s.hand.value]))
    ensures Moved(s, Send(arrives), Step(s, Send(arrives)))
  {
    if s.hand.Some? {
      assert [s.hand.value][0] == s.hand.value;
    }
  }

  lemma OtherMoves(s: System, a: Action)
    requires s.Wf() && !a.Send?
    ensures Moved(s, a, Step(s, a))
  {
  }

  /** In every interleaving each step moves the items so. */
  lemma EveryStepMoves(layout: Rail.Layout, scale: int, gap: int, actions: seq<Action>, a: Action)
    requires AllAllowed(actions)
    ensures var s := Run(Init(layout, scale, gap), actions); Moved(s, a, Step(s, a))
  {
    RunInv(layout, scale, gap, actions);
    if a.Send? {
      SendMoves(Run(Init(layout, scale, gap), actions), a.arrives);
    } else {
      OtherMoves(Run(Init(layout, scale, gap), actions), a);
    }
  }

  // ----- conservation -----

  /** `a` is what is left of `b` when some elements are missing: at[k] is the old position of the k-th. */
  predicate PartAt(a: seq<bool>, b: seq<bool>, at: seq<nat>) {
    && |at| == |a|
    && (forall k :: 0 <= k < |at| ==> at[k] < |b| && a[k] == b[at[k]])
    && (forall j, k :: 0 <= j < k < |at| ==> at[j] < at[k])
  }

  ghost predicate PartOf(a: seq<bool>, b: seq<bool>) {
    exists at :: PartAt(a, b, at)
  }

  lemma PartGrows(a: seq<bool>, b: seq<bool>, c: seq<bool>)
    requires PartOf(a, b)
    ensures PartOf(a + c, b + c)
  {
    var at :| PartAt(a, b, at);
    var more: seq<nat> := seq(|c|, (k: nat) requires k < |c| => |b| + k);
    assert PartAt(a + c, b + c, at + more);
  }

  lemma PartLoses(a: seq<bool>, n: nat, b: seq<bool>)
    requires PartOf(a, b) && n < |a|
    ensures PartOf(a[..n] + a[n + 1..], b)
  {
    var at :| PartAt(a, b, at);
    var r, rest := a[..n] + a[n + 1..], at[..n] + at[n + 1..];
    assert forall k :: 0 <= k < |r| ==> r[k] == a[if k < n then k else k + 1] && rest[k] == at[if k < n then k else k + 1];
    assert PartAt(r, b, rest);
  }

  lemma LosesMiddle(a: seq<bool>, before: seq<bool>, x: seq<bool>, rest: seq<bool>, b: seq<bool>)
    requires |x| <= 1 && PartOf(a + (before + x + rest), b)
    ensures PartOf(a + (before + rest), b)
  {
    var all, n := a + (before + x + rest), |a + before|;
    if x == [] {
      assert all == a + (before + rest);
    } else {
      PartLoses(all, n, b);
      assert all[..n] + all[n + 1..] == a + (before + rest);
    }
  }

  lemma PartOfItself(a: seq<bool>)
    ensures PartOf(a, a)
  {
    var at: seq<nat> := seq(|a|, (k: nat) => k);
    assert PartAt(a, a, at);
  }

  /** Every announcement of its crossing was received by the intersection, is on the way to it, or was missed; what
      was received and what is on the way keep the order of the announcements. */
  ghost predicate Conserved(s: System, l: nat)
    requires s.Wf() && l < NUM_INTERSECTIONS
  {
    && |s.received[l]| + |OnTheWay(s, l)| + s.missed[l] == |Announcements(s.world.sent, l / 2)|
    && PartOf(s.received[l] + OnTheWay(s, l), Announcements(s.world.sent, l / 2))
  }

  lemma SimulatedConserved(s: System, r: System, added: seq<Rail.Notice>, l: nat)
    requires s.Wf() && r.Wf() && l < NUM_INTERSECTIONS && Conserved(s, l) && s.pushing == []
    requires Simulated(s, r, added)
    ensures Conserved(r, l)
  {
    KindsOfAll(added, r.world.layout.warning, l);
    AnnouncementsAppend(s.world.sent, added, l / 2);
    var more := Announcements(added, l / 2);
    assert s.received[l] + OnTheWay(s, l) + more == r.received[l] + OnTheWay(r, l);
    PartGrows(s.received[l] + OnTheWay(s, l), Announcements(s.world.sent, l / 2), more);
  }

  lemma Rearranged(s: System, r: System, l: nat)
    requires s.Wf() && r.Wf() && l < NUM_INTERSECTIONS && Conserved(s, l)
    requires r.world == s.world && r.missed[l] == s.missed[l]
    requires r.received[l] + OnTheWay(r, l) == s.received[l] + OnTheWay(s, l)
    ensures Conserved(r, l)
  {
    assert |r.received[l]| + |OnTheWay(r, l)| == |r.received[l] + OnTheWay(r, l)|;
  }

  lemma RoomConserved(s: System, l: nat)
    requires s.Wf() && l < NUM_INTERSECTIONS && Conserved(s, l) && s.pushing != [] && |s.outbox| < OUTBOX_CAPACITY
    ensures Conserved(Step(s, Queue), l)
  {
    QueueKinds(InHand(s.hand, l), s.outbox, s.pushing, l);
    assert OnTheWay(Step(s, Queue), l) == OnTheWay(s, l);
  }

  /** What a full outbox does not take is no longer on the way, and counted. */
  lemma FullMisses(s: System, l: nat)
    requires s.Wf() && l < NUM_INTERSECTIONS && s.pushing != [] && |s.outbox| >= OUTBOX_CAPACITY
    ensures var r, x := Step(s, Queue), InHand(Some(s.pushing[0]), l);
            var before, rest := InHand(s.hand, l) + Kinds(s.outbox, l), Kinds(s.pushing[1..], l);
            && OnTheWay(s, l) == before + x + rest && OnTheWay(r, l) == before + rest
            && r.missed[l] == s.missed[l] + |x| && r.received == s.received && r.world == s.world
  {
    TakeHead(s.pushing, l);
  }

  lemma Shortened(s: System, r: System, l: nat, before: seq<bool>, x: seq<bool>, rest: seq<bool>)
    requires s.Wf() && r.Wf() && l < NUM_INTERSECTIONS && Conserved(s, l) && |x| <= 1
    requires r.world == s.world && r.missed[l] == s.missed[l] + |x| && r.received[l] == s.received[l]
    requires OnTheWay(s, l) == before + x + rest && OnTheWay(r, l) == before + rest
    ensures Conserved(r, l)
  {
    LosesMiddle(s.received[l], before, x, rest, Announcements(s.world.sent, l / 2));
  }

  lemma FullConserved(s: System, l: nat)
    requires s.Wf() && l < NUM_INTERSECTIONS && Conserved(s, l) && s.pushing != [] && |s.outbox| >= OUTBOX_CAPACITY
    ensures Conserved(Step(s, Queue), l)
  {
    FullMisses(s, l);
    Shortened(s, Step(s, Queue), l, InHand(s.hand, l) + Kinds(s.outbox, l), InHand(Some(s.pushing[0]), l),
              Kinds(s.pushing[1..], l));
  }

  lemma QueueConserved(s: System, l: nat)
    requires s.Wf() && l < NUM_INTERSECTIONS && Conserved(s, l) && s.pushing != []
    ensures Conserved(Step(s, Queue), l)
  {
    if |s.outbox| < OUTBOX_CAPACITY {
      RoomConserved(s, l);
    } else {
      FullConserved(s, l);
    }
  }

  lemma TakeConserved(s: System, l: nat)
    requires s.Wf() && l < NUM_INTERSECTIONS && Conserved(s, l) && s.outbox != [] && s.hand.None?
    ensures Conserved(Step(s, Take), l)
  {
    TakeHead(s.outbox, l);
    assert OnTheWay(Step(s, Take), l) == OnTheWay(s, l);
  }

  /** What does not arrive is no longer on the way, and counted; what arrives is received. */
  lemma SendEmptiesHand(s: System, arrives: bool, l: nat)
    requires s.Wf() && l < NUM_INTERSECTIONS && s.hand.Some? && Wired([s.hand.value])
    ensures var r, x := Step(s, Send(arrives)), InHand(s.hand, l);
            && OnTheWay(s, l) == x + OnTheWay(r, l) && r.world == s.world
            && r.received[l] == s.received[l] + (if arrives then x else [])
            && r.missed[l] == s.missed[l] + if arrives then 0 else |x|
  {
    assert [s.hand.value][0] == s.hand.value;
  }

  lemma LostConserved(s: System, l: nat)
    requires s.Wf() && l < NUM_INTERSECTIONS && Conserved(s, l) && s.hand.Some? && Wired([s.hand.value])
    ensures Conserved(Step(s, Send(false)), l)
  {
    var r, x := Step(s, Send(false)), InHand(s.hand, l);
    SendEmptiesHand(s, false, l);
    Shortened(s, r, l, [], x, OnTheWay(r, l));
  }

  lemma ArrivedConserved(s: System, l: nat)
    requires s.Wf() && l < NUM_INTERSECTIONS && Conserved(s, l) && s.hand.Some? && Wired([s.hand.value])
    ensures Conserved(Step(s, Send(true)), l)
  {
    var x, rest := InHand(s.hand, l), OnTheWay(Step(s, Send(true)), l);
    SendEmptiesHand(s, true, l);
    assert s.received[l] + (x + rest) == s.received[l] + x + rest;
    Rearranged(s, Step(s, Send(true)), l);
  }

  lemma SendConserved(s: System, arrives: bool, l: nat)
    requires s.Wf() && l < NUM_INTERSECTIONS && Conserved(s, l) && s.hand.Some? && Wired([s.hand.value])
    ensures Conserved(Step(s, Send(arrives)), l)
  {
    if arrives {
      ArrivedConserved(s, l);
    } else {
      LostConserved(s, l);
    }
  }

  lemma StepConserved(s: System, a: Action, l: nat)
    requires TrainToLocal.Inv(s) && l < NUM_INTERSECTIONS && Conserved(s, l)
    ensures Conserved(Step(s, a), l)
  {
    match a
    case RailStep(cmd) =>
      if s.pushing == [] {
        var r := Step(s, a);
        RailStepSimulates(s, cmd);
        SimulatedConserved(s, r, r.world.sent[|s.world.sent|..], l);
      }
    case Queue =>
      if s.pushing != [] {
        QueueConserved(s, l);
      }
    case Take =>
      if s.outbox != [] && s.hand.None? {
        TakeConserved(s, l);
      }
    case Send(arrives) =>
      if s.hand.Some? {
        SendConserved(s, arrives, l);
      }
    case LocalInput(k, input) =>
  }

  /** In every interleaving no announcement is lost without being counted, repeated or overtaken, for every
      intersection, whatever it missed. */
  lemma {:induction false} EveryMessageAccounted(layout: Rail.Layout, scale: int, gap: int, actions: seq<Action>, l: nat)
    requires l < NUM_INTERSECTIONS && AllAllowed(actions)
    ensures Conserved(Run(Init(layout, scale, gap), actions), l)
    decreases |actions|
  {
    if actions == [] {
      PartOfItself([]);
    } else {
      var k := |actions| - 1;
      EveryMessageAccounted(layout, scale, gap, actions[..k], l);
      RunInv(layout, scale, gap, actions[..k]);
      StepConserved(Run(Init(layout, scale, gap), actions[..k]), actions[k], l);
    }
  }

  // ----- each party on its own -----

  /** The commands that the simulator has taken: those given while no callback was at work. */
  function Taken(start: System, actions: seq<Action>): seq<Rail.Command>
    requires start.Wf()
    decreases |actions|
  {
    if actions == [] then []
    else
      var k := |actions| - 1;
      Taken(start, actions[..k]) +
      if actions[k].RailStep? && Run(start, actions[..k]).pushing == [] then [actions[k].cmd] else []
  }

  lemma RailRunMore(w: Rail.World, cmds: seq<Rail.Command>, cmd: Rail.Command)
    requires w.Wf()
    ensures Rail.Run(w, cmds + [cmd]) == Rail.Step(Rail.Run(w, cmds), cmd) && Rail.Run(w, cmds + []) == Rail.Run(w, cmds)
  {
    assert (cmds + [cmd])[..|cmds|] == cmds && cmds + [] == cmds;
  }

  /** The simulator is not disturbed by outbox, sender and intersections: its world is that of a run of its own. */
  lemma {:induction false} SimulatorRunsAlone(layout: Rail.Layout, scale: int, gap: int, actions: seq<Action>)
    ensures var start := Init(layout, scale, gap);
            Run(start, actions).world == Rail.Run(Rail.Init(layout, scale), Taken(start, actions))
    decreases |actions|
  {
    if actions != [] {
      var k := |actions| - 1;
      var start := Init(layout, scale, gap);
      SimulatorRunsAlone(layout, scale, gap, actions[..k]);
      var cmds := Taken(start, actions[..k]);
      if actions[k].RailStep? {
        RailRunMore(Rail.Init(layout, scale), cmds, actions[k].cmd);
      } else {
        assert cmds + [] == cmds;
        WorldStays(Run(start, actions[..k]), actions[k]);
      }
    }
  }

  lemma WorldStays(s: System, a: Action)
    requires s.Wf() && !a.RailStep?
    ensures Step(s, a).world == s.world
  {
  }

  /** The inputs of an intersection: its own, and each message at the moment it arrives. */
  function Heard(start: System, actions: seq<Action>, l: nat): seq<Local.Input>
    requires start.Wf()
    decreases |actions|
  {
    if actions == [] then []
    else
      var k := |actions| - 1;
      Heard(start, actions[..k], l) + Input(Run(start, actions[..k]).hand, actions[k], l)
  }

  function Input(hand: Option<Item>, a: Action, l: nat): seq<Local.Input> {
    if a.LocalInput? && a.local == l then [a.input]
    else if a.Send? && a.arrives && hand.Some? && hand.value.Railway? && hand.value.local == l then
      [if hand.value.preempt then Local.Preempt(hand.value.eta) else Local.Clear]
    else []
  }

  lemma LocalRunMore(s: Local.State, inputs: seq<Local.Input>, more: seq<Local.Input>)
    requires |more| <= 1
    ensures Local.Run(s, inputs + more) == if more == [] then Local.Run(s, inputs) else Local.Step(Local.Run(s, inputs), more[0])
  {
    if more == [] {
      assert inputs + more == inputs;
    } else {
      assert (inputs + more)[..|inputs|] == inputs;
    }
  }

  lemma LocalStepIs(s: System, a: Action, l: nat)
    requires s.Wf() && l < NUM_INTERSECTIONS && (s.hand.Some? ==> Wired([s.hand.value]))
    ensures var i := Input(s.hand, a, l);
            Step(s, a).locals[l] == if i == [] then s.locals[l] else Local.Step(s.locals[l], i[0])
  {
    if s.hand.Some? {
      assert [s.hand.value][0] == s.hand.value;
    }
  }

  /** Nothing but these inputs moves an intersection: its state is that of a run of its own. */
  lemma {:induction false} IntersectionRunsAlone(layout: Rail.Layout, scale: int, gap: int, actions: seq<Action>, l: nat)
    requires l < NUM_INTERSECTIONS && AllAllowed(actions)
    ensures var start := Init(layout, scale, gap);
            Run(start, actions).locals[l] == Local.Run(Local.Init(l, gap), Heard(start, actions, l))
    decreases |actions|
  {
    if actions != [] {
      var k := |actions| - 1;
      var start := Init(layout, scale, gap);
      IntersectionRunsAlone(layout, scale, gap, actions[..k], l);
      RunInv(layout, scale, gap, actions[..k]);
      var s := Run(start, actions[..k]);
      LocalStepIs(s, actions[k], l);
      LocalRunMore(Local.Init(l, gap), Heard(start, actions[..k], l), Input(s.hand, actions[k], l));
    }
  }

  // ----- what the messages say -----

  /** A PREEMPT announces the configured warning time and a CLEAR nothing. */
  predicate Says(item: Item, warning: int) {
    item.Railway? ==> item.eta == if item.preempt then warning else 0
  }

  predicate AllSay(items: seq<Item>, warning: int) {
    forall k :: 0 <= k < |items| ==> Says(items[k], warning)
  }

  lemma {:induction false} ItemsSay(notices: seq<Rail.Notice>, warning: int)
    ensures AllSay(AllItems(notices, warning), warning)
    decreases |notices|
  {
    if notices != [] {
      ItemsSay(notices[..|notices| - 1], warning);
    }
  }

  predicate SystemSays(s: System, warning: int) {
    AllSay(s.pushing, warning) && AllSay(s.outbox, warning) && (s.hand.Some? ==> Says(s.hand.value, warning))
  }

  lemma StepSays(s: System, a: Action, warning: int)
    requires s.Wf() && SystemSays(s, warning) && (a.RailStep? ==> Rail.Step(s.world, a.cmd).layout.warning == warning)
    ensures SystemSays(Step(s, a), warning)
  {
    if a.RailStep? && s.pushing == [] {
      var w := Rail.Step(s.world, a.cmd);
      ItemsSay(if |s.world.sent| <= |w.sent| then w.sent[|s.world.sent|..] else [], warning);
    }
  }

  lemma LayoutStays(layout: Rail.Layout, scale: int, gap: int, actions: seq<Action>, cmd: Rail.Command)
    requires layout.Accepted()
    ensures Rail.Step(Run(Init(layout, scale, gap), actions).world, cmd).layout == layout
  {
    SimulatorRunsAlone(layout, scale, gap, actions);
    RailInvariant.EveryRunSettled(layout, scale, Taken(Init(layout, scale, gap), actions));
    RailInvariant.StepSettled(Run(Init(layout, scale, gap), actions).world, cmd);
  }

  lemma {:induction false} RunSays(layout: Rail.Layout, scale: int, gap: int, actions: seq<Action>)
    requires layout.Accepted()
    ensures SystemSays(Run(Init(layout, scale, gap), actions), layout.warning)
    decreases |actions|
  {
    if actions != [] {
      var k := |actions| - 1;
      RunSays(layout, scale, gap, actions[..k]);
      if actions[k].RailStep? {
        LayoutStays(layout, scale, gap, actions[..k], actions[k].cmd);
      }
      StepSays(Run(Init(layout, scale, gap), actions[..k]), actions[k], layout.warning);
    }
  }

  /** The PREEMPTs (true) and CLEARs among the inputs of an intersection. */
  function Messages(inputs: seq<Local.Input>): seq<bool>
    decreases |inputs|
  {
    if inputs == [] then []
    else
      var k := |inputs| - 1;
      Messages(inputs[..k]) + if inputs[k].Preempt? then [true] else if inputs[k].Clear? then [false] else []
  }

  lemma MessagesMore(inputs: seq<Local.Input>, more: seq<Local.Input>)
    requires |more| <= 1
    ensures Messages(inputs + more) == Messages(inputs) + Messages(more)
  {
    if more == [] {
      assert inputs + more == inputs;
    } else {
      assert (inputs + more)[..|inputs|] == inputs && more[..0] == [];
    }
  }

  predicate AllWarn(inputs: seq<Local.Input>, warning: int) {
    forall k :: 0 <= k < |inputs| && inputs[k].Preempt? ==> inputs[k].eta == warning
  }

  lemma ReceivedMore(s: System, a: Action, l: nat)
    requires s.Wf() && l < NUM_INTERSECTIONS && Allowed(a) && (s.hand.Some? ==> Wired([s.hand.value]))
    ensures Step(s, a).received[l] == s.received[l] + Messages(Input(s.hand, a, l))
  {
    var i := Input(s.hand, a, l);
    if i != [] {
      assert i[..0] == [];
    }
    if s.hand.Some? {
      assert [s.hand.value][0] == s.hand.value;
    }
  }

  lemma InputWarns(hand: Option<Item>, a: Action, l: nat, warning: int)
    requires Allowed(a) && (hand.Some? ==> Says(hand.value, warning))
    ensures AllWarn(Input(hand, a, l), warning)
  {
  }

  lemma {:induction false} HeardWarns(layout: Rail.Layout, scale: int, gap: int, actions: seq<Action>, l: nat)
    requires AllAllowed(actions) && layout.Accepted()
    ensures AllWarn(Heard(Init(layout, scale, gap), actions, l), layout.warning)
    decreases |actions|
  {
    if actions != [] {
      var k := |actions| - 1;
      HeardWarns(layout, scale, gap, actions[..k], l);
      RunSays(layout, scale, gap, actions[..k]);
      assert Allowed(actions[k]);
      InputWarns(Run(Init(layout, scale, gap), actions[..k]).hand, actions[k], l, layout.warning);
    }
  }

  lemma {:induction false} HeardIsReceived(layout: Rail.Layout, scale: int, gap: int, actions: seq<Action>, l: nat)
    requires l < NUM_INTERSECTIONS && AllAllowed(actions)
    ensures Messages(Heard(Init(layout, scale, gap), actions, l)) == Run(Init(layout, scale, gap), actions).received[l]
    decreases |actions|
  {
    if actions != [] {
      var k := |actions| - 1;
      var start := Init(layout, scale, gap);
      HeardIsReceived(layout, scale, gap, actions[..k], l);
      RunInv(layout, scale, gap, actions[..k]);
      var hand := Run(start, actions[..k]).hand;
      assert Allowed(actions[k]);
      ReceivedMore(Run(start, actions[..k]), actions[k], l);
      MessagesMore(Heard(start, actions[..k], l), Input(hand, actions[k], l));
    }
  }

  /** Among the inputs of an intersection are the messages received, in order, and no other PREEMPT or CLEAR; every
      PREEMPT announces the configured warning time. */
  lemma IntersectionHearsItsMessages(layout: Rail.Layout, scale: int, gap: int, actions: seq<Action>, l: nat)
    requires l < NUM_INTERSECTIONS && AllAllowed(actions) && layout.Accepted()
    ensures var start := Init(layout, scale, gap);
            && Messages(Heard(start, actions, l)) == Run(start, actions).received[l]
            && AllWarn(Heard(start, actions, l), layout.warning)
  {
    HeardIsReceived(layout, scale, gap, actions, l);
    HeardWarns(layout, scale, gap, actions, l);
  }
}
