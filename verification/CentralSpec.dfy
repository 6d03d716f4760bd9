/** The command queues and the command history of Central as a value: enqueue, take, send, cancel and
    discard. Class CentralQueues.Commander refines these functions. */
module CentralSpec {
  import opened Options

  const COMMAND_QUEUE_SIZE := 32
  const COMMAND_HISTORY_SIZE := 64
  const NUM_INTERSECTIONS := 6
  const MAX_PEERS := NUM_INTERSECTIONS + 2
  const TRAIN_PEER := 1
  const MAX_ID := 0xFFFF
  const MAX_WAIT_NS := 5_000_000_000
  const NSEC := 1_000_000_000

  datatype State = Queued | Sending | Accepted | Rejected | Unconfirmed | Canceled | Expired

  /** A history record; id 0 marks one that was never used. The serial number counts requests without
      wrapping, where ids are sixteen bits wide. */
  datatype Record = Record(id: nat, target: nat, peer: nat, automatic: bool, state: State, serial: nat)
  {
    /** Records that must not be overwritten. */
    predicate Live() {
      id != 0 && (state.Queued? || state.Sending?)
    }
  }

  datatype Entry = Entry(id: nat, serial: nat, notBefore: int)

  /** `sending` is the command each peer thread has in its hands, and `handed` counts how often each
      request was given to the transport. */
  datatype Central = Central(queues: seq<seq<Entry>>, records: seq<Record>, slot: nat, lastId: nat,
                             policy: seq<nat>, routes: seq<nat>, peers: nat, running: bool,
                             sending: seq<Option<Entry>>, serial: nat, handed: multiset<nat>)
  {
    predicate Wf() {
      && |queues| == MAX_PEERS && |records| == COMMAND_HISTORY_SIZE && |policy| == NUM_INTERSECTIONS
      && |routes| == NUM_INTERSECTIONS && |sending| == MAX_PEERS
      && slot < COMMAND_HISTORY_SIZE && lastId <= MAX_ID && TRAIN_PEER < peers <= MAX_PEERS
      && forall i :: 0 <= i < |routes| ==> routes[i] < peers
    }
  }

  /** Every intersection is reached through one of the peers. */
  predicate ValidRoutes(routes: seq<nat>, peers: nat) {
    && |routes| == NUM_INTERSECTIONS && TRAIN_PEER < peers <= MAX_PEERS
    && forall i :: 0 <= i < |routes| ==> routes[i] < peers
  }

  function Init(routes: seq<nat>, peers: nat): (c: Central)
    requires ValidRoutes(routes, peers)
    ensures c.Wf()
  {
    Central(seq(MAX_PEERS, _ => []), seq(COMMAND_HISTORY_SIZE, _ => Record(0, 0, 0, false, Queued, 0)), 0, 0,
            seq(NUM_INTERSECTIONS, _ => 0), routes, peers, true, seq(MAX_PEERS, _ => None), 0, multiset{})
  }

  // ----- searching the history -----

  /** The first record at or after k with this id, or the length; id 0 is never found. */
  function Find(records: seq<Record>, id: nat, k: nat): (r: nat)
    requires k <= |records|
    ensures k <= r <= |records|
    ensures r < |records| ==> id != 0 && records[r].id == id
    ensures id != 0 ==> forall i :: k <= i < r ==> records[i].id != id
    decreases |records| - k
  {
    if k == |records| || (id != 0 && records[k].id == id) then k else Find(records, id, k + 1)
  }

  predicate Known(records: seq<Record>, id: nat) {
    Find(records, id, 0) < |records|
  }

  /** The id is used in the history or remembered by the operator policy. */
  predicate Reserved(records: seq<Record>, policy: seq<nat>, id: nat) {
    Known(records, id) || id in policy
  }

  /** The n-th id after `last`; id 0 is skipped. */
  function NthId(last: nat, n: nat): (id: nat)
    requires n >= 1
    ensures 1 <= id <= MAX_ID
  {
    (last + n - 1) % MAX_ID + 1
  }

  ghost function RecordIds(records: seq<Record>): set<nat> {
    set i | 0 <= i < |records| :: records[i].id
  }

  ghost function Elements(ids: seq<nat>): set<nat> {
    set i | 0 <= i < |ids| :: ids[i]
  }

  lemma {:induction false} FewRecordIds(records: seq<Record>)
    ensures |RecordIds(records)| <= |records|
  {
    if records != [] {
      var n := |records| - 1;
      FewRecordIds(records[..n]);
      assert RecordIds(records) == RecordIds(records[..n]) + {records[n].id};
    }
  }

  lemma {:induction false} FewElements(ids: seq<nat>)
    ensures |Elements(ids)| <= |ids|
  {
    if ids != [] {
      var n := |ids| - 1;
      FewElements(ids[..n]);
      assert Elements(ids) == Elements(ids[..n]) + {ids[n]};
    }
  }

  lemma {:induction false} ManyIds(last: nat, n: nat, ids: set<nat>)
    requires n <= MAX_ID && forall k :: 1 <= k <= n ==> NthId(last, k) in ids
    ensures n <= |ids|
  {
    if n > 0 {
      var id := NthId(last, n);
      forall k | 1 <= k <= n - 1
        ensures NthId(last, k) in ids - {id}
      {
        DistinctIds(last, k, n);
      }
      ManyIds(last, n - 1, ids - {id});
    }
  }

  lemma DistinctIds(last: nat, j: nat, k: nat)
    requires 1 <= j < k <= MAX_ID
    ensures NthId(last, j) != NthId(last, k)
  {
    var a, b := last + j - 1, last + k - 1;
    assert a == MAX_ID * (a / MAX_ID) + a % MAX_ID && b == MAX_ID * (b / MAX_ID) + b % MAX_ID;
    assert b - a == MAX_ID * (b / MAX_ID - a / MAX_ID) + (b % MAX_ID - a % MAX_ID);
  }

  /** Pigeonhole: with at most 70 reserved ids the search ends within 71 tries. */
  lemma TriesBounded(records: seq<Record>, policy: seq<nat>, last: nat, n: nat)
    requires |records| + |policy| < MAX_ID && n <= |records| + |policy| + 1
    requires forall k :: 1 <= k <= n ==> Reserved(records, policy, NthId(last, k))
    ensures n <= |records| + |policy|
  {
    forall k | 1 <= k <= n
      ensures NthId(last, k) in RecordIds(records) + Elements(policy)
    {
      assert Reserved(records, policy, NthId(last, k));
    }
    FewRecordIds(records);
    FewElements(policy);
    ManyIds(last, n, RecordIds(records) + Elements(policy));
  }

  /** The number of the first try that finds a free id. */
  function Tries(records: seq<Record>, policy: seq<nat>, last: nat, n: nat): (r: nat)
    requires |records| + |policy| < MAX_ID && 1 <= n <= |records| + |policy| + 1
    requires forall k :: 1 <= k < n ==> Reserved(records, policy, NthId(last, k))
    ensures n <= r <= |records| + |policy| + 1 && !Reserved(records, policy, NthId(last, r))
    ensures forall k :: 1 <= k < r ==> Reserved(records, policy, NthId(last, k))
    decreases |records| + |policy| + 1 - n
  {
    if Reserved(records, policy, NthId(last, n)) then
      TriesBounded(records, policy, last, n);
      Tries(records, policy, last, n + 1)
    else n
  }

  /** The next id that nothing refers to. */
  function NextId(records: seq<Record>, policy: seq<nat>, last: nat): (id: nat)
    requires |records| + |policy| < MAX_ID
    ensures 1 <= id <= MAX_ID && !Reserved(records, policy, id)
  {
    NthId(last, Tries(records, policy, last, 1))
  }

  /** How many of the first n records a new request may overwrite. */
  function FreeCount(records: seq<Record>, n: nat): (r: nat)
    requires n <= |records|
    ensures r <= n
  {
    if n == 0 then 0 else FreeCount(records, n - 1) + if records[n - 1].Live() then 0 else 1
  }

  function Available(records: seq<Record>): (n: nat)
    ensures n <= |records|
  {
    FreeCount(records, |records|)
  }

  lemma {:induction false} SomeFree(records: seq<Record>, n: nat)
    requires n <= |records| && FreeCount(records, n) > 0
    ensures exists i :: 0 <= i < n && !records[i].Live()
  {
    if records[n - 1].Live() {
      SomeFree(records, n - 1);
    }
  }

  /** The k-th record after `slot`, going round. */
  function Around(slot: nat, k: nat, size: nat): nat
    requires slot < size && k <= size
    ensures Around(slot, k, size) < size
  {
    if slot + k < size then slot + k else slot + k - size
  }

  ghost predicate LiveFrom(records: seq<Record>, slot: nat, n: nat)
    requires slot < |records| && n <= |records|
  {
    forall k :: 0 <= k < n ==> records[Around(slot, k, |records|)].Live()
  }

  /** The first free record at or after `slot`, going round. */
  function FreeSlot(records: seq<Record>, slot: nat, n: nat): (r: nat)
    requires slot < |records| && n <= |records| && LiveFrom(records, slot, n)
    requires exists i :: 0 <= i < |records| && !records[i].Live()
    ensures r < |records| && !records[r].Live()
    decreases |records| - n
  {
    SlotsLeft(records, slot, n);
    var k := Around(slot, n, |records|);
    if records[k].Live() then FreeSlot(records, slot, n + 1) else k
  }

  /** A whole round of live records would leave none free. */
  lemma SlotsLeft(records: seq<Record>, slot: nat, n: nat)
    requires slot < |records| && n <= |records| && LiveFrom(records, slot, n)
    requires exists i :: 0 <= i < |records| && !records[i].Live()
    ensures n < |records|
  {
    var i :| 0 <= i < |records| && !records[i].Live();
    var k := if i >= slot then i - slot else i + |records| - slot;
    assert Around(slot, k, |records|) == i;
  }

  // ----- enqueue -----

  function NewId(c: Central): (id: nat)
    requires c.Wf()
    ensures 1 <= id <= MAX_ID && !Known(c.records, id)
  {
    NextId(c.records, c.policy, c.lastId)
  }

  function NewSlot(c: Central): (slot: nat)
    requires c.Wf() && Available(c.records) > 0
    ensures slot < COMMAND_HISTORY_SIZE && !c.records[slot].Live()
  {
    SomeFree(c.records, |c.records|);
    FreeSlot(c.records, c.slot, 0)
  }

  /** What the requests of one enqueue have in common: they go to the targets from `first` on; `remembered`
      tells an operator's mode command. */
  datatype Wish = Wish(train: bool, first: nat, automatic: bool, remembered: bool, notBefore: int)

  function PeerOf(routes: seq<nat>, w: Wish, k: nat): nat
    requires w.first + k < |routes|
  {
    if w.train then TRAIN_PEER else routes[w.first + k]
  }

  /** A request for the k-th target, with its id and its place in the history. */
  function Enter(c: Central, w: Wish, k: nat, id: nat, slot: nat): (r: Central)
    requires c.Wf() && w.first + k < NUM_INTERSECTIONS && id <= MAX_ID && slot < COMMAND_HISTORY_SIZE
    ensures r.Wf()
  {
    var target, peer := w.first + k, PeerOf(c.routes, w, k);
    c.(records := c.records[slot := Record(id, target, peer, w.automatic, Queued, c.serial)],
       policy := if w.remembered then c.policy[target := id] else c.policy,
       slot := (slot + 1) % COMMAND_HISTORY_SIZE, lastId := id,
       queues := c.queues[peer := c.queues[peer] + [Entry(id, c.serial, w.notBefore)]],
       serial := c.serial + 1)
  }

  function AddOne(c: Central, w: Wish, k: nat): (r: Central)
    requires c.Wf() && w.first + k < NUM_INTERSECTIONS && Available(c.records) > 0
    ensures r.Wf() && r.routes == c.routes && Available(r.records) == Available(c.records) - 1
  {
    UseOne(c.records, NewSlot(c), Enter(c, w, k, NewId(c), NewSlot(c)).records[NewSlot(c)], |c.records|);
    Enter(c, w, k, NewId(c), NewSlot(c))
  }

  lemma {:induction false} UseOne(records: seq<Record>, slot: nat, r: Record, n: nat)
    requires slot < |records| && !records[slot].Live() && r.Live() && n <= |records|
    ensures FreeCount(records[slot := r], n) == FreeCount(records, n) - if slot < n then 1 else 0
  {
    if n > 0 {
      UseOne(records, slot, r, n - 1);
    }
  }

  /** Requests to the first n targets. */
  function AddAll(c: Central, w: Wish, n: nat): (r: Central)
    requires c.Wf() && w.first + n <= NUM_INTERSECTIONS && n <= Available(c.records)
    ensures r.Wf() && r.routes == c.routes && Available(r.records) == Available(c.records) - n
  {
    if n == 0 then c else AddOne(AddAll(c, w, n - 1), w, n - 1)
  }

  /** How many of the first n requests go to a peer. */
  function Needed(routes: seq<nat>, w: Wish, n: nat, peer: nat): nat
    requires w.first + n <= |routes|
  {
    if n == 0 then 0 else Needed(routes, w, n - 1, peer) + if PeerOf(routes, w, n - 1) == peer then 1 else 0
  }

  predicate RoomAt(c: Central, w: Wish, n: nat, p: nat)
    requires c.Wf() && w.first + n <= NUM_INTERSECTIONS && p < MAX_PEERS
  {
    |c.queues[p]| + Needed(c.routes, w, n, p) <= COMMAND_QUEUE_SIZE
  }

  /** Every queue has room for the requests that go to it. */
  predicate RoomFor(c: Central, w: Wish, n: nat)
    requires c.Wf() && w.first + n <= NUM_INTERSECTIONS
  {
    forall p :: 0 <= p < c.peers ==> RoomAt(c, w, n, p)
  }

  predicate Fits(c: Central, w: Wish, n: nat)
    requires c.Wf() && w.first + n <= NUM_INTERSECTIONS
  {
    n <= Available(c.records) && RoomFor(c, w, n)
  }

  /** To the train, one intersection, or all of them. */
  datatype Target = Train | One(target: nat) | All

  function Count(t: Target): nat {
    if t.All? then NUM_INTERSECTIONS else 1
  }

  predicate ValidTarget(t: Target) {
    t.One? ==> t.target < NUM_INTERSECTIONS
  }

  function WishOf(t: Target, automatic: bool, mode: bool, now: int, delay: nat): Wish {
    Wish(t.Train?, if t.One? then t.target else 0, automatic, mode && !automatic && !t.Train?, now + delay * NSEC)
  }

  /** `ready` tells that every peer concerned has a healthy link. */
  function Enqueue(c: Central, w: Wish, n: nat, ready: bool): (r: (Central, bool))
    requires c.Wf() && w.first + n <= NUM_INTERSECTIONS
    ensures r.0.Wf()
  {
    if c.running && Fits(c, w, n) && ready then (AddAll(c, w, n), true) else (c, false)
  }

  // ----- take and send -----

  /** The first entry at or after k whose time has come, or the length. */
  function FirstReady(q: seq<Entry>, now: int, k: nat): (r: nat)
    requires k <= |q|
    ensures k <= r <= |q|
    ensures r < |q| ==> q[r].notBefore <= now
    ensures forall i :: k <= i < r ==> q[i].notBefore > now
    decreases |q| - k
  {
    if k == |q| || q[k].notBefore <= now then k else FirstReady(q, now, k + 1)
  }

  function SetState(records: seq<Record>, i: nat, state: State): (r: seq<Record>)
    ensures |r| == |records|
  {
    if i < |records| then records[i := records[i].(state := state)] else records
  }

  /** An entry just taken from the queue is sent, or given up when it waited too long or its link is down. */
  function Dispatch(c: Central, peer: nat, e: Entry, later: int, ready: bool): (r: Central)
    requires c.Wf() && peer < MAX_PEERS
    ensures r.Wf()
  {
    var i := Find(c.records, e.id, 0);
    if i == |c.records| || !c.records[i].state.Queued? then c
    else if later - e.notBefore >= MAX_WAIT_NS then c.(records := SetState(c.records, i, Expired))
    else if !ready then c.(records := SetState(c.records, i, Canceled))
    else c.(records := SetState(c.records, i, Sending), sending := c.sending[peer := Some(e)],
            handed := c.handed + multiset{e.serial})
  }

  /** The peer thread takes the first command that is due; `later` is its second look at the clock. */
  function Take(c: Central, peer: nat, now: int, later: int, ready: bool): (r: Central)
    requires c.Wf() && peer < MAX_PEERS
    ensures r.Wf()
  {
    var q := c.queues[peer];
    var k := FirstReady(q, now, 0);
    if !c.running || c.sending[peer].Some? || k == |q| then c
    else Dispatch(c.(queues := c.queues[peer := q[..k] + q[k + 1..]]), peer, q[k], later, ready)
  }

  /** The transport has answered. */
  function Complete(c: Central, peer: nat, outcome: State): (r: Central)
    requires c.Wf() && peer < MAX_PEERS
    ensures r.Wf()
  {
    if c.sending[peer].None? then c
    else c.(records := SetState(c.records, Find(c.records, c.sending[peer].value.id, 0), outcome),
            sending := c.sending[peer := None])
  }

  // ----- cancel and discard -----

  predicate Superseded(records: seq<Record>, e: Entry, t: Target) {
    var i := Find(records, e.id, 0);
    i < |records| && records[i].automatic && (t.All? || (t.One? && records[i].target == t.target))
  }

  /** The entries among the first n that stay, in order. */
  function Kept(records: seq<Record>, q: seq<Entry>, n: nat, t: Target): (r: seq<Entry>)
    requires n <= |q|
    ensures |r| <= n
  {
    if n == 0 then []
    else Kept(records, q, n - 1, t) + if Superseded(records, q[n - 1], t) then [] else [q[n - 1]]
  }

  /** The history after the superseded ones among the first n entries are canceled. */
  function CancelEntries(records: seq<Record>, q: seq<Entry>, n: nat, t: Target): (r: seq<Record>)
    requires n <= |q|
    ensures |r| == |records|
  {
    if n == 0 then records
    else
      var p := CancelEntries(records, q, n - 1, t);
      if Superseded(p, q[n - 1], t) then SetState(p, Find(p, q[n - 1].id, 0), Canceled) else p
  }

  function CancelPeer(c: Central, peer: nat, t: Target): (r: Central)
    requires c.Wf() && peer < MAX_PEERS
    ensures r.Wf()
  {
    var q := c.queues[peer];
    c.(queues := c.queues[peer := Kept(c.records, q, |q|, t)], records := CancelEntries(c.records, q, |q|, t))
  }

  function CancelPeers(c: Central, n: nat, t: Target): (r: Central)
    requires c.Wf() && n <= c.peers
    ensures r.Wf() && r.peers == c.peers
  {
    if n == 0 then c else CancelPeer(CancelPeers(c, n - 1, t), n - 1, t)
  }

  function CancelAutomatic(c: Central, t: Target): (r: Central)
    requires c.Wf()
    ensures r.Wf()
  {
    CancelPeers(c, c.peers, t)
  }

  function Discard(c: Central, peer: nat): (r: Central)
    requires c.Wf() && peer < MAX_PEERS
    ensures r.Wf()
  {
    c.(queues := c.queues[peer := []],
       records := seq(|c.records|, i requires 0 <= i < |c.records| =>
                    if c.records[i].id != 0 && c.records[i].peer == peer && c.records[i].state.Queued?
                    then c.records[i].(state := Canceled) else c.records[i]))
  }

  // ----- runs -----

  datatype Step =
    | EnqueueStep(t: Target, automatic: bool, mode: bool, now: int, delay: nat, ready: bool)
    | TakeStep(peer: nat, now: int, later: int, ready: bool)
    | CompleteStep(peer: nat, outcome: State)
    | CancelStep(t: Target)
    | DiscardStep(peer: nat)
    | ForgetStep(target: nat)
    | StopStep

  predicate ValidStep(s: Step) {
    match s
    case EnqueueStep(t, _, _, _, _, _) => ValidTarget(t)
    case TakeStep(p, _, _, _) => p < MAX_PEERS
    case CompleteStep(p, outcome) => p < MAX_PEERS && (outcome.Accepted? || outcome.Rejected? || outcome.Unconfirmed?)
    case DiscardStep(p) => p < MAX_PEERS
    case ForgetStep(i) => i < NUM_INTERSECTIONS
    case _ => true
  }

  function Apply(c: Central, s: Step): (r: Central)
    requires c.Wf() && ValidStep(s)
    ensures r.Wf()
  {
    match s
    case EnqueueStep(t, automatic, mode, now, delay, ready) =>
      Enqueue(c, WishOf(t, automatic, mode, now, delay), Count(t), ready).0
    case TakeStep(p, now, later, ready) => Take(c, p, now, later, ready)
    case CompleteStep(p, outcome) => Complete(c, p, outcome)
    case CancelStep(t) => CancelAutomatic(c, t)
    case DiscardStep(p) => Discard(c, p)
    case ForgetStep(i) => c.(policy := c.policy[i := 0])
    case StopStep => c.(running := false)
  }

  predicate ValidSteps(steps: seq<Step>) {
    forall i :: 0 <= i < |steps| ==> ValidStep(steps[i])
  }

  function Run(c: Central, steps: seq<Step>): (r: Central)
    requires c.Wf() && ValidSteps(steps)
    ensures r.Wf()
    decreases |steps|
  {
    if steps == [] then c else Apply(Run(c, steps[..|steps| - 1]), steps[|steps| - 1])
  }

  /** A run from the start of the program. */
  function RunFrom(routes: seq<nat>, peers: nat, steps: seq<Step>): (r: Central)
    requires ValidRoutes(routes, peers) && ValidSteps(steps)
    ensures r.Wf()
  {
    Run(Init(routes, peers), steps)
  }
}
