/** What each operation on Central's queues does in every run, told from its arguments: who gets a request,
    under which id and in which place, what is taken, and what is given up. */
module CentralRequests {
  import opened Options
  import opened CentralSpec
  import opened CentralSafety
  import opened CentralRuns

  // ----- places and ids -----

  /** A record that is queued or being sent must not be overwritten. */
  predicate Busy(r: Record) {
    r.id != 0 && (r.state == Queued || r.state == Sending)
  }

  predicate UsedId(c: Central, id: nat) {
    (exists i :: 0 <= i < |c.records| && c.records[i].id == id) || (exists j :: 0 <= j < |c.policy| && c.policy[j] == id)
  }

  /** Counting up from `last`, with 1 after 65535, passes x before it comes to id. */
  predicate Passes(last: nat, x: nat, id: nat) {
    if last < id then last < x < id else x > last || x < id
  }

  /** The first id after the last one that neither history nor policy uses. */
  ghost predicate NextUnused(c: Central, id: nat) {
    && 1 <= id <= 65535 && !UsedId(c, id)
    && forall x: nat :: 1 <= x <= 65535 && Passes(c.lastId, x, id) ==> UsedId(c, x)
  }

  /** The first place from the cursor on, going round, whose record is not busy. */
  predicate NextPlace(c: Central, slot: nat) {
    && slot < |c.records| && !Busy(c.records[slot])
    && forall i :: 0 <= i < |c.records| && (if c.slot <= slot then c.slot <= i < slot else i >= c.slot || i < slot) ==>
         Busy(c.records[i])
  }

  lemma KnownIsUsed(records: seq<Record>, id: nat)
    requires id != 0
    ensures Known(records, id) <==> exists i :: 0 <= i < |records| && records[i].id == id
  {
  }

  lemma ReservedIsUsed(c: Central, id: nat)
    requires id != 0
    ensures Reserved(c.records, c.policy, id) <==> UsedId(c, id)
  {
    KnownIsUsed(c.records, id);
  }

  lemma PassedIsTried(last: nat, n: nat, x: nat) returns (k: nat)
    requires last <= 65535 && 1 <= n <= 71 && 1 <= x <= 65535 && Passes(last, x, NthId(last, n))
    ensures 1 <= k < n && NthId(last, k) == x
  {
    k := if x > last then x - last else x + 65535 - last;
    var a := last + n - 1;
    assert a % 65535 == if a < 65535 then a else a - 65535;
    var b := last + k - 1;
    assert b % 65535 == if b < 65535 then b else b - 65535;
  }

  lemma IdIsNextUnused(c: Central)
    requires c.Wf()
    ensures NextUnused(c, NewId(c))
  {
    var tries := Tries(c.records, c.policy, c.lastId, 1);
    ReservedIsUsed(c, NewId(c));
    forall x: nat | 1 <= x <= 65535 && Passes(c.lastId, x, NewId(c))
      ensures UsedId(c, x)
    {
      var k := PassedIsTried(c.lastId, tries, x);
      ReservedIsUsed(c, x);
    }
  }

  lemma {:induction false} FreeSlotIsFirst(records: seq<Record>, slot: nat, n: nat) returns (k: nat)
    requires slot < |records| && n <= |records| && LiveFrom(records, slot, n)
    requires exists i :: 0 <= i < |records| && !records[i].Live()
    ensures k < |records| && FreeSlot(records, slot, n) == Around(slot, k, |records|) && LiveFrom(records, slot, k)
    decreases |records| - n
  {
    SlotsLeft(records, slot, n);
    if records[Around(slot, n, |records|)].Live() {
      k := FreeSlotIsFirst(records, slot, n + 1);
    } else {
      k := n;
    }
  }

  lemma SlotIsNextPlace(c: Central)
    requires c.Wf() && Available(c.records) > 0
    ensures NextPlace(c, NewSlot(c))
  {
    SomeFree(c.records, |c.records|);
    var size := |c.records|;
    var k := FreeSlotIsFirst(c.records, c.slot, 0);
    var slot := NewSlot(c);
    forall i | 0 <= i < size && (if c.slot <= slot then c.slot <= i < slot else i >= c.slot || i < slot)
      ensures Busy(c.records[i])
    {
      var j := if i >= c.slot then i - c.slot else i + size - c.slot;
      assert Around(c.slot, j, size) == i && j < k;
    }
  }

  // ----- enqueue -----

  function Requests(t: Target): nat {
    match t
    case Train => 1
    case One(_) => 1
    case All => 6
  }

  /** Train, the intersection's peer, or every intersection's. */
  function Peers(routes: seq<nat>, t: Target): (r: seq<nat>)
    requires ValidTarget(t) && |routes| == 6
    ensures |r| == Requests(t)
  {
    match t
    case Train => [1]
    case One(i) => [routes[i]]
    case All => routes
  }

  /** Target and peer of the k-th request: Train's own, one intersection's, or each intersection's in turn. */
  function Address(routes: seq<nat>, t: Target, k: nat): (nat, nat)
    requires ValidTarget(t) && k < Requests(t) && |routes| == 6
  {
    (if t.One? then t.target else k, Peers(routes, t)[k])
  }

  /** One request for `target`: the next place and the next id, at the end of the queue of `peer`, not before its
      time; a remembered one is also the policy of its target. */
  ghost predicate OneRequest(c: Central, r: Central, target: nat, peer: nat, automatic: bool, remembered: bool, notBefore: int)
    requires c.Wf() && target < 6 && peer < 8
  {
    exists id: nat, slot: nat {:trigger NextUnused(c, id), NextPlace(c, slot)} ::
      && NextUnused(c, id) && NextPlace(c, slot)
      && r == c.(records := c.records[slot := Record(id, target, peer, automatic, Queued, c.serial)],
                 queues := c.queues[peer := c.queues[peer] + [Entry(id, c.serial, notBefore)]],
                 policy := if remembered then c.policy[target := id] else c.policy,
                 slot := if slot == 63 then 0 else slot + 1, lastId := id, serial := c.serial + 1)
  }

  /** The free places of the history and of every queue suffice. */
  ghost predicate HasRoom(c: Central, t: Target)
    requires c.Wf() && ValidTarget(t)
  {
    && |FreePlaces(c.records)| >= Requests(t)
    && forall p :: 0 <= p < c.peers ==> |c.queues[p]| + |GoingTo(c.routes, t, p)| <= 32
  }

  ghost function FreePlaces(records: seq<Record>): set<nat> {
    set i: nat | i < |records| && !Busy(records[i])
  }

  ghost function Positions(peers: seq<nat>, p: nat, n: nat): set<nat>
    requires n <= |peers|
  {
    set k: nat | k < n && peers[k] == p
  }

  ghost function GoingTo(routes: seq<nat>, t: Target, p: nat): set<nat>
    requires ValidTarget(t) && |routes| == 6
  {
    Positions(Peers(routes, t), p, Requests(t))
  }

  ghost predicate Requested(cs: seq<Central>, t: Target, k: nat, automatic: bool, remembered: bool, notBefore: int)
    requires ValidTarget(t) && k < Requests(t) && k + 1 < |cs|
  {
    && cs[k].Wf() && Address(cs[k].routes, t, k).1 < 8
    && OneRequest(cs[k], cs[k + 1], Address(cs[k].routes, t, k).0, Address(cs[k].routes, t, k).1, automatic, remembered, notBefore)
  }

  /** The states from c to r while the requests are made one after the other. */
  ghost predicate Made(c: Central, r: Central, cs: seq<Central>, t: Target, automatic: bool, remembered: bool, notBefore: int)
    requires ValidTarget(t)
  {
    && |cs| == Requests(t) + 1 && cs[0] == c && cs[Requests(t)] == r
    && forall k :: 0 <= k < Requests(t) ==> Requested(cs, t, k, automatic, remembered, notBefore)
  }

  lemma AddOneRequests(c: Central, t: Target, automatic: bool, mode: bool, now: int, delay: nat, k: nat)
    requires c.Wf() && ValidTarget(t) && k < Requests(t) && Available(c.records) > 0
    ensures var w, a := WishOf(t, automatic, mode, now, delay), Address(c.routes, t, k);
            && w.first + k < 6 && a.1 < 8
            && OneRequest(c, AddOne(c, w, k), a.0, a.1, automatic, mode && !automatic && !t.Train?,
                          now + delay * 1_000_000_000)
  {
    IdIsNextUnused(c);
    SlotIsNextPlace(c);
    assert NextUnused(c, NewId(c)) && NextPlace(c, NewSlot(c));
  }

  lemma {:induction false} CountFree(records: seq<Record>, n: nat)
    requires n <= |records|
    ensures FreeCount(records, n) == |FreePlaces(records[..n])|
    decreases n
  {
    if n > 0 {
      CountFree(records, n - 1);
      var s := FreePlaces(records[..n - 1]);
      assert FreePlaces(records[..n]) == if Busy(records[n - 1]) then s else s + {n - 1};
    } else {
      assert FreePlaces(records[..0]) == {};
    }
  }

  lemma AvailableIsFree(records: seq<Record>)
    ensures Available(records) == |FreePlaces(records)|
  {
    CountFree(records, |records|);
    assert records[..|records|] == records;
  }

  /** The wish asks for these targets. */
  predicate AsksFor(w: Wish, t: Target) {
    w.train == t.Train? && w.first == if t.One? then t.target else 0
  }

  lemma OneMorePosition(peers: seq<nat>, p: nat, n: nat)
    requires n < |peers|
    ensures |Positions(peers, p, n + 1)| == |Positions(peers, p, n)| + if peers[n] == p then 1 else 0
  {
    var s := Positions(peers, p, n);
    assert Positions(peers, p, n + 1) == if peers[n] == p then s + {n} else s;
  }

  lemma {:induction false} CountNeeded(routes: seq<nat>, t: Target, w: Wish, p: nat, n: nat)
    requires ValidTarget(t) && |routes| == 6 && n <= Requests(t) && AsksFor(w, t)
    ensures w.first + n <= 6 && Needed(routes, w, n, p) == |Positions(Peers(routes, t), p, n)|
    decreases n
  {
    if n > 0 {
      CountNeeded(routes, t, w, p, n - 1);
      OneMorePosition(Peers(routes, t), p, n - 1);
    }
  }

  lemma RoomIsRoom(c: Central, t: Target, w: Wish)
    requires c.Wf() && ValidTarget(t) && AsksFor(w, t)
    ensures Count(t) == Requests(t) && (Fits(c, w, Count(t)) <==> HasRoom(c, t))
  {
    AvailableIsFree(c.records);
    forall p | 0 <= p < c.peers
      ensures RoomAt(c, w, Count(t), p) <==> |c.queues[p]| + |GoingTo(c.routes, t, p)| <= 32
    {
      CountNeeded(c.routes, t, w, p, Requests(t));
    }
  }

  lemma TraceMade(cs: seq<Central>, t: Target, automatic: bool, mode: bool, now: int, delay: nat)
    requires ValidTarget(t) && |cs| == Requests(t) + 1
    requires Trace(cs, WishOf(t, automatic, mode, now, delay), Requests(t))
    ensures Made(cs[0], cs[Requests(t)], cs, t, automatic, mode && !automatic && !t.Train?, now + delay * 1_000_000_000)
  {
    var remembered, notBefore := mode && !automatic && !t.Train?, now + delay * 1_000_000_000;
    forall k | 0 <= k < Requests(t)
      ensures Requested(cs, t, k, automatic, remembered, notBefore)
    {
      assert FollowsAt(cs, WishOf(t, automatic, mode, now, delay), k);
      AddOneRequests(cs[k], t, automatic, mode, now, delay, k);
    }
  }

  /** An enqueue makes one request for each target when Central runs, the links are ready and there is room for
      all of them; otherwise it changes nothing. An operator's mode command to an intersection is remembered. */
  ghost predicate EnqueueDone(c: Central, r: Central, t: Target, automatic: bool, mode: bool, notBefore: int, ready: bool)
    requires c.Wf() && ValidTarget(t)
  {
    var remembered := mode && !automatic && !t.Train?;
    if c.running && ready && HasRoom(c, t) then exists cs :: Made(c, r, cs, t, automatic, remembered, notBefore)
    else r == c
  }

  lemma EnqueueMakes(c: Central, t: Target, automatic: bool, mode: bool, now: int, delay: nat, ready: bool)
    requires c.Wf() && ValidTarget(t)
    ensures EnqueueDone(c, Apply(c, EnqueueStep(t, automatic, mode, now, delay, ready)), t, automatic, mode,
                        now + delay * 1_000_000_000, ready)
  {
    var w := WishOf(t, automatic, mode, now, delay);
    RoomIsRoom(c, t, w);
    if c.running && ready && HasRoom(c, t) {
      var cs := States(c, w, Count(t));
      AddAllTrace(c, w, Count(t));
      TraceMade(cs, t, automatic, mode, now, delay);
      assert Made(c, AddAll(c, w, Count(t)), cs, t, automatic, mode && !automatic && !t.Train?,
                  now + delay * 1_000_000_000);
    }
  }

  // ----- take, send and discard -----

  /** The k-th entry is the first of the queue whose time has come. */
  predicate FirstDue(q: seq<Entry>, now: int, k: nat) {
    k < |q| && q[k].notBefore <= now && forall j :: 0 <= j < k ==> q[j].notBefore > now
  }

  predicate NoneDue(q: seq<Entry>, now: int) {
    forall j :: 0 <= j < |q| ==> q[j].notBefore > now
  }

  /** The k-th entry of the queue leaves it, and its record gets a new state: it expires five seconds after its
      time, is canceled without a link, and is otherwise in the hands of the peer's thread. */
  predicate TakenAway(c: Central, r: Central, peer: nat, k: nat, i: nat, later: int, ready: bool)
    requires c.Wf() && peer < MAX_PEERS && k < |c.queues[peer]| && i < |c.records|
  {
    var e := c.queues[peer][k];
    var expired := later - e.notBefore >= 5_000_000_000;
    var sent := !expired && ready;
    && c.records[i].id == e.id && c.records[i].serial == e.serial && c.records[i].peer == peer
    && c.records[i].state.Queued?
    && r == c.(queues := c.queues[peer := c.queues[peer][..k] + c.queues[peer][k + 1..]],
               records := c.records[i := c.records[i].(state := if expired then Expired else if sent then Sending else Canceled)],
               sending := if sent then c.sending[peer := Some(e)] else c.sending,
               handed := if sent then c.handed + multiset{e.serial} else c.handed)
  }

  ghost predicate TakeDone(c: Central, r: Central, peer: nat, now: int, later: int, ready: bool)
    requires c.Wf() && peer < MAX_PEERS
  {
    if !c.running || c.sending[peer].Some? || NoneDue(c.queues[peer], now) then r == c
    else exists k: nat, i: nat {:trigger FirstDue(c.queues[peer], now, k), c.records[i]} ::
      FirstDue(c.queues[peer], now, k) && i < |c.records| && TakenAway(c, r, peer, k, i, later, ready)
  }

  lemma TakeTakes(c: Central, peer: nat, now: int, later: int, ready: bool)
    requires Inv(c) && peer < MAX_PEERS
    ensures TakeDone(c, Take(c, peer, now, later, ready), peer, now, later, ready)
  {
    TakeResolves(c, peer, now, later, ready);
    var q := c.queues[peer];
    var k := FirstReady(q, now, 0);
    if c.running && c.sending[peer].None? && k < |q| {
      var i := Find(c.records, q[k].id, 0);
      assert FirstDue(q, now, k) && TakenAway(c, Take(c, peer, now, later, ready), peer, k, i, later, ready);
      assert c.records[i].state.Queued?;
    }
  }

  /** The outcome goes to the record of what was sent, and the thread's hands are empty. */
  ghost predicate CompleteDone(c: Central, r: Central, peer: nat, outcome: State)
    requires c.Wf() && peer < MAX_PEERS
  {
    if c.sending[peer].None? then r == c
    else exists i :: 0 <= i < |c.records| && Matches(c.records[i], c.sending[peer].value, peer, Sending)
                     && r == c.(records := c.records[i := c.records[i].(state := outcome)], sending := c.sending[peer := None])
  }

  lemma CompleteWrites(c: Central, peer: nat, outcome: State)
    requires Inv(c) && peer < MAX_PEERS && Outcome(outcome)
    ensures CompleteDone(c, Complete(c, peer, outcome), peer, outcome)
  {
    if c.sending[peer].Some? {
      assert SendingOk(c.records, c.sending[peer], peer);
      FindRecord(c.records, c.sending[peer].value, peer, Sending);
      var i := Find(c.records, c.sending[peer].value.id, 0);
      assert Matches(c.records[i], c.sending[peer].value, peer, Sending);
    }
  }

  /** A discarded queue is empty and exactly its queued records are canceled. */
  predicate DiscardDone(c: Central, r: Central, peer: nat)
    requires c.Wf() && peer < MAX_PEERS
  {
    && r == c.(queues := c.queues[peer := []], records := r.records) && |r.records| == |c.records|
    && forall i :: 0 <= i < |c.records| ==>
         r.records[i] == if c.records[i].id != 0 && c.records[i].peer == peer && c.records[i].state == Queued
                         then c.records[i].(state := Canceled) else c.records[i]
  }

  // ----- cancel -----

  /** The entry's queued record was made by the schedule, for an intersection that is now commanded. */
  predicate CanceledBy(records: seq<Record>, e: Entry, peer: nat, t: Target) {
    exists i :: 0 <= i < |records| && Matches(records[i], e, peer, Queued) && records[i].automatic
                && (t.All? || (t.One? && records[i].target == t.target))
  }

  predicate Increasing(at: seq<nat>, n: nat) {
    && (forall j :: 0 <= j < |at| ==> at[j] < n)
    && (forall j, k :: 0 <= j < k < |at| ==> at[j] < at[k])
  }

  /** `r` is `q` without the canceled entries, in the same order: at[j] is the old position of the j-th. */
  predicate FilteredAt(records: seq<Record>, q: seq<Entry>, r: seq<Entry>, peer: nat, t: Target, at: seq<nat>) {
    && |at| == |r| && Increasing(at, |q|)
    && (forall j :: 0 <= j < |r| ==> r[j] == q[at[j]] && !CanceledBy(records, r[j], peer, t))
    && (forall k :: 0 <= k < |q| && k !in at ==> CanceledBy(records, q[k], peer, t))
  }

  lemma SupersededIsCanceled(records: seq<Record>, e: Entry, peer: nat, t: Target)
    requires Unique(records) && HasRecord(records, e, peer, Queued)
    ensures Superseded(records, e, t) <==> CanceledBy(records, e, peer, t)
  {
    FindRecord(records, e, peer, Queued);
    var f := Find(records, e.id, 0);
    if CanceledBy(records, e, peer, t) {
      var i :| 0 <= i < |records| && Matches(records[i], e, peer, Queued) && records[i].automatic
               && (t.All? || (t.One? && records[i].target == t.target));
      SameId(records, f, i);
    }
  }

  lemma FilteredNext(records: seq<Record>, q: seq<Entry>, r: seq<Entry>, peer: nat, t: Target, at: seq<nat>, e: Entry)
    requires FilteredAt(records, q, r, peer, t, at)
    ensures if CanceledBy(records, e, peer, t) then FilteredAt(records, q + [e], r, peer, t, at)
            else FilteredAt(records, q + [e], r + [e], peer, t, at + [|q|])
  {
    var more := at + [|q|];
    forall k | 0 <= k < |q| && k !in more
      ensures CanceledBy(records, q[k], peer, t)
    {
      assert forall j :: 0 <= j < |at| ==> more[j] == at[j];
      assert k !in at;
    }
  }

  lemma KeepOrDrop(records: seq<Record>, q: seq<Entry>, n: nat, peer: nat, t: Target, at: seq<nat>) returns (next: seq<nat>)
    requires Unique(records) && n < |q| && HasRecord(records, q[n], peer, Queued)
    requires FilteredAt(records, q[..n], Kept(records, q, n, t), peer, t, at)
    ensures FilteredAt(records, q[..n + 1], Kept(records, q, n + 1, t), peer, t, next)
  {
    var kept := Kept(records, q, n, t);
    SupersededIsCanceled(records, q[n], peer, t);
    FilteredNext(records, q[..n], kept, peer, t, at, q[n]);
    assert q[..n + 1] == q[..n] + [q[n]] && kept + [] == kept;
    next := if Superseded(records, q[n], t) then at else at + [n];
  }

  lemma {:induction false} KeptIsFiltered(records: seq<Record>, q: seq<Entry>, n: nat, peer: nat, t: Target) returns (at: seq<nat>)
    requires Unique(records) && n <= |q| && forall k :: 0 <= k < |q| ==> HasRecord(records, q[k], peer, Queued)
    ensures FilteredAt(records, q[..n], Kept(records, q, n, t), peer, t, at)
    decreases n
  {
    at := [];
    if n > 0 {
      at := KeptIsFiltered(records, q, n - 1, peer, t);
      at := KeepOrDrop(records, q, n - 1, peer, t, at);
    }
  }

  ghost predicate QueueFiltered(c: Central, r: Central, p: nat, t: Target)
    requires c.Wf() && r.Wf() && p < MAX_PEERS
  {
    exists at :: FilteredAt(c.records, c.queues[p], r.queues[p], p, t, at)
  }

  predicate CanceledOr(a: Record, b: Record, t: Target) {
    b == if a.id != 0 && a.state.Queued? && a.automatic && (t.All? || (t.One? && a.target == t.target))
         then a.(state := Canceled) else a
  }

  /** In order, every queue loses its canceled entries, and their records are canceled. */
  ghost predicate CancelDone(c: Central, r: Central, t: Target)
    requires c.Wf() && r.Wf()
  {
    && r == c.(queues := r.queues, records := r.records)
    && (forall p :: 0 <= p < MAX_PEERS ==> QueueFiltered(c, r, p, t))
    && (forall i :: 0 <= i < COMMAND_HISTORY_SIZE ==> CanceledOr(c.records[i], r.records[i], t))
  }

  lemma {:induction false} CancelKeepsRest(c: Central, n: nat, t: Target)
    requires c.Wf() && n <= c.peers
    ensures var r := CancelPeers(c, n, t); r == c.(queues := r.queues, records := r.records)
  {
    if n > 0 {
      CancelKeepsRest(c, n - 1, t);
    }
  }

  /** Nobody queues for a peer that does not exist. */
  lemma QueuedHasPeer(c: Central, p: nat)
    requires Inv(c) && p < MAX_PEERS && c.queues[p] != []
    ensures p < c.peers
  {
    assert QueueOk(c.records, c.queues[p], p);
    assert HasRecord(c.records, c.queues[p][0], p, Queued);
    var i :| 0 <= i < |c.records| && Matches(c.records[i], c.queues[p][0], p, Queued);
    assert RecordOk(c, c.records[i]);
  }

  lemma CancelFiltersQueue(c: Central, t: Target, p: nat) returns (at: seq<nat>)
    requires Inv(c) && p < MAX_PEERS
    ensures FilteredAt(c.records, c.queues[p], CancelAutomatic(c, t).queues[p], p, t, at)
  {
    var q := c.queues[p];
    CancelPeersQueue(c, c.peers, t, p);
    assert QueueOk(c.records, q, p);
    at := KeptIsFiltered(c.records, q, |q|, p, t);
    assert q[..|q|] == q;
    if q != [] {
      QueuedHasPeer(c, p);
    }
  }

  lemma CancelCancels(c: Central, t: Target)
    requires Inv(c)
    ensures CancelDone(c, CancelAutomatic(c, t), t)
  {
    var r := CancelAutomatic(c, t);
    CancelKeepsRest(c, c.peers, t);
    forall p | 0 <= p < MAX_PEERS
      ensures QueueFiltered(c, r, p, t)
    {
      var at := CancelFiltersQueue(c, t, p);
    }
    forall i | 0 <= i < COMMAND_HISTORY_SIZE
      ensures CanceledOr(c.records[i], r.records[i], t)
    {
      CancelPeersRecord(c, c.peers, t, i);
      assert RecordOk(c, c.records[i]);
    }
  }

  /** Central starts running, with nothing queued, recorded, remembered or being sent. */
  lemma StartsEmpty(routes: seq<nat>, peers: nat)
    requires ValidRoutes(routes, peers)
    ensures var c := RunFrom(routes, peers, []);
            && c.running && c.routes == routes && c.peers == peers && c.slot == 0 && c.lastId == 0
            && (forall p :: 0 <= p < 8 ==> c.queues[p] == [] && c.sending[p].None?)
            && (forall i :: 0 <= i < 64 ==> c.records[i].id == 0)
            && (forall j :: 0 <= j < 6 ==> c.policy[j] == 0)
  {
  }

  // ----- every step -----

  ghost predicate StepDone(c: Central, r: Central, s: Step)
    requires c.Wf() && r.Wf() && ValidStep(s)
  {
    match s
    case EnqueueStep(t, automatic, mode, now, delay, ready) =>
      EnqueueDone(c, r, t, automatic, mode, now + delay * 1_000_000_000, ready)
    case TakeStep(p, now, later, ready) => TakeDone(c, r, p, now, later, ready)
    case CompleteStep(p, outcome) => CompleteDone(c, r, p, outcome)
    case CancelStep(t) => CancelDone(c, r, t)
    case DiscardStep(p) => DiscardDone(c, r, p)
    case ForgetStep(target) => r == c.(policy := c.policy[target := 0])
    case StopStep => r == c.(running := false)
  }

  lemma StepDoes(c: Central, s: Step)
    requires Inv(c) && ValidStep(s)
    ensures StepDone(c, Apply(c, s), s)
  {
    match s
    case EnqueueStep(t, automatic, mode, now, delay, ready) => EnqueueMakes(c, t, automatic, mode, now, delay, ready);
    case TakeStep(p, now, later, ready) => TakeTakes(c, p, now, later, ready);
    case CompleteStep(p, outcome) => CompleteWrites(c, p, outcome);
    case CancelStep(t) => CancelCancels(c, t);
    case _ =>
  }

  /** In every run, every step does exactly that. */
  lemma EveryStepDoes(routes: seq<nat>, peers: nat, steps: seq<Step>, s: Step)
    requires ValidRoutes(routes, peers) && ValidSteps(steps + [s])
    ensures ValidSteps(steps) && ValidStep(s)
    ensures StepDone(RunFrom(routes, peers, steps), RunFrom(routes, peers, steps + [s]), s)
  {
    Shorter(steps, s);
    RunFromInv(routes, peers, steps);
    RunOne(Init(routes, peers), steps, s);
    StepDoes(RunFrom(routes, peers, steps), s);
  }

  // ----- the operator policy -----

  /** An id held as the policy of target j belongs to no other request than an operator's for that target. */
  predicate Names(r: Record, j: nat, id: nat) {
    id != 0 && r.id == id ==> r.target == j && !r.automatic
  }

  predicate PolicyNames(c: Central)
    requires c.Wf()
  {
    forall i, j :: 0 <= i < COMMAND_HISTORY_SIZE && 0 <= j < NUM_INTERSECTIONS ==> Names(c.records[i], j, c.policy[j])
  }

  lemma OneRequestNames(c: Central, r: Central, target: nat, peer: nat, automatic: bool, remembered: bool, notBefore: int)
    requires c.Wf() && r.Wf() && target < 6 && peer < 8 && (remembered ==> !automatic)
    requires OneRequest(c, r, target, peer, automatic, remembered, notBefore) && PolicyNames(c)
    ensures PolicyNames(r)
  {
    forall i, j | 0 <= i < COMMAND_HISTORY_SIZE && 0 <= j < NUM_INTERSECTIONS
      ensures Names(r.records[i], j, r.policy[j])
    {
      assert Names(c.records[i], j, c.policy[j]);
    }
  }

  lemma {:induction false} MadeNames(cs: seq<Central>, t: Target, k: nat, automatic: bool, remembered: bool, notBefore: int)
    requires ValidTarget(t) && k <= Requests(t) < |cs| && (remembered ==> !automatic)
    requires forall j :: 0 <= j < Requests(t) ==> Requested(cs, t, j, automatic, remembered, notBefore)
    requires cs[0].Wf() && cs[Requests(t)].Wf() && PolicyNames(cs[0])
    ensures cs[k].Wf() && PolicyNames(cs[k])
    decreases k
  {
    if k > 0 {
      MadeNames(cs, t, k - 1, automatic, remembered, notBefore);
      assert Requested(cs, t, k - 1, automatic, remembered, notBefore);
      assert k < Requests(t) ==> Requested(cs, t, k, automatic, remembered, notBefore);
      var a := Address(cs[k - 1].routes, t, k - 1);
      OneRequestNames(cs[k - 1], cs[k], a.0, a.1, automatic, remembered, notBefore);
    }
  }

  lemma EnqueueNames(c: Central, r: Central, t: Target, automatic: bool, mode: bool, notBefore: int, ready: bool)
    requires c.Wf() && r.Wf() && ValidTarget(t) && PolicyNames(c)
    requires EnqueueDone(c, r, t, automatic, mode, notBefore, ready)
    ensures PolicyNames(r)
  {
    if r != c {
      var remembered := mode && !automatic && !t.Train?;
      var cs :| Made(c, r, cs, t, automatic, remembered, notBefore);
      MadeNames(cs, t, Requests(t), automatic, remembered, notBefore);
    }
  }

  /** The records are the same but for their states, and no policy is new. */
  lemma SameNames(c: Central, r: Central)
    requires c.Wf() && r.Wf() && PolicyNames(c)
    requires forall i :: 0 <= i < COMMAND_HISTORY_SIZE ==> r.records[i] == c.records[i].(state := r.records[i].state)
    requires forall j :: 0 <= j < NUM_INTERSECTIONS ==> r.policy[j] == c.policy[j] || r.policy[j] == 0
    ensures PolicyNames(r)
  {
    forall i, j | 0 <= i < COMMAND_HISTORY_SIZE && 0 <= j < NUM_INTERSECTIONS
      ensures Names(r.records[i], j, r.policy[j])
    {
      assert Names(c.records[i], j, c.policy[j]);
    }
  }

  lemma OneRestated(c: Central, r: Central, peer: nat, k: nat, i: nat, later: int, ready: bool)
    requires c.Wf() && r.Wf() && PolicyNames(c) && peer < MAX_PEERS && k < |c.queues[peer]| && i < |c.records|
    requires TakenAway(c, r, peer, k, i, later, ready)
    ensures PolicyNames(r)
  {
    SameNames(c, r);
  }

  lemma TakeNames(c: Central, r: Central, peer: nat, now: int, later: int, ready: bool)
    requires c.Wf() && r.Wf() && peer < MAX_PEERS && TakeDone(c, r, peer, now, later, ready) && PolicyNames(c)
    ensures PolicyNames(r)
  {
    if r != c {
      var k: nat, i: nat :| FirstDue(c.queues[peer], now, k) && i < |c.records|
                            && TakenAway(c, r, peer, k, i, later, ready);
      assert FirstDue(c.queues[peer], now, k);
      OneRestated(c, r, peer, k, i, later, ready);
    }
  }

  lemma OtherNames(c: Central, r: Central, s: Step)
    requires c.Wf() && r.Wf() && ValidStep(s) && StepDone(c, r, s) && PolicyNames(c)
    requires !s.EnqueueStep? && !s.TakeStep?
    ensures PolicyNames(r)
  {
    forall i | 0 <= i < COMMAND_HISTORY_SIZE
      ensures r.records[i] == c.records[i].(state := r.records[i].state)
    {
      assert s.CancelStep? ==> CanceledOr(c.records[i], r.records[i], s.t);
    }
    SameNames(c, r);
  }

  lemma NamesStep(c: Central, r: Central, s: Step)
    requires c.Wf() && r.Wf() && ValidStep(s) && StepDone(c, r, s) && PolicyNames(c)
    ensures PolicyNames(r)
  {
    if s.EnqueueStep? {
      EnqueueNames(c, r, s.t, s.automatic, s.mode, s.now + s.delay * 1_000_000_000, s.ready);
    } else if s.TakeStep? {
      TakeNames(c, r, s.peer, s.now, s.later, s.ready);
    } else {
      OtherNames(c, r, s);
    }
  }

  /** In every run the policy of an intersection names an operator's command for it: its id is given to no other
      request while the policy holds it, though records are overwritten and ids wrap around. */
  lemma {:induction false} PolicyNamesItsCommand(routes: seq<nat>, peers: nat, steps: seq<Step>)
    requires ValidRoutes(routes, peers) && ValidSteps(steps)
    ensures PolicyNames(RunFrom(routes, peers, steps))
    decreases |steps|
  {
    if steps != [] {
      var n := |steps| - 1;
      PolicyNamesItsCommand(routes, peers, steps[..n]);
      RunFromInv(routes, peers, steps[..n]);
      var c := RunFrom(routes, peers, steps[..n]);
      StepDoes(c, steps[n]);
      NamesStep(c, Apply(c, steps[n]), steps[n]);
    }
  }
}
