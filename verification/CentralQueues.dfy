/** Central's command queues as the program keeps them: rings and a history array updated in place,
    each method proved equal to its operation in CentralSpec. */
module CentralQueues {
  import opened Options
  import opened CentralSpec
  import CentralSafety
  import CentralRequests

  /** Position of the k-th entry of a ring that starts at `head`. */
  function Slot(head: nat, k: nat): (s: nat)
    requires head < COMMAND_QUEUE_SIZE && k < COMMAND_QUEUE_SIZE
    ensures s < COMMAND_QUEUE_SIZE
  {
    if head + k < COMMAND_QUEUE_SIZE then head + k else head + k - COMMAND_QUEUE_SIZE
  }

  class Commander {
    const queue: array2<Entry>
    const head: array<nat>
    const count: array<nat>
    const commands: array<Record>
    const policy: array<nat>
    const routes: seq<nat>
    const peers: nat
    var next: nat
    var lastId: nat
    var running: bool
    var sending: seq<Option<Entry>>
    var serial: nat
    ghost var handed: multiset<nat>

    /** The rings lie within their arrays. */
    ghost predicate RingsOk()
      reads head, count
    {
      && queue.Length0 == MAX_PEERS && queue.Length1 == COMMAND_QUEUE_SIZE
      && head.Length == MAX_PEERS && count.Length == MAX_PEERS && head != count
      && (forall p :: 0 <= p < MAX_PEERS ==> head[p] < COMMAND_QUEUE_SIZE && count[p] <= COMMAND_QUEUE_SIZE)
    }

    ghost predicate Valid()
      reads this, head, count
    {
      && RingsOk()
      && commands.Length == COMMAND_HISTORY_SIZE && policy.Length == NUM_INTERSECTIONS
      && head != policy && count != policy
      && |routes| == NUM_INTERSECTIONS && |sending| == MAX_PEERS && TRAIN_PEER < peers <= MAX_PEERS
      && next < COMMAND_HISTORY_SIZE && lastId <= MAX_ID
      && (forall i :: 0 <= i < |routes| ==> routes[i] < peers)
    }

    /** All positions of a ring, from its head on. */
    ghost function Ring(p: nat): (r: seq<Entry>)
      requires RingsOk() && p < MAX_PEERS
      reads head, count, queue
      ensures |r| == COMMAND_QUEUE_SIZE
    {
      seq(COMMAND_QUEUE_SIZE, k requires 0 <= k < COMMAND_QUEUE_SIZE && RingsOk() && p < MAX_PEERS
                                reads head, count, queue =>
        queue[p, Slot(head[p], k)])
    }

    /** The queue of a peer, oldest entry first. */
    ghost function Row(p: nat): (q: seq<Entry>)
      requires RingsOk() && p < MAX_PEERS
      reads head, count, queue
    {
      Ring(p)[..count[p]]
    }

    ghost function Rows(): (qs: seq<seq<Entry>>)
      requires RingsOk()
      reads head, count, queue
    {
      seq(MAX_PEERS, p requires 0 <= p < MAX_PEERS && RingsOk() reads head, count, queue => Row(p))
    }

    /** A ring that was not touched. */
    twostate lemma RingSame(p: nat)
      requires old(RingsOk()) && RingsOk() && p < MAX_PEERS && head[p] == old(head[p])
      requires forall s :: 0 <= s < COMMAND_QUEUE_SIZE ==> queue[p, s] == old(queue[p, s])
      ensures Ring(p) == old(Ring(p))
    {
    }

    ghost function Contents(): (c: Central)
      requires Valid()
      reads this, head, count, queue, commands, policy
      ensures c.Wf()
    {
      Central(Rows(), commands[..], next, lastId, policy[..], routes, peers, running, sending, serial, handed)
    }

    constructor (routes: seq<nat>, peers: nat)
      requires ValidRoutes(routes, peers)
      ensures Valid() && Contents() == Init(routes, peers) && Sound(Contents())
      ensures fresh(queue) && fresh(head) && fresh(count) && fresh(commands) && fresh(policy)
    {
      this.routes, this.peers := routes, peers;
      queue := new Entry[MAX_PEERS, COMMAND_QUEUE_SIZE]((_, _) => Entry(0, 0, 0));
      head := new nat[MAX_PEERS](_ => 0);
      count := new nat[MAX_PEERS](_ => 0);
      commands := new Record[COMMAND_HISTORY_SIZE](_ => Record(0, 0, 0, false, Queued, 0));
      policy := new nat[NUM_INTERSECTIONS](_ => 0);
      next, lastId, running, serial := 0, 0, true, 0;
      sending := seq(MAX_PEERS, _ => None);
      handed := multiset{};
      new;
      assert forall p :: 0 <= p < MAX_PEERS ==> Row(p) == [];
      assert Rows() == Init(routes, peers).queues;
      assert commands[..] == Init(routes, peers).records;
      assert policy[..] == Init(routes, peers).policy;
      CentralSafety.InitInv(routes, peers);
    }

    method FindCommand(id: nat) returns (r: nat)
      requires Valid()
      ensures r == Find(commands[..], id, 0)
    {
      r := 0;
      while r < commands.Length
        invariant r <= commands.Length
        invariant Find(commands[..], id, 0) == Find(commands[..], id, r)
      {
        if id != 0 && commands[r].id == id {
          return;
        }
        r := r + 1;
      }
    }

    method Remembered(id: nat) returns (b: bool)
      requires Valid()
      ensures b <==> id in policy[..]
    {
      b := false;
      var i := 0;
      while i < policy.Length
        invariant i <= policy.Length
        invariant b <==> id in policy[..i]
      {
        if policy[i] == id {
          b := true;
        }
        assert policy[..i + 1] == policy[..i] + [policy[i]];
        i := i + 1;
      }
      assert policy[..i] == policy[..];
    }

    method IsReserved(id: nat) returns (b: bool)
      requires Valid()
      ensures b <==> Reserved(commands[..], policy[..], id)
    {
      var found := FindCommand(id);
      var kept := Remembered(id);
      b := found < commands.Length || kept;
    }

    /** Counts up to an id that no record and no policy refers to; zero is skipped. */
    method NextFreeId() returns (id: nat)
      requires Valid()
      modifies this`lastId
      ensures Valid() && id == lastId == NewId(old(Contents()))
    {
      ghost var records, ids, last, tries := commands[..], policy[..], lastId, 0;
      var reserved := true;
      while reserved
        invariant Valid() && commands[..] == records && policy[..] == ids
        invariant tries <= |records| + |ids| + 1
        invariant tries > 0 ==> lastId == NthId(last, tries)
        invariant tries == 0 ==> lastId == last
        invariant forall k :: 1 <= k < tries ==> Reserved(records, ids, NthId(last, k))
        invariant reserved && tries > 0 ==> Reserved(records, ids, lastId)
        invariant !reserved ==> tries > 0 && !Reserved(records, ids, lastId)
        decreases |records| + |ids| + 1 - tries, reserved
      {
        SearchGoesOn(records, ids, last, tries);
        StepId(last, lastId, tries);
        lastId := if lastId == MAX_ID then 1 else lastId + 1;
        tries := tries + 1;
        reserved := IsReserved(lastId);
      }
      SearchEnds(records, ids, last, tries);
      id := lastId;
    }

    method FindReady(peer: nat, now: int) returns (i: nat)
      requires Valid() && peer < MAX_PEERS
      ensures i == FirstReady(Row(peer), now, 0)
    {
      i := 0;
      while i < count[peer]
        invariant i <= count[peer]
        invariant FirstReady(Row(peer), now, 0) == FirstReady(Row(peer), now, i)
      {
        assert Ring(peer)[i] == Row(peer)[i];
        if queue[peer, Slot(head[peer], i)].notBefore <= now {
          return;
        }
        i := i + 1;
      }
    }

    /** Writes one position of a ring. */
    method PutAt(peer: nat, k: nat, e: Entry)
      requires RingsOk() && peer < MAX_PEERS && k < COMMAND_QUEUE_SIZE
      modifies queue
      ensures forall p :: 0 <= p < MAX_PEERS ==>
                Ring(p) == if p == peer then old(Ring(peer))[k := e] else old(Ring(p))
    {
      queue[peer, Slot(head[peer], k)] := e;
      forall p | 0 <= p < MAX_PEERS
        ensures Ring(p) == if p == peer then old(Ring(peer))[k := e] else old(Ring(p))
      {
        if p == peer {
          assert forall j :: 0 <= j < COMMAND_QUEUE_SIZE ==> Ring(p)[j] == old(Ring(peer))[k := e][j];
        } else {
          RingSame(p);
        }
      }
    }

    /** Moves the entries after the i-th up by one. */
    method ShiftUp(peer: nat, i: nat)
      requires RingsOk() && peer < MAX_PEERS && i < count[peer]
      modifies queue
      ensures Ring(peer)[..count[peer] - 1] == old(Ring(peer))[..i] + old(Ring(peer))[i + 1..count[peer]]
      ensures forall p :: 0 <= p < MAX_PEERS && p != peer ==> Ring(p) == old(Ring(p))
    {
      ghost var q := Ring(peer);
      var h, n, j := head[peer], count[peer], i;
      while j + 1 < n
        invariant i <= j < n
        invariant Ring(peer)[..j] == q[..i] + q[i + 1..j + 1] && Ring(peer)[j..] == q[j..]
        invariant forall p :: 0 <= p < MAX_PEERS && p != peer ==> Ring(p) == old(Ring(p))
      {
        var e := queue[peer, Slot(h, j + 1)];
        assert e == Ring(peer)[j + 1] == Ring(peer)[j..][1] == q[j..][1];
        ghost var r := Ring(peer);
        PutAt(peer, j, e);
        ShiftOne(q, r, Ring(peer), i, j);
        j := j + 1;
      }
    }

    /** Takes the i-th entry out of a ring. */
    method RemoveAt(peer: nat, i: nat)
      requires RingsOk() && peer < MAX_PEERS && i < count[peer]
      modifies queue, count
      ensures RingsOk()
      ensures Rows() == old(Rows())[peer := old(Row(peer))[..i] + old(Row(peer))[i + 1..]]
    {
      ShiftUp(peer, i);
      label shifted:
      count[peer] := count[peer] - 1;
      forall p | 0 <= p < MAX_PEERS
        ensures Ring(p) == old@shifted(Ring(p))
      {
        RingSame@shifted(p);
      }
      ghost var q, r := old(Row(peer)), old(Ring(peer));
      assert q[..i] == r[..i] && q[i + 1..] == r[i + 1..old(count[peer])];
      assert Row(peer) == q[..i] + q[i + 1..];
    }

    method TakeOut(peer: nat, i: nat) returns (e: Entry)
      requires Valid() && peer < MAX_PEERS && i < count[peer]
      modifies queue, count
      ensures Valid() && e == old(Row(peer))[i]
      ensures var c := old(Contents());
              Contents() == c.(queues := c.queues[peer := c.queues[peer][..i] + c.queues[peer][i + 1..]])
    {
      e := queue[peer, Slot(head[peer], i)];
      assert e == Ring(peer)[i];
      RemoveAt(peer, i);
    }

    method SetRecord(i: nat, state: State)
      requires i < commands.Length
      modifies commands
      ensures commands[..] == SetState(old(commands[..]), i, state)
    {
      commands[i] := commands[i].(state := state);
    }

    method DispatchEntry(peer: nat, e: Entry, later: int, ready: bool)
      requires Valid() && peer < MAX_PEERS
      modifies this`sending, this`handed, commands
      ensures Valid() && Contents() == Dispatch(old(Contents()), peer, e, later, ready)
    {
      var r := FindCommand(e.id);
      if r < commands.Length && commands[r].state.Queued? && later - e.notBefore >= MAX_WAIT_NS {
        SetRecord(r, Expired);
        return;
      }
      if r == commands.Length || !commands[r].state.Queued? || !ready {
        if r < commands.Length && commands[r].state.Queued? {
          SetRecord(r, Canceled);
        }
        return;
      }
      SetRecord(r, Sending);
      sending := sending[peer := Some(e)];
      handed := handed + multiset{e.serial};
    }

    method TakeCommand(peer: nat, now: int, later: int, ready: bool) returns (work: Option<Entry>)
      requires Valid() && peer < MAX_PEERS && sending[peer].None?
      modifies this`sending, this`handed, queue, count, commands
      ensures Valid() && Contents() == Take(old(Contents()), peer, now, later, ready)
      ensures Sound(old(Contents())) ==> Sound(Contents()) && Done(old(Contents()), Contents(), TakeStep(peer, now, later, ready))
      ensures work == sending[peer]
    {
      StepIsDone(Contents(), TakeStep(peer, now, later, ready));
      var i := FindReady(peer, now);
      if running && i < count[peer] {
        ghost var c := Contents();
        var e := TakeOut(peer, i);
        TakeIsDispatch(c, Contents(), peer, now, later, ready, i);
        DispatchEntry(peer, e, later, ready);
      }
      work := sending[peer];
    }

    method WriteOutcome(peer: nat, outcome: State)
      requires Valid() && peer < MAX_PEERS && sending[peer].Some?
      modifies this`sending, commands
      ensures Valid() && Contents() == Complete(old(Contents()), peer, outcome)
    {
      var r := FindCommand(sending[peer].value.id);
      if r < commands.Length {
        SetRecord(r, outcome);
      }
      sending := sending[peer := None];
    }

    method FinishSend(peer: nat, outcome: State)
      requires Valid() && peer < MAX_PEERS && sending[peer].Some?
      modifies this`sending, commands
      ensures Valid() && Contents() == Complete(old(Contents()), peer, outcome)
      ensures Sound(old(Contents())) && CentralSafety.Outcome(outcome) ==>
                Sound(Contents()) && Done(old(Contents()), Contents(), CompleteStep(peer, outcome))
    {
      ghost var c := Contents();
      WriteOutcome(peer, outcome);
      if CentralSafety.Outcome(outcome) {
        StepIsDone(c, CompleteStep(peer, outcome));
      }
    }

    method DiscardQueue(peer: nat)
      requires Valid() && peer < MAX_PEERS
      modifies head, count, commands
      ensures Valid() && Contents() == Discard(old(Contents()), peer)
      ensures Sound(old(Contents())) ==> Sound(Contents()) && Done(old(Contents()), Contents(), DiscardStep(peer))
    {
      StepIsDone(Contents(), DiscardStep(peer));
      ghost var target := Discard(Contents(), peer).records;
      var i := 0;
      while i < commands.Length
        modifies commands
        invariant i <= commands.Length
        invariant forall k :: 0 <= k < i ==> commands[k] == target[k]
        invariant forall k :: i <= k < commands.Length ==> commands[k] == old(commands[k])
      {
        if commands[i].id != 0 && commands[i].peer == peer && commands[i].state.Queued? {
          commands[i] := commands[i].(state := Canceled);
        }
        i := i + 1;
      }
      assert commands[..] == target;
      head[peer] := 0;
      count[peer] := 0;
      forall p | 0 <= p < MAX_PEERS && p != peer
        ensures Ring(p) == old(Ring(p))
      {
        RingSame(p);
      }
      assert Rows() == old(Rows())[peer := []];
    }

    /** The first record from `next` on that may be overwritten. */
    method FreeRecord() returns (slot: nat)
      requires Valid() && Available(commands[..]) > 0
      ensures slot == NewSlot(Contents())
    {
      ghost var records, n := commands[..], 0;
      slot := next;
      SomeFree(records, |records|);
      while commands[slot].Live()
        invariant slot < commands.Length && n < |records| && slot == Around(next, n, |records|)
        invariant LiveFrom(records, next, n)
        invariant FreeSlot(records, next, 0) == FreeSlot(records, next, n)
        decreases |records| - n
      {
        assert LiveFrom(records, next, n + 1);
        SlotsLeft(records, next, n + 1);
        slot := (slot + 1) % COMMAND_HISTORY_SIZE;
        n := n + 1;
      }
    }

    /** Puts an entry at the end of a ring that has room. */
    method Append(peer: nat, e: Entry)
      requires RingsOk() && peer < MAX_PEERS && count[peer] < COMMAND_QUEUE_SIZE
      modifies queue, count
      ensures RingsOk() && Rows() == old(Rows())[peer := old(Row(peer)) + [e]]
    {
      PutAt(peer, count[peer], e);
      label put:
      count[peer] := count[peer] + 1;
      forall p | 0 <= p < MAX_PEERS
        ensures Ring(p) == old@put(Ring(p))
      {
        RingSame@put(p);
      }
      assert Row(peer) == old(Row(peer)) + [e];
    }

    method FillRecord(slot: nat, r: Record, remembered: bool)
      requires Valid() && slot < COMMAND_HISTORY_SIZE && r.target < NUM_INTERSECTIONS
      modifies commands, policy
      ensures Valid()
      ensures var c := old(Contents());
              Contents() == c.(records := c.records[slot := r],
                               policy := if remembered then c.policy[r.target := r.id] else c.policy)
    {
      commands[slot] := r;
      if remembered {
        policy[r.target] := r.id;
      }
      assert Rows() == old(Rows());
    }

    method AppendEntry(peer: nat, e: Entry)
      requires Valid() && peer < MAX_PEERS && count[peer] < COMMAND_QUEUE_SIZE
      modifies queue, count
      ensures Valid()
      ensures var c := old(Contents()); Contents() == c.(queues := c.queues[peer := c.queues[peer] + [e]])
    {
      Append(peer, e);
    }

    method EnterAt(w: Wish, k: nat, id: nat, slot: nat)
      requires Valid() && w.first + k < NUM_INTERSECTIONS && slot < COMMAND_HISTORY_SIZE && lastId == id
      requires count[PeerOf(routes, w, k)] < COMMAND_QUEUE_SIZE
      modifies this`next, this`serial, queue, count, commands, policy
      ensures Valid() && Contents() == Enter(old(Contents()), w, k, id, slot)
    {
      var peer := if w.train then TRAIN_PEER else routes[w.first + k];
      FillRecord(slot, Record(id, w.first + k, peer, w.automatic, Queued, serial), w.remembered);
      AppendEntry(peer, Entry(id, serial, w.notBefore));
      MoveOn(slot);
    }

    method MoveOn(slot: nat)
      requires Valid() && slot < COMMAND_HISTORY_SIZE
      modifies this`next, this`serial
      ensures Valid() && Contents() == old(Contents()).(slot := (slot + 1) % COMMAND_HISTORY_SIZE, serial := old(serial) + 1)
    {
      next := (slot + 1) % COMMAND_HISTORY_SIZE;
      serial := serial + 1;
    }

    method EnterCommand(w: Wish, k: nat)
      requires Valid() && w.first + k < NUM_INTERSECTIONS && Available(commands[..]) > 0
      requires count[PeerOf(routes, w, k)] < COMMAND_QUEUE_SIZE
      modifies this`next, this`lastId, this`serial, queue, count, commands, policy
      ensures Valid() && Contents() == AddOne(old(Contents()), w, k)
    {
      ghost var c := Contents();
      var slot := FreeRecord();
      var id := NextFreeId();
      assert Contents() == c.(lastId := id);
      EnterAt(w, k, id, slot);
    }

    method CountAvailable() returns (n: nat)
      requires Valid()
      ensures n == Available(commands[..])
    {
      n := 0;
      var i := 0;
      while i < commands.Length
        invariant i <= commands.Length && n == FreeCount(commands[..], i)
      {
        if !commands[i].Live() {
          n := n + 1;
        }
        i := i + 1;
      }
    }

    /** How many of the requests go to a peer. */
    method CountNeeded(w: Wish, n: nat, peer: nat) returns (needed: nat)
      requires Valid() && w.first + n <= NUM_INTERSECTIONS
      ensures needed == Needed(routes, w, n, peer)
    {
      needed := 0;
      var k := 0;
      while k < n
        invariant k <= n && needed == Needed(routes, w, k, peer)
      {
        if (if w.train then TRAIN_PEER else routes[w.first + k]) == peer {
          needed := needed + 1;
        }
        k := k + 1;
      }
    }

    method HasRoom(w: Wish, n: nat) returns (ok: bool)
      requires Valid() && w.first + n <= NUM_INTERSECTIONS
      ensures ok == Fits(Contents(), w, n)
    {
      ghost var c := Contents();
      var available := CountAvailable();
      ok := n <= available;
      var p := 0;
      while p < peers
        invariant p <= peers
        invariant ok <==> n <= available && forall q :: 0 <= q < p ==> RoomAt(c, w, n, q)
      {
        var needed := CountNeeded(w, n, p);
        assert |c.queues[p]| == count[p];
        assert RoomAt(c, w, n, p) <==> count[p] + needed <= COMMAND_QUEUE_SIZE;
        if count[p] + needed > COMMAND_QUEUE_SIZE {
          ok := false;
        }
        p := p + 1;
      }
    }

    method EnterNext(ghost c: Central, w: Wish, n: nat, k: nat)
      requires Valid() && c.Wf() && k < n && w.first + n <= NUM_INTERSECTIONS && Fits(c, w, n)
      requires Contents() == AddAll(c, w, k)
      modifies this`next, this`lastId, this`serial, queue, count, commands, policy
      ensures Valid() && Contents() == AddAll(c, w, k + 1)
    {
      RoomForNext(c, w, n, k);
      assert |Contents().queues[PeerOf(routes, w, k)]| == count[PeerOf(routes, w, k)];
      EnterCommand(w, k);
    }

    /** The requests of a wish, or nothing at all. */
    method EnqueueAll(w: Wish, n: nat, ready: bool) returns (ok: bool)
      requires Valid() && w.first + n <= NUM_INTERSECTIONS
      modifies this`next, this`lastId, this`serial, queue, count, commands, policy
      ensures Valid() && (Contents(), ok) == Enqueue(old(Contents()), w, n, ready)
    {
      ghost var c := Contents();
      ok := HasRoom(w, n);
      ok := ok && running && ready;
      if ok {
        var k := 0;
        while k < n
          invariant Valid() && k <= n && Contents() == AddAll(c, w, k)
        {
          EnterNext(c, w, n, k);
          k := k + 1;
        }
      }
    }

    /** Queues a request for each target, or nothing at all. */
    method EnqueueCommand(t: Target, automatic: bool, mode: bool, now: int, delay: nat, ready: bool) returns (ok: bool)
      requires Valid() && ValidTarget(t)
      modifies this`next, this`lastId, this`serial, queue, count, commands, policy
      ensures Valid()
      ensures (Contents(), ok) == Enqueue(old(Contents()), WishOf(t, automatic, mode, now, delay), Count(t), ready)
      ensures ok <==> running && ready && CentralRequests.HasRoom(old(Contents()), t)
      ensures Sound(old(Contents())) ==>
                Sound(Contents()) && Done(old(Contents()), Contents(), EnqueueStep(t, automatic, mode, now, delay, ready))
    {
      StepIsDone(Contents(), EnqueueStep(t, automatic, mode, now, delay, ready));
      CentralRequests.RoomIsRoom(Contents(), t, WishOf(t, automatic, mode, now, delay));
      var remembered := mode && !automatic && !t.Train?;
      var w := Wish(t.Train?, if t.One? then t.target else 0, automatic, remembered, now + delay * NSEC);
      ok := EnqueueAll(w, if t.All? then NUM_INTERSECTIONS else 1, ready);
    }

    /** Cancels the record of an entry that an operator's command replaces. */
    method Supersede(e: Entry, t: Target) returns (drop: bool)
      requires Valid()
      modifies commands
      ensures drop == Superseded(old(commands[..]), e, t)
      ensures commands[..] == if drop then SetState(old(commands[..]), Find(old(commands[..]), e.id, 0), Canceled)
                              else old(commands[..])
    {
      var r := FindCommand(e.id);
      drop := r < commands.Length && commands[r].automatic && (t.All? || (t.One? && commands[r].target == t.target));
      if drop {
        SetRecord(r, Canceled);
      }
    }

    /** The first i entries of a ring have been looked at, and `kept` of them moved to its front. */
    ghost predicate Compacted(peer: nat, ring: seq<Entry>, records: seq<Record>, n: nat, t: Target, i: nat, kept: nat)
      requires RingsOk() && peer < MAX_PEERS
      reads head, count, queue, commands
    {
      && kept <= i <= n <= |ring| == COMMAND_QUEUE_SIZE
      && Ring(peer)[..kept] == Kept(records, ring[..n], i, t) && Ring(peer)[i..] == ring[i..]
      && commands[..] == CancelEntries(records, ring[..n], i, t)
    }

    method CompactNext(peer: nat, ghost ring: seq<Entry>, ghost records: seq<Record>, ghost n: nat, t: Target, i: nat,
                       kept: nat) returns (drop: bool)
      requires Valid() && peer < MAX_PEERS && i < n && Compacted(peer, ring, records, n, t, i, kept)
      modifies queue, commands
      ensures Compacted(peer, ring, records, n, t, i + 1, if drop then kept else kept + 1)
      ensures forall p :: 0 <= p < MAX_PEERS && p != peer ==> Ring(p) == old(Ring(p))
    {
      var e := queue[peer, Slot(head[peer], i)];
      assert e == Ring(peer)[i..][0] == ring[i..][0];
      SupersededStays(records, ring[..n], i, t);
      drop := Supersede(e, t);
      ghost var r := Ring(peer);
      if !drop {
        PutAt(peer, kept, e);
        assert Ring(peer)[..kept + 1] == r[..kept] + [e];
      }
      assert Ring(peer)[i + 1..] == r[i..][1..];
      assert ring[i + 1..] == ring[i..][1..];
    }

    /** Compacts one ring in place: superseded entries are dropped and their records canceled. */
    method CancelRing(peer: nat, t: Target) returns (kept: nat)
      requires Valid() && peer < MAX_PEERS
      modifies queue, commands
      ensures Compacted(peer, old(Ring(peer)), old(commands[..]), count[peer], t, count[peer], kept)
      ensures forall p :: 0 <= p < MAX_PEERS && p != peer ==> Ring(p) == old(Ring(p))
    {
      ghost var ring, records := Ring(peer), commands[..];
      var n, i := count[peer], 0;
      kept := 0;
      while i < n
        invariant Compacted(peer, ring, records, n, t, i, kept)
        invariant forall p :: 0 <= p < MAX_PEERS && p != peer ==> Ring(p) == old(Ring(p))
      {
        var drop := CompactNext(peer, ring, records, n, t, i, kept);
        if !drop {
          kept := kept + 1;
        }
        i := i + 1;
      }
    }

    method CancelAt(peer: nat, t: Target)
      requires Valid() && peer < MAX_PEERS
      modifies queue, count, commands
      ensures Valid() && Contents() == CancelPeer(old(Contents()), peer, t)
    {
      var kept := CancelRing(peer, t);
      label compacted:
      count[peer] := kept;
      forall p | 0 <= p < MAX_PEERS
        ensures Ring(p) == old@compacted(Ring(p))
      {
        RingSame@compacted(p);
      }
      assert Rows() == CancelPeer(old(Contents()), peer, t).queues;
    }

    method CancelCommands(t: Target)
      requires Valid()
      modifies queue, count, commands
      ensures Valid() && Contents() == CancelAutomatic(old(Contents()), t)
      ensures Sound(old(Contents())) ==> Sound(Contents()) && Done(old(Contents()), Contents(), CancelStep(t))
    {
      StepIsDone(Contents(), CancelStep(t));
      ghost var c := Contents();
      var p := 0;
      while p < peers
        invariant Valid() && p <= peers && Contents() == CancelPeers(c, p, t)
      {
        CancelAt(p, t);
        p := p + 1;
      }
    }
  }

  /** Entries and records correspond, and nothing was handed over twice. */
  ghost predicate Sound(c: Central) {
    CentralSafety.Inv(c)
  }

  /** The step's effect, told from its arguments. */
  ghost predicate Done(c: Central, r: Central, s: Step)
    requires c.Wf() && r.Wf() && ValidStep(s)
  {
    CentralRequests.StepDone(c, r, s)
  }

  lemma StepIsDone(c: Central, s: Step)
    requires c.Wf() && ValidStep(s)
    ensures Sound(c) ==> Sound(Apply(c, s)) && Done(c, Apply(c, s), s)
  {
    if Sound(c) {
      CentralSafety.ApplyInv(c, s);
      CentralRequests.StepDoes(c, s);
    }
  }

  /** One entry further up: ring `r` has moved the entries up to the j-th, `next` also that one. */
  lemma ShiftOne(q: seq<Entry>, r: seq<Entry>, next: seq<Entry>, i: nat, j: nat)
    requires i <= j && j + 1 < |q| == |r|
    requires r[..j] == q[..i] + q[i + 1..j + 1] && r[j..] == q[j..] && next == r[j := q[j + 1]]
    ensures next[..j + 1] == q[..i] + q[i + 1..j + 2] && next[j + 1..] == q[j + 1..]
  {
    assert q[i + 1..j + 2] == q[i + 1..j + 1] + [q[j + 1]];
    assert next[..j + 1] == r[..j] + [q[j + 1]];
    assert next[j + 1..] == r[j..][1..] == q[j..][1..];
  }

  lemma TakeIsDispatch(c: Central, m: Central, peer: nat, now: int, later: int, ready: bool, i: nat)
    requires c.Wf() && peer < MAX_PEERS && c.running && c.sending[peer].None?
    requires i == FirstReady(c.queues[peer], now, 0) < |c.queues[peer]|
    requires m == c.(queues := c.queues[peer := c.queues[peer][..i] + c.queues[peer][i + 1..]])
    ensures m.Wf() && Take(c, peer, now, later, ready) == Dispatch(m, peer, c.queues[peer][i], later, ready)
  {
  }

  /** Canceling other records does not change whether an entry is superseded. */
  lemma SupersededStays(records: seq<Record>, q: seq<Entry>, i: nat, t: Target)
    requires i < |q|
    ensures Superseded(CancelEntries(records, q, i, t), q[i], t) <==> Superseded(records, q[i], t)
  {
    CentralSafety.CancelEntriesSame(records, q, i, t);
    CentralSafety.SupersededSame(records, CancelEntries(records, q, i, t), q[i], t);
  }

  lemma RoomInTrace(cs: seq<Central>, w: Wish, n: nat, k: nat)
    requires CentralSafety.Trace(cs, w, k) && k < n && w.first + n <= NUM_INTERSECTIONS && RoomFor(cs[0], w, n)
    ensures cs[k].Wf() && |cs[k].queues[PeerOf(cs[k].routes, w, k)]| < COMMAND_QUEUE_SIZE
  {
    CentralSafety.RoomForFewer(cs[0], w, n, k + 1);
    CentralSafety.TraceRoom(cs, w, k);
  }

  /** A queue has room for its next request when all of them fit. */
  lemma RoomForNext(c: Central, w: Wish, n: nat, k: nat)
    requires c.Wf() && k < n && w.first + n <= NUM_INTERSECTIONS && Fits(c, w, n)
    ensures var m := AddAll(c, w, k); |m.queues[PeerOf(m.routes, w, k)]| < COMMAND_QUEUE_SIZE
  {
    var cs := CentralSafety.States(c, w, k);
    CentralSafety.AddAllTrace(c, w, k);
    RoomInTrace(cs, w, n, k);
  }

  /** Counting up by one, past zero, gives the next id to try. */
  lemma StepId(last: nat, id: nat, tries: nat)
    requires last <= MAX_ID && id == if tries == 0 then last else NthId(last, tries)
    ensures NthId(last, tries + 1) == if id == MAX_ID then 1 else id + 1
  {
    if tries > 0 {
      assert (last + tries - 1 + 1) % MAX_ID == ((last + tries - 1) % MAX_ID + 1) % MAX_ID;
    }
  }

  /** Ids tried so far are reserved, so there are few of them. */
  lemma SearchGoesOn(records: seq<Record>, ids: seq<nat>, last: nat, tries: nat)
    requires |records| == COMMAND_HISTORY_SIZE && |ids| == NUM_INTERSECTIONS && tries <= |records| + |ids| + 1
    requires forall k :: 1 <= k <= tries ==> Reserved(records, ids, NthId(last, k))
    ensures tries <= |records| + |ids|
  {
    TriesBounded(records, ids, last, tries);
  }

  lemma {:induction false} TriesIs(records: seq<Record>, ids: seq<nat>, last: nat, tries: nat, n: nat)
    requires |records| + |ids| < MAX_ID && 1 <= n <= tries <= |records| + |ids| + 1
    requires forall k :: 1 <= k < tries ==> Reserved(records, ids, NthId(last, k))
    requires !Reserved(records, ids, NthId(last, tries))
    ensures Tries(records, ids, last, n) == tries
    decreases tries - n
  {
    if n < tries {
      TriesIs(records, ids, last, tries, n + 1);
    }
  }

  lemma SearchEnds(records: seq<Record>, ids: seq<nat>, last: nat, tries: nat)
    requires |records| == COMMAND_HISTORY_SIZE && |ids| == NUM_INTERSECTIONS && 1 <= tries <= |records| + |ids| + 1
    requires forall k :: 1 <= k < tries ==> Reserved(records, ids, NthId(last, k))
    requires !Reserved(records, ids, NthId(last, tries))
    ensures NextId(records, ids, last) == NthId(last, tries)
  {
    TriesIs(records, ids, last, tries, 1);
  }
}
