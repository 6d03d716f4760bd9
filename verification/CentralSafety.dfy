/** Queues and history of Central over every run of steps: entries and queued records correspond, and
    no request is handed to the transport twice or after it was given up. */
module CentralSafety {
  import opened Options
  import opened CentralSpec

  predicate Matches(r: Record, e: Entry, peer: nat, state: State) {
    r.id == e.id && r.id != 0 && r.serial == e.serial && r.peer == peer && r.state == state
  }

  predicate HasRecord(records: seq<Record>, e: Entry, peer: nat, state: State) {
    exists i :: 0 <= i < |records| && Matches(records[i], e, peer, state)
  }

  predicate HasEntry(q: seq<Entry>, id: nat) {
    exists k :: 0 <= k < |q| && q[k].id == id
  }

  predicate Apart(a: Record, b: Record) {
    a.id != 0 && b.id != 0 ==> a.id != b.id && a.serial != b.serial
  }

  /** Ids and serial numbers of the history are unique. */
  predicate Unique(records: seq<Record>) {
    forall i, j {:trigger Apart(records[i], records[j])} ::
      0 <= i < |records| && 0 <= j < |records| && i != j ==> Apart(records[i], records[j])
  }

  predicate Differ(a: Entry, b: Entry) {
    a.id != b.id
  }

  /** Every entry of a peer's queue has its own queued record. */
  predicate QueueOk(records: seq<Record>, q: seq<Entry>, peer: nat) {
    && |q| <= COMMAND_QUEUE_SIZE
    && (forall k :: 0 <= k < |q| ==> HasRecord(records, q[k], peer, Queued))
    && (forall j, k {:trigger Differ(q[j], q[k])} :: 0 <= j < |q| && 0 <= k < |q| && j != k ==> Differ(q[j], q[k]))
  }

  /** A queued record has its entry, a sending one its thread; it counts as handed over unless it is
      queued, canceled or expired. */
  predicate RecordOk(c: Central, r: Record)
    requires c.Wf()
  {
    r.id != 0 ==>
      && r.id <= MAX_ID && r.peer < c.peers && r.serial < c.serial
      && (r.state.Queued? ==> HasEntry(c.queues[r.peer], r.id))
      && (r.state.Sending? ==> c.sending[r.peer].Some? && c.sending[r.peer].value.id == r.id)
      && c.handed[r.serial] == if r.state.Queued? || r.state.Canceled? || r.state.Expired? then 0 else 1
  }

  predicate SendingOk(records: seq<Record>, s: Option<Entry>, peer: nat) {
    s.Some? ==> HasRecord(records, s.value, peer, Sending)
  }

  ghost predicate HandedOk(c: Central) {
    forall x: nat :: c.handed[x] <= 1 && (c.handed[x] > 0 ==> x < c.serial)
  }

  ghost predicate Inv(c: Central) {
    && c.Wf() && Unique(c.records) && HandedOk(c)
    && (forall p :: 0 <= p < MAX_PEERS ==> QueueOk(c.records, c.queues[p], p) && SendingOk(c.records, c.sending[p], p))
    && (forall i :: 0 <= i < COMMAND_HISTORY_SIZE ==> RecordOk(c, c.records[i]))
  }

  lemma SameId(records: seq<Record>, i: nat, j: nat)
    requires Unique(records) && i < |records| && j < |records|
    requires records[i].id == records[j].id && records[i].id != 0
    ensures i == j
  {
    var a, b := records[i], records[j];
    assert i == j || Apart(a, b);
  }

  /** The search by id finds the record of an entry. */
  lemma FindRecord(records: seq<Record>, e: Entry, peer: nat, state: State)
    requires Unique(records) && HasRecord(records, e, peer, state)
    ensures var i := Find(records, e.id, 0); i < |records| && Matches(records[i], e, peer, state)
  {
    var i :| 0 <= i < |records| && Matches(records[i], e, peer, state);
    SameId(records, Find(records, e.id, 0), i);
  }

  // ----- one record changes its state -----

  /** Record i of the history gets a new state, and nothing else changes there. */
  predicate Restated(records: seq<Record>, r: seq<Record>, i: nat, state: State) {
    i < |records| && r == records[i := records[i].(state := state)]
  }

  lemma RestatedUnique(records: seq<Record>, r: seq<Record>, i: nat, state: State)
    requires Unique(records) && Restated(records, r, i, state)
    ensures Unique(r)
  {
    forall j, k | 0 <= j < |r| && 0 <= k < |r| && j != k
      ensures Apart(r[j], r[k])
    {
      assert Apart(records[j], records[k]);
    }
  }

  /** Entries of other records keep theirs. */
  lemma RestatedHas(records: seq<Record>, r: seq<Record>, i: nat, state: State, e: Entry, peer: nat, s: State)
    requires Restated(records, r, i, state) && HasRecord(records, e, peer, s)
    requires records[i].id != e.id
    ensures HasRecord(r, e, peer, s)
  {
    var k :| 0 <= k < |records| && Matches(records[k], e, peer, s);
    assert Matches(r[k], e, peer, s);
  }

  lemma RestatedQueue(records: seq<Record>, r: seq<Record>, i: nat, state: State, q: seq<Entry>, peer: nat)
    requires Restated(records, r, i, state) && QueueOk(records, q, peer)
    requires forall k :: 0 <= k < |q| ==> q[k].id != records[i].id
    ensures QueueOk(r, q, peer)
  {
    forall k | 0 <= k < |q|
      ensures HasRecord(r, q[k], peer, Queued)
    {
      RestatedHas(records, r, i, state, q[k], peer, Queued);
    }
  }

  /** Entries of another queue belong to other records. */
  lemma OtherEntries(records: seq<Record>, i: nat, q: seq<Entry>, peer: nat)
    requires Unique(records) && i < |records| && QueueOk(records, q, peer)
    requires records[i].peer != peer || !records[i].state.Queued?
    ensures forall k :: 0 <= k < |q| ==> q[k].id != records[i].id
  {
    forall k | 0 <= k < |q|
      ensures q[k].id != records[i].id
    {
      FindRecord(records, q[k], peer, Queued);
      var a, b := records[Find(records, q[k].id, 0)], records[i];
      assert Find(records, q[k].id, 0) == i || Apart(a, b);
    }
  }

  /** A queue without its k-th entry. */
  function Without(q: seq<Entry>, k: nat): seq<Entry>
    requires k < |q|
  {
    q[..k] + q[k + 1..]
  }

  lemma WithoutOk(records: seq<Record>, q: seq<Entry>, peer: nat, k: nat)
    requires QueueOk(records, q, peer) && k < |q|
    ensures QueueOk(records, Without(q, k), peer)
    ensures forall j :: 0 <= j < |q| - 1 ==> Without(q, k)[j].id != q[k].id
    ensures forall id :: id != q[k].id && HasEntry(q, id) ==> HasEntry(Without(q, k), id)
  {
    var w := Without(q, k);
    forall j | 0 <= j < |w|
      ensures w[j] == q[if j < k then j else j + 1] && w[j].id != q[k].id && HasRecord(records, w[j], peer, Queued)
    {
      assert Differ(q[if j < k then j else j + 1], q[k]);
    }
    forall i, j | 0 <= i < |w| && 0 <= j < |w| && i != j
      ensures Differ(w[i], w[j])
    {
      assert Differ(q[if i < k then i else i + 1], q[if j < k then j else j + 1]);
    }
    forall id | id != q[k].id && HasEntry(q, id)
      ensures HasEntry(w, id)
    {
      var j :| 0 <= j < |q| && q[j].id == id;
      assert w[if j < k then j else j - 1].id == id;
    }
  }

  lemma RestatedSending(records: seq<Record>, r: seq<Record>, i: nat, state: State, s: Option<Entry>, peer: nat)
    requires Unique(records) && Restated(records, r, i, state) && SendingOk(records, s, peer)
    requires records[i].peer != peer || !records[i].state.Sending?
    ensures SendingOk(r, s, peer)
  {
    if s.Some? {
      FindRecord(records, s.value, peer, Sending);
      var a, b := records[Find(records, s.value.id, 0)], records[i];
      assert Find(records, s.value.id, 0) == i || Apart(a, b);
      RestatedHas(records, r, i, state, s.value, peer, Sending);
    }
  }

  /** The k-th entry of a queue leaves it, and its record i stops being queued. */
  predicate Resolved(c: Central, r: Central, peer: nat, k: nat, i: nat, state: State)
    requires c.Wf() && peer < MAX_PEERS
  {
    && k < |c.queues[peer]| && Restated(c.records, r.records, i, state)
    && Matches(c.records[i], c.queues[peer][k], peer, Queued)
    && r == c.(queues := c.queues[peer := Without(c.queues[peer], k)], records := r.records, sending := r.sending,
               handed := r.handed)
    && if state.Sending? then
         && c.sending[peer].None? && r.sending == c.sending[peer := Some(c.queues[peer][k])]
         && r.handed == c.handed + multiset{c.records[i].serial}
       else r.sending == c.sending && r.handed == c.handed && (state.Canceled? || state.Expired?)
  }

  lemma ResolvedQueues(c: Central, r: Central, peer: nat, k: nat, i: nat, state: State, p: nat)
    requires Inv(c) && peer < MAX_PEERS && p < MAX_PEERS && Resolved(c, r, peer, k, i, state)
    ensures QueueOk(r.records, r.queues[p], p)
  {
    assert QueueOk(c.records, c.queues[p], p);
    if p == peer {
      WithoutOk(c.records, c.queues[p], p, k);
    } else {
      OtherEntries(c.records, i, c.queues[p], p);
    }
    RestatedQueue(c.records, r.records, i, state, r.queues[p], p);
  }

  lemma ResolvedSending(c: Central, r: Central, peer: nat, k: nat, i: nat, state: State, p: nat)
    requires Inv(c) && peer < MAX_PEERS && p < MAX_PEERS && Resolved(c, r, peer, k, i, state)
    ensures SendingOk(r.records, r.sending[p], p)
  {
    assert SendingOk(c.records, c.sending[p], p);
    if p == peer && state.Sending? {
      assert Matches(r.records[i], r.sending[p].value, p, Sending);
    } else {
      RestatedSending(c.records, r.records, i, state, c.sending[p], p);
    }
  }

  lemma ResolvedRecord(c: Central, r: Central, peer: nat, k: nat, i: nat, state: State, j: nat)
    requires Inv(c) && peer < MAX_PEERS && j < COMMAND_HISTORY_SIZE && Resolved(c, r, peer, k, i, state)
    ensures RecordOk(r, r.records[j])
  {
    assert RecordOk(c, c.records[j]) && RecordOk(c, c.records[i]);
    var q := c.queues[peer];
    assert QueueOk(c.records, q, peer);
    if j != i && c.records[j].id != 0 {
      assert Apart(c.records[j], c.records[i]);
      WithoutOk(c.records, q, peer, k);
    }
  }

  lemma ResolvedInv(c: Central, r: Central, peer: nat, k: nat, i: nat, state: State)
    requires Inv(c) && peer < MAX_PEERS && Resolved(c, r, peer, k, i, state)
    ensures Inv(r)
  {
    RestatedUnique(c.records, r.records, i, state);
    assert RecordOk(c, c.records[i]);
    forall p | 0 <= p < MAX_PEERS
      ensures QueueOk(r.records, r.queues[p], p) && SendingOk(r.records, r.sending[p], p)
    {
      ResolvedQueues(c, r, peer, k, i, state, p);
      ResolvedSending(c, r, peer, k, i, state, p);
    }
    forall j | 0 <= j < COMMAND_HISTORY_SIZE
      ensures RecordOk(r, r.records[j])
    {
      ResolvedRecord(c, r, peer, k, i, state, j);
    }
  }

  /** What a take does to the queue of its peer: the entry it takes always has its queued record. */
  lemma TakeResolves(c: Central, peer: nat, now: int, later: int, ready: bool)
    requires Inv(c) && peer < MAX_PEERS
    ensures var k := FirstReady(c.queues[peer], now, 0);
            var r := Take(c, peer, now, later, ready);
            if !c.running || c.sending[peer].Some? || k == |c.queues[peer]| then r == c
            else
              var e := c.queues[peer][k];
              Resolved(c, r, peer, k, Find(c.records, e.id, 0),
                       if later - e.notBefore >= MAX_WAIT_NS then Expired else if !ready then Canceled else Sending)
  {
    var k := FirstReady(c.queues[peer], now, 0);
    assert QueueOk(c.records, c.queues[peer], peer);
    if k < |c.queues[peer]| {
      FindRecord(c.records, c.queues[peer][k], peer, Queued);
    }
  }

  lemma TakeInv(c: Central, peer: nat, now: int, later: int, ready: bool)
    requires Inv(c) && peer < MAX_PEERS
    ensures Inv(Take(c, peer, now, later, ready))
  {
    TakeResolves(c, peer, now, later, ready);
    var k := FirstReady(c.queues[peer], now, 0);
    if c.running && c.sending[peer].None? && k < |c.queues[peer]| {
      var e := c.queues[peer][k];
      ResolvedInv(c, Take(c, peer, now, later, ready), peer, k, Find(c.records, e.id, 0),
                  if later - e.notBefore >= MAX_WAIT_NS then Expired else if !ready then Canceled else Sending);
    }
  }

  // ----- the outcome of a send -----

  predicate Outcome(s: State) {
    s.Accepted? || s.Rejected? || s.Unconfirmed?
  }

  lemma CompleteInv(c: Central, peer: nat, outcome: State)
    requires Inv(c) && peer < MAX_PEERS && Outcome(outcome)
    ensures Inv(Complete(c, peer, outcome))
  {
    if c.sending[peer].Some? {
      var r := Complete(c, peer, outcome);
      var e := c.sending[peer].value;
      assert SendingOk(c.records, c.sending[peer], peer);
      FindRecord(c.records, e, peer, Sending);
      var i := Find(c.records, e.id, 0);
      RestatedUnique(c.records, r.records, i, outcome);
      forall p | 0 <= p < MAX_PEERS
        ensures QueueOk(r.records, r.queues[p], p) && SendingOk(r.records, r.sending[p], p)
      {
        assert QueueOk(c.records, c.queues[p], p) && SendingOk(c.records, c.sending[p], p);
        OtherEntries(c.records, i, c.queues[p], p);
        RestatedQueue(c.records, r.records, i, outcome, c.queues[p], p);
        if p != peer {
          RestatedSending(c.records, r.records, i, outcome, c.sending[p], p);
        }
      }
      forall j | 0 <= j < COMMAND_HISTORY_SIZE
        ensures RecordOk(r, r.records[j])
      {
        assert RecordOk(c, c.records[j]) && RecordOk(c, c.records[i]);
        assert j == i || Apart(c.records[j], c.records[i]);
      }
    }
  }

  // ----- enqueue -----

  /** A new request in slot `slot`, under an id that no record uses. */
  predicate Entered(c: Central, r: Central, slot: nat, n: Record, peer: nat, notBefore: int)
    requires c.Wf() && peer < MAX_PEERS
  {
    && slot < COMMAND_HISTORY_SIZE && !c.records[slot].Live()
    && 1 <= n.id <= MAX_ID && !Known(c.records, n.id) && n.state.Queued? && n.serial == c.serial && n.peer == peer
    && r.Wf() && r.peers == c.peers && r.sending == c.sending && r.handed == c.handed && r.serial == c.serial + 1
    && r.records == c.records[slot := n]
    && r.queues == c.queues[peer := c.queues[peer] + [Entry(n.id, c.serial, notBefore)]]
  }

  /** The record of the k-th request, about to be made. */
  function NewRecord(c: Central, w: Wish, k: nat): Record
    requires c.Wf() && w.first + k < NUM_INTERSECTIONS
  {
    Record(NewId(c), w.first + k, PeerOf(c.routes, w, k), w.automatic, Queued, c.serial)
  }

  lemma AddOneEnters(c: Central, w: Wish, k: nat)
    requires c.Wf() && w.first + k < NUM_INTERSECTIONS && Available(c.records) > 0
    ensures Entered(c, AddOne(c, w, k), NewSlot(c), NewRecord(c, w, k), PeerOf(c.routes, w, k), w.notBefore)
    ensures AddOne(c, w, k).running == c.running
    ensures AddOne(c, w, k).policy == if w.remembered then c.policy[w.first + k := NewId(c)] else c.policy
  {
  }

  lemma EnteredHas(c: Central, r: Central, slot: nat, n: Record, peer: nat, notBefore: int, e: Entry, p: nat, s: State)
    requires c.Wf() && peer < MAX_PEERS && Entered(c, r, slot, n, peer, notBefore)
    requires HasRecord(c.records, e, p, s) && (s.Queued? || s.Sending?)
    ensures HasRecord(r.records, e, p, s) && e.id != n.id
  {
    var k :| 0 <= k < |c.records| && Matches(c.records[k], e, p, s);
    assert Matches(r.records[k], e, p, s);
  }

  lemma EnteredQueue(c: Central, r: Central, slot: nat, n: Record, peer: nat, notBefore: int, p: nat)
    requires Inv(c) && peer < MAX_PEERS && Entered(c, r, slot, n, peer, notBefore) && p < MAX_PEERS
    requires |c.queues[peer]| < COMMAND_QUEUE_SIZE
    ensures QueueOk(r.records, r.queues[p], p)
  {
    var q := c.queues[p];
    assert QueueOk(c.records, q, p);
    forall k | 0 <= k < |q|
      ensures HasRecord(r.records, q[k], p, Queued) && q[k].id != n.id
    {
      EnteredHas(c, r, slot, n, peer, notBefore, q[k], p, Queued);
    }
    if p == peer {
      assert Matches(r.records[slot], Entry(n.id, c.serial, notBefore), p, Queued);
    }
    forall j, k | 0 <= j < |r.queues[p]| && 0 <= k < |r.queues[p]| && j != k
      ensures Differ(r.queues[p][j], r.queues[p][k])
    {
      assert j < |q| && k < |q| ==> Differ(q[j], q[k]);
    }
  }

  lemma EnteredRecord(c: Central, r: Central, slot: nat, n: Record, peer: nat, notBefore: int, j: nat)
    requires Inv(c) && peer < c.peers && Entered(c, r, slot, n, peer, notBefore) && j < COMMAND_HISTORY_SIZE
    ensures RecordOk(r, r.records[j])
  {
    var q := c.queues[peer];
    if j == slot {
      assert r.queues[peer][|q|].id == n.id;
      assert c.handed[n.serial] == 0;
    } else {
      assert RecordOk(c, c.records[j]);
      if c.records[j].id != 0 && c.records[j].state.Queued? && c.records[j].peer == peer {
        var k :| 0 <= k < |q| && q[k].id == c.records[j].id;
        assert r.queues[peer][k].id == c.records[j].id;
      }
    }
  }

  lemma EnteredUnique(c: Central, r: Central, slot: nat, n: Record, peer: nat, notBefore: int)
    requires Inv(c) && peer < MAX_PEERS && Entered(c, r, slot, n, peer, notBefore)
    ensures Unique(r.records)
  {
    forall j | 0 <= j < COMMAND_HISTORY_SIZE && j != slot
      ensures Apart(c.records[j], n) && Apart(n, c.records[j])
    {
      assert RecordOk(c, c.records[j]);
    }
    forall j, k | 0 <= j < |r.records| && 0 <= k < |r.records| && j != k
      ensures Apart(r.records[j], r.records[k])
    {
      assert Apart(c.records[j], c.records[k]);
    }
  }

  lemma EnteredInv(c: Central, r: Central, slot: nat, n: Record, peer: nat, notBefore: int)
    requires Inv(c) && peer < c.peers && Entered(c, r, slot, n, peer, notBefore)
    requires |c.queues[peer]| < COMMAND_QUEUE_SIZE
    ensures Inv(r)
  {
    EnteredUnique(c, r, slot, n, peer, notBefore);
    forall p | 0 <= p < MAX_PEERS
      ensures QueueOk(r.records, r.queues[p], p) && SendingOk(r.records, r.sending[p], p)
    {
      EnteredQueue(c, r, slot, n, peer, notBefore, p);
      assert SendingOk(c.records, c.sending[p], p);
      if c.sending[p].Some? {
        EnteredHas(c, r, slot, n, peer, notBefore, c.sending[p].value, p, Sending);
      }
    }
    forall j | 0 <= j < COMMAND_HISTORY_SIZE
      ensures RecordOk(r, r.records[j])
    {
      EnteredRecord(c, r, slot, n, peer, notBefore, j);
    }
  }

  /** Serial numbers and times of a queue, in order. */
  function Tags(q: seq<Entry>): seq<(nat, int)> {
    seq(|q|, k requires 0 <= k < |q| => (q[k].serial, q[k].notBefore))
  }

  /** The tags that the first n requests add to the queue of a peer. */
  function NewTags(c: Central, w: Wish, n: nat, p: nat): (r: seq<(nat, int)>)
    requires c.Wf() && w.first + n <= NUM_INTERSECTIONS
    ensures |r| == Needed(c.routes, w, n, p)
  {
    if n == 0 then []
    else NewTags(c, w, n - 1, p) + if PeerOf(c.routes, w, n - 1) == p then [(c.serial + n - 1, w.notBefore)] else []
  }

  /** Some record of the history belongs to this request. */
  predicate Recorded(records: seq<Record>, serial: nat, target: nat, peer: nat, automatic: bool) {
    exists i :: 0 <= i < |records| && records[i].Live() && records[i].serial == serial && records[i].target == target
                && records[i].peer == peer && records[i].automatic == automatic
  }

  /** The k-th of the new requests is recorded for its target and the peer of that target. */
  predicate KthRecorded(c: Central, records: seq<Record>, w: Wish, k: nat)
    requires c.Wf() && w.first + k < NUM_INTERSECTIONS
  {
    Recorded(records, c.serial + k, w.first + k, PeerOf(c.routes, w, k), w.automatic)
  }

  predicate Appended(c: Central, q: seq<Entry>, w: Wish, n: nat, p: nat)
    requires c.Wf() && w.first + n <= NUM_INTERSECTIONS && p < MAX_PEERS
  {
    c.queues[p] <= q && Tags(q) == Tags(c.queues[p]) + NewTags(c, w, n, p)
  }

  /** A live record of this request has this id. */
  predicate Issued(records: seq<Record>, serial: nat, target: nat, id: nat) {
    exists i :: 0 <= i < |records| && records[i].Live() && records[i].serial == serial && records[i].target == target
                && records[i].id == id
  }

  /** The operator policy of target j after n requests: the id of its request when it is remembered, otherwise
      the id it had. */
  predicate PolicyFollows(c: Central, r: Central, w: Wish, n: nat, j: nat)
    requires c.Wf() && r.Wf() && j < NUM_INTERSECTIONS
  {
    if w.remembered && w.first <= j < w.first + n then Issued(r.records, c.serial + (j - w.first), j, r.policy[j])
    else r.policy[j] == c.policy[j]
  }

  /** The record stays or makes place for a new request. */
  predicate Replaced(a: Record, b: Record, serial: nat) {
    a == b || (!a.Live() && b.Live() && b.state.Queued? && b.serial >= serial)
  }

  /** One request for each target is in the queue of its peer, after what was there and in the order of
      the targets; the policy holds the ids of an operator's, and nothing else has changed. */
  ghost predicate Broadcast(c: Central, r: Central, w: Wish, n: nat)
    requires c.Wf() && w.first + n <= NUM_INTERSECTIONS
  {
    && r.Wf() && r.routes == c.routes && r.peers == c.peers && r.serial == c.serial + n && r.running == c.running
    && (forall p :: 0 <= p < MAX_PEERS ==> Appended(c, r.queues[p], w, n, p))
    && (forall k :: 0 <= k < n ==> KthRecorded(c, r.records, w, k))
    && r.handed == c.handed && r.sending == c.sending
    && (forall i :: 0 <= i < COMMAND_HISTORY_SIZE ==> Replaced(c.records[i], r.records[i], c.serial))
    && (forall j :: 0 <= j < NUM_INTERSECTIONS ==> PolicyFollows(c, r, w, n, j))
  }

  lemma IssuedStays(m: Central, r: Central, slot: nat, n: Record, peer: nat, notBefore: int,
                    serial: nat, target: nat, id: nat)
    requires m.Wf() && peer < MAX_PEERS && Entered(m, r, slot, n, peer, notBefore)
    requires Issued(m.records, serial, target, id)
    ensures Issued(r.records, serial, target, id)
  {
    var i :| 0 <= i < |m.records| && m.records[i].Live() && m.records[i].serial == serial
             && m.records[i].target == target && m.records[i].id == id;
    assert r.records[i] == m.records[i];
  }

  lemma PolicyNext(c: Central, m: Central, r: Central, w: Wish, k: nat, slot: nat, n: Record, j: nat)
    requires c.Wf() && m.Wf() && w.first + k < NUM_INTERSECTIONS && j < NUM_INTERSECTIONS
    requires PolicyFollows(c, m, w, k, j) && m.serial == c.serial + k
    requires n.peer < MAX_PEERS && Entered(m, r, slot, n, n.peer, w.notBefore) && n.target == w.first + k
    requires r.policy == if w.remembered then m.policy[n.target := n.id] else m.policy
    ensures PolicyFollows(c, r, w, k + 1, j)
  {
    if w.remembered && w.first <= j < w.first + k {
      IssuedStays(m, r, slot, n, n.peer, w.notBefore, c.serial + (j - w.first), j, m.policy[j]);
    } else if w.remembered && j == w.first + k {
      assert r.records[slot] == n;
    }
  }

  lemma RecordedStays(c: Central, r: Central, slot: nat, n: Record, peer: nat, notBefore: int,
                      serial: nat, target: nat, p: nat, automatic: bool)
    requires c.Wf() && peer < MAX_PEERS && Entered(c, r, slot, n, peer, notBefore)
    requires Recorded(c.records, serial, target, p, automatic)
    ensures Recorded(r.records, serial, target, p, automatic)
  {
    var i :| 0 <= i < |c.records| && c.records[i].Live() && c.records[i].serial == serial && c.records[i].target == target
             && c.records[i].peer == p && c.records[i].automatic == automatic;
    assert r.records[i] == c.records[i];
  }

  lemma AppendOne(c: Central, q: seq<Entry>, e: Entry, w: Wish, k: nat, p: nat)
    requires c.Wf() && w.first + k < NUM_INTERSECTIONS && p < MAX_PEERS
    requires Appended(c, q, w, k, p) && e.serial == c.serial + k && e.notBefore == w.notBefore
    ensures Appended(c, if p == PeerOf(c.routes, w, k) then q + [e] else q, w, k + 1, p)
  {
    assert Tags(q + [e]) == Tags(q) + [(e.serial, w.notBefore)];
  }

  lemma BroadcastStep(c: Central, m: Central, r: Central, w: Wish, k: nat, slot: nat, n: Record)
    requires c.Wf() && w.first + k < NUM_INTERSECTIONS && Broadcast(c, m, w, k) && r.routes == m.routes
    requires Entered(m, r, slot, n, PeerOf(c.routes, w, k), w.notBefore)
    requires n.target == w.first + k && n.automatic == w.automatic && r.running == m.running
    requires r.policy == if w.remembered then m.policy[n.target := n.id] else m.policy
    ensures Broadcast(c, r, w, k + 1)
  {
    var peer := PeerOf(c.routes, w, k);
    var next := k + 1;
    forall j | 0 <= j < NUM_INTERSECTIONS
      ensures PolicyFollows(c, r, w, next, j)
    {
      assert PolicyFollows(c, m, w, k, j);
      PolicyNext(c, m, r, w, k, slot, n, j);
    }
    forall p | 0 <= p < MAX_PEERS
      ensures Appended(c, r.queues[p], w, k + 1, p)
    {
      assert Appended(c, m.queues[p], w, k, p);
      AppendOne(c, m.queues[p], Entry(n.id, m.serial, w.notBefore), w, k, p);
    }
    forall j | 0 <= j < k + 1
      ensures KthRecorded(c, r.records, w, j)
    {
      if j < k {
        assert KthRecorded(c, m.records, w, j);
        RecordedStays(m, r, slot, n, peer, w.notBefore, c.serial + j, w.first + j, PeerOf(c.routes, w, j), w.automatic);
      } else {
        assert r.records[slot] == n;
      }
    }
    forall i | 0 <= i < COMMAND_HISTORY_SIZE
      ensures Replaced(c.records[i], r.records[i], c.serial)
    {
      assert Replaced(c.records[i], m.records[i], c.serial);
    }
  }

  lemma AddOneBroadcasts(c: Central, m: Central, w: Wish, k: nat)
    requires c.Wf() && m.Wf() && w.first + k < NUM_INTERSECTIONS && Available(m.records) > 0 && Broadcast(c, m, w, k)
    ensures Broadcast(c, AddOne(m, w, k), w, k + 1)
  {
    AddOneEnters(m, w, k);
    BroadcastStep(c, m, AddOne(m, w, k), w, k, NewSlot(m), NewRecord(m, w, k));
  }

  lemma BroadcastNone(c: Central, w: Wish)
    requires c.Wf() && w.first <= NUM_INTERSECTIONS
    ensures Broadcast(c, c, w, 0)
  {
  }

  predicate Follows(m: Central, r: Central, w: Wish, k: nat) {
    m.Wf() && w.first + k < NUM_INTERSECTIONS && Available(m.records) > 0 && r == AddOne(m, w, k)
  }

  predicate FollowsAt(cs: seq<Central>, w: Wish, k: nat)
    requires k + 1 < |cs|
  {
    Follows(cs[k], cs[k + 1], w, k)
  }

  /** The states a broadcast of n requests goes through. */
  predicate Trace(cs: seq<Central>, w: Wish, n: nat) {
    && n < |cs| && w.first + n <= NUM_INTERSECTIONS && cs[0].Wf()
    && forall k :: 0 <= k < n ==> FollowsAt(cs, w, k)
  }

  lemma TraceExtend(cs: seq<Central>, r: Central, w: Wish, n: nat)
    requires |cs| == n + 1 && Trace(cs, w, n) && Follows(cs[n], r, w, n)
    ensures Trace(cs + [r], w, n + 1)
  {
    forall k | 0 <= k < n + 1
      ensures FollowsAt(cs + [r], w, k)
    {
      assert k < n ==> FollowsAt(cs, w, k);
    }
  }

  function States(c: Central, w: Wish, n: nat): (cs: seq<Central>)
    requires c.Wf() && w.first + n <= NUM_INTERSECTIONS && n <= Available(c.records)
    ensures |cs| == n + 1 && cs[0] == c && cs[n] == AddAll(c, w, n)
  {
    if n == 0 then [c] else States(c, w, n - 1) + [AddAll(c, w, n)]
  }

  lemma {:induction false} AddAllTrace(c: Central, w: Wish, n: nat)
    requires c.Wf() && w.first + n <= NUM_INTERSECTIONS && n <= Available(c.records)
    ensures Trace(States(c, w, n), w, n)
    decreases n
  {
    if n > 0 {
      AddAllTrace(c, w, n - 1);
      TraceExtend(States(c, w, n - 1), AddAll(c, w, n), w, n - 1);
    }
  }

  lemma {:induction false} TraceBroadcasts(cs: seq<Central>, w: Wish, n: nat)
    requires Trace(cs, w, n)
    ensures Broadcast(cs[0], cs[n], w, n)
    decreases n
  {
    if n == 0 {
      BroadcastNone(cs[0], w);
    } else {
      TraceBroadcasts(cs, w, n - 1);
      assert FollowsAt(cs, w, n - 1);
      AddOneBroadcasts(cs[0], cs[n - 1], w, n - 1);
    }
  }

  lemma AddAllBroadcasts(c: Central, w: Wish, n: nat)
    requires c.Wf() && w.first + n <= NUM_INTERSECTIONS && n <= Available(c.records)
    ensures Broadcast(c, AddAll(c, w, n), w, n)
  {
    var cs := States(c, w, n);
    AddAllTrace(c, w, n);
    TraceBroadcasts(cs, w, n);
  }

  lemma {:induction false} RoomForFewer(c: Central, w: Wish, n: nat, k: nat)
    requires c.Wf() && k <= n && w.first + n <= NUM_INTERSECTIONS && RoomFor(c, w, n)
    ensures RoomFor(c, w, k)
    decreases n
  {
    if k < n {
      var m := n - 1;
      forall p | 0 <= p < c.peers
        ensures RoomAt(c, w, m, p)
      {
        assert RoomAt(c, w, n, p);
      }
      RoomForFewer(c, w, m, k);
    }
  }

  /** There is room for each request when its turn comes. */
  lemma RoomLeft(c: Central, m: Central, w: Wish, k: nat)
    requires c.Wf() && w.first + k < NUM_INTERSECTIONS && RoomFor(c, w, k + 1) && Broadcast(c, m, w, k)
    ensures |m.queues[PeerOf(m.routes, w, k)]| < COMMAND_QUEUE_SIZE
  {
    var peer := PeerOf(c.routes, w, k);
    assert RoomAt(c, w, k + 1, peer);
    assert Appended(c, m.queues[peer], w, k, peer);
    assert |Tags(m.queues[peer])| == |m.queues[peer]|;
  }

  lemma AddOneInv(c: Central, w: Wish, k: nat)
    requires Inv(c) && w.first + k < NUM_INTERSECTIONS && Available(c.records) > 0
    requires |c.queues[PeerOf(c.routes, w, k)]| < COMMAND_QUEUE_SIZE
    ensures Inv(AddOne(c, w, k))
  {
    AddOneEnters(c, w, k);
    EnteredInv(c, AddOne(c, w, k), NewSlot(c), NewRecord(c, w, k), PeerOf(c.routes, w, k), w.notBefore);
  }

  lemma {:induction false} TraceInv(cs: seq<Central>, w: Wish, n: nat)
    requires Trace(cs, w, n) && Inv(cs[0]) && RoomFor(cs[0], w, n)
    ensures Inv(cs[n])
    decreases n
  {
    if n > 0 {
      RoomForFewer(cs[0], w, n, n - 1);
      TraceInv(cs, w, n - 1);
      assert FollowsAt(cs, w, n - 1);
      TraceRoom(cs, w, n - 1);
      AddOneInv(cs[n - 1], w, n - 1);
    }
  }

  lemma TraceRoom(cs: seq<Central>, w: Wish, k: nat)
    requires Trace(cs, w, k) && w.first + k < NUM_INTERSECTIONS && RoomFor(cs[0], w, k + 1)
    ensures cs[k].Wf() && |cs[k].queues[PeerOf(cs[k].routes, w, k)]| < COMMAND_QUEUE_SIZE
  {
    TraceBroadcasts(cs, w, k);
    RoomLeft(cs[0], cs[k], w, k);
  }

  lemma AddAllInv(c: Central, w: Wish, n: nat)
    requires Inv(c) && w.first + n <= NUM_INTERSECTIONS && n <= Available(c.records) && RoomFor(c, w, n)
    ensures Inv(AddAll(c, w, n))
  {
    var cs := States(c, w, n);
    AddAllTrace(c, w, n);
    TraceInv(cs, w, n);
  }

  lemma EnqueueInv(c: Central, w: Wish, n: nat, ready: bool)
    requires Inv(c) && w.first + n <= NUM_INTERSECTIONS
    ensures Inv(Enqueue(c, w, n, ready).0)
  {
    if c.running && Fits(c, w, n) && ready {
      AddAllInv(c, w, n);
    }
  }

  /** All or nothing: a request is queued for every target, or leaves queues and history as they were. */
  lemma EnqueueAllOrNothing(c: Central, w: Wish, n: nat, ready: bool)
    requires c.Wf() && w.first + n <= NUM_INTERSECTIONS
    ensures var r := Enqueue(c, w, n, ready);
            && r.1 == (c.running && ready && Fits(c, w, n))
            && if r.1 then Broadcast(c, r.0, w, n) else r.0 == c
  {
    if c.running && Fits(c, w, n) && ready {
      AddAllBroadcasts(c, w, n);
    }
  }

  // ----- cancel and discard -----

  lemma {:induction false} FindSame(a: seq<Record>, b: seq<Record>, id: nat, k: nat)
    requires |a| == |b| && k <= |a| && forall i :: 0 <= i < |a| ==> a[i].id == b[i].id
    ensures Find(a, id, k) == Find(b, id, k)
    decreases |a| - k
  {
    if k < |a| {
      FindSame(a, b, id, k + 1);
    }
  }

  /** The state is all that differs. */
  predicate SameButState(a: seq<Record>, b: seq<Record>) {
    |a| == |b| && forall i :: 0 <= i < |a| ==> b[i] == a[i].(state := b[i].state)
  }

  lemma SupersededSame(a: seq<Record>, b: seq<Record>, e: Entry, t: Target)
    requires SameButState(a, b)
    ensures Superseded(a, e, t) <==> Superseded(b, e, t)
  {
    FindSame(a, b, e.id, 0);
  }

  lemma {:induction false} CancelEntriesSame(records: seq<Record>, q: seq<Entry>, n: nat, t: Target)
    requires n <= |q|
    ensures SameButState(records, CancelEntries(records, q, n, t))
    decreases n
  {
    if n > 0 {
      CancelEntriesSame(records, q, n - 1, t);
    }
  }

  /** A cancellation part of the way through one queue. */
  function CancelSome(c: Central, peer: nat, n: nat, t: Target): (r: Central)
    requires c.Wf() && peer < MAX_PEERS && n <= |c.queues[peer]|
    ensures r.Wf()
  {
    var q := c.queues[peer];
    c.(queues := c.queues[peer := Kept(c.records, q, n, t) + q[n..]], records := CancelEntries(c.records, q, n, t))
  }

  /** One entry further: a superseded one leaves the queue and its record is canceled, any other stays. */
  lemma CancelSomeNext(c: Central, peer: nat, n: nat, t: Target)
    requires c.Wf() && peer < MAX_PEERS && 0 < n <= |c.queues[peer]|
    ensures var m, r := CancelSome(c, peer, n - 1, t), CancelSome(c, peer, n, t);
            var e, k := c.queues[peer][n - 1], |Kept(c.records, c.queues[peer], n - 1, t)|;
            && k < |m.queues[peer]| && m.queues[peer][k] == e
            && r == if Superseded(c.records, e, t)
                    then m.(queues := m.queues[peer := Without(m.queues[peer], k)],
                            records := SetState(m.records, Find(m.records, e.id, 0), Canceled))
                    else m
  {
    var q := c.queues[peer];
    var m, r := CancelSome(c, peer, n - 1, t), CancelSome(c, peer, n, t);
    var e, kept := q[n - 1], Kept(c.records, q, n - 1, t);
    CancelEntriesSame(c.records, q, n - 1, t);
    SupersededSame(c.records, m.records, e, t);
    assert q[n - 1..] == [e] + q[n..];
    KeptNext(kept, e, q[n..]);
    if Superseded(c.records, e, t) {
      assert Kept(c.records, q, n, t) == kept;
      assert m.queues[peer := Without(m.queues[peer], |kept|)] == r.queues;
    } else {
      assert Kept(c.records, q, n, t) == kept + [e];
      assert m.queues == r.queues;
    }
  }

  lemma CancelNext(c: Central, peer: nat, n: nat, t: Target)
    requires c.Wf() && peer < MAX_PEERS && 0 < n <= |c.queues[peer]|
    requires Inv(CancelSome(c, peer, n - 1, t))
    ensures Inv(CancelSome(c, peer, n, t))
  {
    CancelSomeNext(c, peer, n, t);
    if Superseded(c.records, c.queues[peer][n - 1], t) {
      CancelsOne(CancelSome(c, peer, n - 1, t), CancelSome(c, peer, n, t), peer,
                 |Kept(c.records, c.queues[peer], n - 1, t)|);
    }
  }

  lemma KeptNext(kept: seq<Entry>, e: Entry, rest: seq<Entry>)
    ensures var q := kept + ([e] + rest);
            q[|kept|] == e && Without(q, |kept|) == kept + rest && q == (kept + [e]) + rest
  {
  }

  lemma CancelsOne(m: Central, r: Central, peer: nat, k: nat)
    requires Inv(m) && peer < MAX_PEERS && k < |m.queues[peer]|
    requires var i := Find(m.records, m.queues[peer][k].id, 0);
             r == m.(queues := m.queues[peer := Without(m.queues[peer], k)], records := SetState(m.records, i, Canceled))
    ensures Inv(r)
  {
    var e := m.queues[peer][k];
    assert QueueOk(m.records, m.queues[peer], peer);
    FindRecord(m.records, e, peer, Queued);
    ResolvedInv(m, r, peer, k, Find(m.records, e.id, 0), Canceled);
  }

  lemma {:induction false} CancelSomeInv(c: Central, peer: nat, n: nat, t: Target)
    requires Inv(c) && peer < MAX_PEERS && n <= |c.queues[peer]|
    ensures Inv(CancelSome(c, peer, n, t))
    decreases n
  {
    if n > 0 {
      CancelSomeInv(c, peer, n - 1, t);
      CancelNext(c, peer, n, t);
    } else {
      var q := c.queues[peer];
      assert Kept(c.records, q, 0, t) + q[0..] == q && c.queues[peer := q] == c.queues;
      assert CancelSome(c, peer, 0, t) == c;
    }
  }

  lemma CancelPeerInv(c: Central, peer: nat, t: Target)
    requires Inv(c) && peer < MAX_PEERS
    ensures Inv(CancelPeer(c, peer, t))
  {
    var q := c.queues[peer];
    CancelSomeInv(c, peer, |q|, t);
    assert Kept(c.records, q, |q|, t) + q[|q|..] == Kept(c.records, q, |q|, t);
    assert CancelSome(c, peer, |q|, t) == CancelPeer(c, peer, t);
  }

  lemma {:induction false} CancelPeersInv(c: Central, n: nat, t: Target)
    requires Inv(c) && n <= c.peers
    ensures Inv(CancelPeers(c, n, t))
    decreases n
  {
    if n > 0 {
      CancelPeersInv(c, n - 1, t);
      CancelPeerInv(CancelPeers(c, n - 1, t), n - 1, t);
    }
  }

  lemma DiscardUnique(c: Central, peer: nat)
    requires c.Wf() && peer < MAX_PEERS && Unique(c.records)
    ensures Unique(Discard(c, peer).records)
  {
    var r := Discard(c, peer).records;
    forall i, j | 0 <= i < |r| && 0 <= j < |r| && i != j
      ensures Apart(r[i], r[j])
    {
      assert Apart(c.records[i], c.records[j]);
    }
  }

  lemma DiscardHas(c: Central, peer: nat, e: Entry, p: nat, s: State)
    requires c.Wf() && peer < MAX_PEERS && HasRecord(c.records, e, p, s) && (p != peer || !s.Queued?)
    ensures HasRecord(Discard(c, peer).records, e, p, s)
  {
    var i :| 0 <= i < |c.records| && Matches(c.records[i], e, p, s);
    assert Matches(Discard(c, peer).records[i], e, p, s);
  }

  lemma DiscardQueue(c: Central, peer: nat, p: nat)
    requires Inv(c) && peer < MAX_PEERS && p < MAX_PEERS
    ensures var r := Discard(c, peer); QueueOk(r.records, r.queues[p], p) && SendingOk(r.records, r.sending[p], p)
  {
    assert QueueOk(c.records, c.queues[p], p) && SendingOk(c.records, c.sending[p], p);
    if p != peer {
      forall k | 0 <= k < |c.queues[p]|
        ensures HasRecord(Discard(c, peer).records, c.queues[p][k], p, Queued)
      {
        DiscardHas(c, peer, c.queues[p][k], p, Queued);
      }
    }
    if c.sending[p].Some? {
      DiscardHas(c, peer, c.sending[p].value, p, Sending);
    }
  }

  lemma DiscardRecord(c: Central, peer: nat, i: nat)
    requires Inv(c) && peer < MAX_PEERS && i < COMMAND_HISTORY_SIZE
    ensures RecordOk(Discard(c, peer), Discard(c, peer).records[i])
  {
    assert RecordOk(c, c.records[i]);
  }

  lemma DiscardInv(c: Central, peer: nat)
    requires Inv(c) && peer < MAX_PEERS
    ensures Inv(Discard(c, peer))
  {
    var r := Discard(c, peer);
    DiscardUnique(c, peer);
    forall p | 0 <= p < MAX_PEERS
      ensures QueueOk(r.records, r.queues[p], p) && SendingOk(r.records, r.sending[p], p)
    {
      DiscardQueue(c, peer, p);
    }
    forall i | 0 <= i < COMMAND_HISTORY_SIZE
      ensures RecordOk(r, r.records[i])
    {
      DiscardRecord(c, peer, i);
    }
    assert forall x: nat :: r.handed[x] == c.handed[x];
  }

  lemma ApplyInv(c: Central, s: Step)
    requires Inv(c) && ValidStep(s)
    ensures Inv(Apply(c, s))
  {
    match s
    case EnqueueStep(t, automatic, mode, now, delay, ready) =>
      EnqueueInv(c, WishOf(t, automatic, mode, now, delay), Count(t), ready);
    case TakeStep(p, now, later, ready) => TakeInv(c, p, now, later, ready);
    case CompleteStep(p, outcome) => CompleteInv(c, p, outcome);
    case CancelStep(t) => CancelPeersInv(c, c.peers, t);
    case DiscardStep(p) => DiscardInv(c, p);
    case _ => ElsewhereInv(c, Apply(c, s));
  }

  lemma ElsewhereInv(c: Central, r: Central)
    requires Inv(c) && r.Wf() && r == c.(policy := r.policy, running := r.running)
    ensures Inv(r)
  {
    forall i | 0 <= i < COMMAND_HISTORY_SIZE
      ensures RecordOk(r, r.records[i])
    {
      assert RecordOk(c, c.records[i]);
    }
    assert forall x: nat :: r.handed[x] == c.handed[x];
  }

  lemma InitInv(routes: seq<nat>, peers: nat)
    requires ValidRoutes(routes, peers)
    ensures Inv(Init(routes, peers))
  {
  }

  lemma {:induction false} RunInv(c: Central, steps: seq<Step>)
    requires Inv(c) && ValidSteps(steps)
    ensures Inv(Run(c, steps))
    decreases |steps|
  {
    if steps != [] {
      var n := |steps| - 1;
      RunInv(c, steps[..n]);
      ApplyInv(Run(c, steps[..n]), steps[n]);
    }
  }

  /** Every run from the start keeps the invariant. */
  lemma RunFromInv(routes: seq<nat>, peers: nat, steps: seq<Step>)
    requires ValidRoutes(routes, peers) && ValidSteps(steps)
    ensures Inv(RunFrom(routes, peers, steps))
  {
    InitInv(routes, peers);
    RunInv(Init(routes, peers), steps);
  }

  lemma {:induction false} RunJoin(c: Central, a: seq<Step>, b: seq<Step>)
    requires c.Wf() && ValidSteps(a) && ValidSteps(b)
    ensures ValidSteps(a + b) && Run(c, a + b) == Run(Run(c, a), b)
    decreases |b|
  {
    if b == [] {
      assert a + b == a;
    } else {
      var n := |b| - 1;
      assert (a + b)[..|a + b| - 1] == a + b[..n];
      RunJoin(c, a, b[..n]);
    }
  }

  lemma RunOne(c: Central, steps: seq<Step>, s: Step)
    requires c.Wf() && ValidSteps(steps) && ValidStep(s)
    ensures ValidSteps(steps + [s]) && Run(c, steps + [s]) == Apply(Run(c, steps), s)
  {
    assert (steps + [s])[..|steps|] == steps;
  }
}
