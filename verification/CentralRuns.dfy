/** What every run of Central's command queues guarantees. */
module CentralRuns {
  import opened Options
  import opened CentralSpec
  import opened CentralSafety

  // ----- states only move forward -----

  predicate Next(a: State, b: State) {
    || a == b
    || (a.Queued? && (b.Sending? || b.Canceled? || b.Expired?))
    || (a.Sending? && Outcome(b))
  }

  /** A record keeps its request and moves forward, or a finished one makes place for a new request. */
  predicate Moves(a: Record, b: Record, serial: nat) {
    || (b == a.(state := b.state) && (a.id != 0 ==> Next(a.state, b.state)))
    || (!a.Live() && b.Live() && b.state.Queued? && b.serial >= serial)
  }

  predicate Advances(c: Central, r: Central) {
    |c.records| == |r.records| && forall i :: 0 <= i < |c.records| ==> Moves(c.records[i], r.records[i], c.serial)
  }

  /** The record stays, or was queued and is canceled. */
  predicate Dropped(a: Record, b: Record) {
    a == b || (a.state.Queued? && b == a.(state := Canceled))
  }

  predicate OnlyCanceled(c: Central, r: Central) {
    && |c.records| == |r.records| && r.handed == c.handed
    && forall i :: 0 <= i < |c.records| ==> Dropped(c.records[i], r.records[i])
  }

  lemma CancelOnly(c: Central, t: Target)
    requires Inv(c)
    ensures OnlyCanceled(c, CancelAutomatic(c, t))
  {
    CancelKeepsLog(c, c.peers, t);
    forall i | 0 <= i < |c.records|
      ensures Dropped(c.records[i], CancelAutomatic(c, t).records[i])
    {
      CancelPeersRecord(c, c.peers, t, i);
    }
  }

  lemma {:induction false} CancelKeepsLog(c: Central, n: nat, t: Target)
    requires c.Wf() && n <= c.peers
    ensures CancelPeers(c, n, t).serial == c.serial && CancelPeers(c, n, t).handed == c.handed
  {
    if n > 0 {
      CancelKeepsLog(c, n - 1, t);
    }
  }

  lemma TakeAdvances(c: Central, peer: nat, now: int, later: int, ready: bool)
    requires Inv(c) && peer < MAX_PEERS
    ensures Advances(c, Take(c, peer, now, later, ready))
  {
    TakeResolves(c, peer, now, later, ready);
  }

  lemma CompleteAdvances(c: Central, peer: nat, outcome: State)
    requires Inv(c) && peer < MAX_PEERS && Outcome(outcome)
    ensures Advances(c, Complete(c, peer, outcome))
  {
    if c.sending[peer].Some? {
      assert SendingOk(c.records, c.sending[peer], peer);
      FindRecord(c.records, c.sending[peer].value, peer, Sending);
    }
  }

  lemma EnqueueAdvances(c: Central, w: Wish, n: nat, ready: bool)
    requires c.Wf() && w.first + n <= NUM_INTERSECTIONS
    ensures var r := Enqueue(c, w, n, ready).0; Advances(c, r) && r.handed == c.handed && c.serial <= r.serial
  {
    EnqueueAllOrNothing(c, w, n, ready);
    var r := Enqueue(c, w, n, ready);
    forall i | 0 <= i < |c.records|
      ensures Moves(c.records[i], r.0.records[i], c.serial)
    {
      assert r.1 ==> Replaced(c.records[i], r.0.records[i], c.serial);
    }
  }

  lemma StepMovesForward(c: Central, s: Step)
    requires Inv(c) && ValidStep(s)
    ensures Advances(c, Apply(c, s))
  {
    match s
    case EnqueueStep(t, automatic, mode, now, delay, ready) =>
      EnqueueAdvances(c, WishOf(t, automatic, mode, now, delay), Count(t), ready);
    case TakeStep(p, now, later, ready) => TakeAdvances(c, p, now, later, ready);
    case CompleteStep(p, outcome) => CompleteAdvances(c, p, outcome);
    case CancelStep(t) => CancelOnly(c, t);
    case _ =>
  }

  /** In every run, every step moves each record of the history forward only. */
  lemma StatesMoveForward(routes: seq<nat>, peers: nat, steps: seq<Step>, s: Step)
    requires ValidRoutes(routes, peers) && ValidSteps(steps + [s])
    ensures ValidSteps(steps) && Advances(RunFrom(routes, peers, steps), RunFrom(routes, peers, steps + [s]))
  {
    Shorter(steps, s);
    RunFromInv(routes, peers, steps);
    RunOne(Init(routes, peers), steps, s);
    StepMovesForward(RunFrom(routes, peers, steps), s);
  }

  lemma Shorter(steps: seq<Step>, s: Step)
    requires ValidSteps(steps + [s])
    ensures ValidSteps(steps) && ValidStep(s)
  {
    assert forall i :: 0 <= i < |steps| ==> (steps + [s])[i] == steps[i];
    assert (steps + [s])[|steps|] == s;
  }

  // ----- at most one send -----

  /** Request x was made, and is not waiting any more. */
  predicate Gone(c: Central, x: nat) {
    x < c.serial && forall i :: 0 <= i < |c.records| ==>
      (c.records[i].id != 0 && c.records[i].serial == x ==> !c.records[i].state.Queued?)
  }

  lemma TakeHands(c: Central, peer: nat, now: int, later: int, ready: bool, x: nat)
    requires Inv(c) && peer < MAX_PEERS && Gone(c, x)
    ensures Take(c, peer, now, later, ready).handed[x] == c.handed[x]
  {
    TakeResolves(c, peer, now, later, ready);
  }

  lemma SerialGrows(c: Central, s: Step)
    requires Inv(c) && ValidStep(s)
    ensures c.serial <= Apply(c, s).serial
  {
    if s.EnqueueStep? {
      EnqueueAdvances(c, WishOf(s.t, s.automatic, s.mode, s.now, s.delay), Count(s.t), s.ready);
    } else if s.CancelStep? {
      CancelKeepsLog(c, c.peers, s.t);
    }
  }

  lemma GoneStep(c: Central, s: Step, x: nat)
    requires Inv(c) && ValidStep(s) && Gone(c, x)
    ensures Gone(Apply(c, s), x) && Apply(c, s).handed[x] == c.handed[x]
  {
    StepMovesForward(c, s);
    SerialGrows(c, s);
    var r := Apply(c, s);
    forall i | 0 <= i < |r.records| && r.records[i].id != 0 && r.records[i].serial == x
      ensures !r.records[i].state.Queued?
    {
      assert Moves(c.records[i], r.records[i], c.serial);
    }
    match s
    case EnqueueStep(t, automatic, mode, now, delay, ready) =>
      EnqueueAdvances(c, WishOf(t, automatic, mode, now, delay), Count(t), ready);
    case TakeStep(p, now, later, ready) => TakeHands(c, p, now, later, ready, x);
    case CancelStep(t) => CancelOnly(c, t);
    case _ =>
  }

  lemma {:induction false} GoneRun(c: Central, steps: seq<Step>, x: nat)
    requires Inv(c) && ValidSteps(steps) && Gone(c, x)
    ensures Gone(Run(c, steps), x) && Run(c, steps).handed[x] == c.handed[x]
    decreases |steps|
  {
    if steps != [] {
      var n := |steps| - 1;
      GoneRun(c, steps[..n], x);
      RunInv(c, steps[..n]);
      GoneStep(Run(c, steps[..n]), steps[n], x);
    }
  }

  /** In every run a request is handed to the transport at most once. */
  lemma HandedAtMostOnce(routes: seq<nat>, peers: nat, steps: seq<Step>, x: nat)
    requires ValidRoutes(routes, peers) && ValidSteps(steps)
    ensures RunFrom(routes, peers, steps).handed[x] <= 1
  {
    RunFromInv(routes, peers, steps);
  }

  lemma NoLongerQueued(c: Central, i: nat, steps: seq<Step>)
    requires Inv(c) && i < COMMAND_HISTORY_SIZE && c.records[i].id != 0 && !c.records[i].state.Queued?
    requires ValidSteps(steps)
    ensures Run(c, steps).handed[c.records[i].serial] ==
            if c.records[i].state.Canceled? || c.records[i].state.Expired? then 0 else 1
  {
    assert RecordOk(c, c.records[i]);
    forall j | 0 <= j < |c.records| && c.records[j].id != 0 && c.records[j].serial == c.records[i].serial
      ensures !c.records[j].state.Queued?
    {
      assert j == i || Apart(c.records[j], c.records[i]);
    }
    GoneRun(c, steps, c.records[i].serial);
  }

  /** A request that expires or is canceled at some point of a run is never handed over, and one that was
      handed over is never handed over again, whatever follows. */
  lemma GivenUpIsNeverSent(routes: seq<nat>, peers: nat, before: seq<Step>, i: nat, after: seq<Step>)
    requires ValidRoutes(routes, peers) && ValidSteps(before) && ValidSteps(after) && i < COMMAND_HISTORY_SIZE
    ensures ValidSteps(before + after)
    ensures var r := RunFrom(routes, peers, before).records[i];
            r.id != 0 && !r.state.Queued? ==>
              RunFrom(routes, peers, before + after).handed[r.serial] == if r.state.Canceled? || r.state.Expired? then 0 else 1
  {
    RunFromInv(routes, peers, before);
    RunJoin(Init(routes, peers), before, after);
    var c := RunFrom(routes, peers, before);
    if c.records[i].id != 0 && !c.records[i].state.Queued? {
      NoLongerQueued(c, i, after);
    }
  }

  lemma CompleteOnItsRecord(c: Central, peer: nat, outcome: State)
    requires Inv(c) && peer < MAX_PEERS && Outcome(outcome) && c.sending[peer].Some?
    ensures OnItsRecord(c, peer, outcome, Complete(c, peer, outcome))
  {
    var e := c.sending[peer].value;
    assert SendingOk(c.records, c.sending[peer], peer);
    FindRecord(c.records, e, peer, Sending);
    assert Matches(c.records[Find(c.records, e.id, 0)], e, peer, Sending);
  }

  /** Exactly the record of the request in the hands of the peer's thread has the outcome. */
  predicate OnItsRecord(c: Central, peer: nat, outcome: State, r: Central)
    requires c.Wf() && peer < MAX_PEERS && c.sending[peer].Some?
  {
    exists i :: 0 <= i < COMMAND_HISTORY_SIZE && Matches(c.records[i], c.sending[peer].value, peer, Sending)
                && r.records == c.records[i := c.records[i].(state := outcome)]
  }

  /** In every run the outcome of a send lands on the record of the very request that was sent. */
  lemma OutcomeLandsOnItsRecord(routes: seq<nat>, peers: nat, steps: seq<Step>, peer: nat, outcome: State)
    requires ValidRoutes(routes, peers) && ValidSteps(steps) && peer < MAX_PEERS && Outcome(outcome)
    ensures ValidSteps(steps + [CompleteStep(peer, outcome)])
    ensures var c := RunFrom(routes, peers, steps);
            c.sending[peer].Some? ==>
              OnItsRecord(c, peer, outcome, RunFrom(routes, peers, steps + [CompleteStep(peer, outcome)]))
  {
    RunFromInv(routes, peers, steps);
    RunOne(Init(routes, peers), steps, CompleteStep(peer, outcome));
    var c := RunFrom(routes, peers, steps);
    if c.sending[peer].Some? {
      CompleteOnItsRecord(c, peer, outcome);
    }
  }

  // ----- entries and queued records -----

  /** Position k of a peer's queue holds the entry of record i. */
  predicate Pair(c: Central, p: nat, k: nat, i: nat)
    requires c.Wf() && p < MAX_PEERS
  {
    k < |c.queues[p]| && i < |c.records| && Matches(c.records[i], c.queues[p][k], p, Queued)
  }

  predicate HasPair(c: Central, p: nat, k: nat)
    requires c.Wf() && p < MAX_PEERS
  {
    exists i :: 0 <= i < |c.records| && Pair(c, p, k, i)
  }

  predicate QueuedHasEntry(c: Central, r: Record)
    requires c.Wf()
  {
    r.id != 0 && r.state.Queued? ==> r.peer < MAX_PEERS && HasEntry(c.queues[r.peer], r.id)
  }

  /** In every run queue entries and queued records correspond on the same peer: every entry has its record,
      every queued record its entry, and both only one. */
  lemma EntriesMatchRecords(routes: seq<nat>, peers: nat, steps: seq<Step>)
    requires ValidRoutes(routes, peers) && ValidSteps(steps)
    ensures var r := RunFrom(routes, peers, steps);
            && (forall p, k :: 0 <= p < MAX_PEERS && 0 <= k < |r.queues[p]| ==> HasPair(r, p, k))
            && (forall i :: 0 <= i < COMMAND_HISTORY_SIZE ==> QueuedHasEntry(r, r.records[i]))
            && (forall p: nat, k: nat, i: nat, q: nat, l: nat, j: nat {:trigger Pair(r, p, k, i), Pair(r, q, l, j)} ::
                  p < MAX_PEERS && q < MAX_PEERS && Pair(r, p, k, i) && Pair(r, q, l, j) ==>
                    (i == j <==> p == q && k == l))
  {
    RunFromInv(routes, peers, steps);
    var r := RunFrom(routes, peers, steps);
    forall p, k | 0 <= p < MAX_PEERS && 0 <= k < |r.queues[p]|
      ensures HasPair(r, p, k)
    {
      PairExists(r, p, k);
    }
    forall i | 0 <= i < COMMAND_HISTORY_SIZE
      ensures QueuedHasEntry(r, r.records[i])
    {
      assert RecordOk(r, r.records[i]);
    }
    forall p: nat, k: nat, i: nat, q: nat, l: nat, j: nat |
        p < MAX_PEERS && q < MAX_PEERS && Pair(r, p, k, i) && Pair(r, q, l, j)
      ensures i == j <==> p == q && k == l
    {
      PairUnique(r, p, k, i, q, l, j);
    }
  }

  lemma PairExists(c: Central, p: nat, k: nat)
    requires Inv(c) && p < MAX_PEERS && k < |c.queues[p]|
    ensures HasPair(c, p, k)
  {
    assert QueueOk(c.records, c.queues[p], p);
    assert HasRecord(c.records, c.queues[p][k], p, Queued);
    var i :| 0 <= i < |c.records| && Matches(c.records[i], c.queues[p][k], p, Queued);
    assert Pair(c, p, k, i);
  }

  /** One record for each entry, and one entry for each record. */
  lemma PairUnique(c: Central, p: nat, k: nat, i: nat, q: nat, l: nat, j: nat)
    requires Inv(c) && p < MAX_PEERS && q < MAX_PEERS && Pair(c, p, k, i) && Pair(c, q, l, j)
    ensures i == j <==> p == q && k == l
  {
    assert QueueOk(c.records, c.queues[p], p);
    var queue := c.queues[p];
    if p == q {
      assert k == l || Differ(queue[k], queue[l]);
      assert i == j || Apart(c.records[i], c.records[j]);
    }
  }

  // ----- cancelling -----

  predicate Hits(r: Record, t: Target) {
    r.automatic && (t.All? || (t.One? && r.target == t.target))
  }

  /** The queue holds an entry of record i among its first n. */
  predicate Listed(q: seq<Entry>, n: nat, id: nat)
    requires n <= |q|
  {
    exists k :: 0 <= k < n && q[k].id == id
  }

  lemma ListedNext(q: seq<Entry>, n: nat, id: nat)
    requires 0 < n <= |q|
    ensures Listed(q, n, id) <==> q[n - 1].id == id || Listed(q, n - 1, id)
  {
  }

  lemma {:induction false} CancelEntriesAt(records: seq<Record>, q: seq<Entry>, n: nat, t: Target, i: nat)
    requires Unique(records) && n <= |q| && i < |records|
    requires forall k :: 0 <= k < n ==> q[k].id != 0
    ensures CancelEntries(records, q, n, t)[i] ==
            if Listed(q, n, records[i].id) && Hits(records[i], t) then records[i].(state := Canceled) else records[i]
    decreases n
  {
    if n > 0 {
      CancelEntriesAt(records, q, n - 1, t, i);
      CancelEntriesSame(records, q, n - 1, t);
      ListedNext(q, n, records[i].id);
      CancelOneAt(records, CancelEntries(records, q, n - 1, t), q[n - 1], t, i);
    }
  }

  /** One entry cancels its own record and no other. */
  lemma CancelOneAt(records: seq<Record>, m: seq<Record>, e: Entry, t: Target, i: nat)
    requires Unique(records) && SameButState(records, m) && i < |records| && e.id != 0
    ensures (if Superseded(m, e, t) then SetState(m, Find(m, e.id, 0), Canceled) else m)[i] ==
            if records[i].id == e.id && Hits(records[i], t) then records[i].(state := Canceled) else m[i]
  {
    SupersededSame(records, m, e, t);
    FindSame(records, m, e.id, 0);
    if records[i].id == e.id {
      FindUnique(records, i);
    }
  }

  lemma FindUnique(records: seq<Record>, i: nat)
    requires Unique(records) && i < |records| && records[i].id != 0
    ensures Find(records, records[i].id, 0) == i
  {
    SameId(records, Find(records, records[i].id, 0), i);
  }

  /** Cancelling at one peer is an order-preserving filter of its queue, and cancels exactly the queued
      automatic records of that peer for the target. */
  lemma CancelPeerIs(c: Central, peer: nat, t: Target, i: nat)
    requires Inv(c) && peer < MAX_PEERS && i < COMMAND_HISTORY_SIZE
    ensures var a := c.records[i];
            CancelPeer(c, peer, t).records[i] ==
            if a.id != 0 && a.peer == peer && a.state.Queued? && Hits(a, t) then a.(state := Canceled) else a
  {
    var q, a := c.queues[peer], c.records[i];
    assert QueueOk(c.records, q, peer) && RecordOk(c, a);
    forall k | 0 <= k < |q|
      ensures q[k].id != 0 && (q[k].id == a.id ==> a.peer == peer && a.state.Queued?)
    {
      FindRecord(c.records, q[k], peer, Queued);
      var b := c.records[Find(c.records, q[k].id, 0)];
      assert Find(c.records, q[k].id, 0) == i || Apart(b, a);
    }
    CancelEntriesAt(c.records, q, |q|, t, i);
    if a.id != 0 && a.peer == peer && a.state.Queued? {
      assert HasEntry(q, a.id);
    }
  }

  lemma {:induction false} KeptSame(a: seq<Record>, b: seq<Record>, q: seq<Entry>, n: nat, t: Target)
    requires SameButState(a, b) && n <= |q|
    ensures Kept(a, q, n, t) == Kept(b, q, n, t)
    decreases n
  {
    if n > 0 {
      KeptSame(a, b, q, n - 1, t);
      SupersededSame(a, b, q[n - 1], t);
    }
  }

  /** A record after its request was canceled at the first n peers, if it was one of those. */
  function AfterCancel(a: Record, n: nat, t: Target): Record {
    if a.id != 0 && a.peer < n && a.state.Queued? && Hits(a, t) then a.(state := Canceled) else a
  }

  /** What cancelling at the first n peers leaves. */
  ghost predicate CanceledUpTo(c: Central, r: Central, n: nat, t: Target)
    requires c.Wf() && r.Wf() && n <= c.peers
  {
    && (forall p :: 0 <= p < MAX_PEERS ==>
          r.queues[p] == if p < n then Kept(c.records, c.queues[p], |c.queues[p]|, t) else c.queues[p])
    && (forall i :: 0 <= i < COMMAND_HISTORY_SIZE ==> r.records[i] == AfterCancel(c.records[i], n, t))
  }

  lemma {:induction false} CancelPeersSame(c: Central, n: nat, t: Target)
    requires c.Wf() && n <= c.peers
    ensures SameButState(c.records, CancelPeers(c, n, t).records)
    decreases n
  {
    if n > 0 {
      CancelPeersSame(c, n - 1, t);
      var m := CancelPeers(c, n - 1, t);
      CancelEntriesSame(m.records, m.queues[n - 1], |m.queues[n - 1]|, t);
    }
  }

  lemma CancelPeersKept(c: Central, m: Central, n: nat, t: Target, p: nat)
    requires c.Wf() && m.Wf() && 0 < n <= c.peers && p < MAX_PEERS && SameButState(c.records, m.records)
    requires m.queues[p] == if p < n - 1 then Kept(c.records, c.queues[p], |c.queues[p]|, t) else c.queues[p]
    ensures CancelPeer(m, n - 1, t).queues[p] ==
            if p < n then Kept(c.records, c.queues[p], |c.queues[p]|, t) else c.queues[p]
  {
    KeptSame(c.records, m.records, c.queues[p], |c.queues[p]|, t);
  }

  lemma {:induction false} CancelPeersQueue(c: Central, n: nat, t: Target, p: nat)
    requires c.Wf() && n <= c.peers && p < MAX_PEERS
    ensures CancelPeers(c, n, t).queues[p] ==
            if p < n then Kept(c.records, c.queues[p], |c.queues[p]|, t) else c.queues[p]
    decreases n
  {
    if n > 0 {
      CancelPeersQueue(c, n - 1, t, p);
      CancelPeersSame(c, n - 1, t);
      CancelPeersKept(c, CancelPeers(c, n - 1, t), n, t, p);
      assert CancelPeers(c, n, t) == CancelPeer(CancelPeers(c, n - 1, t), n - 1, t);
    }
  }

  lemma CancelPeersNext(c: Central, m: Central, n: nat, t: Target, i: nat)
    requires c.Wf() && Inv(m) && 0 < n <= c.peers && i < COMMAND_HISTORY_SIZE
    requires m.records[i] == AfterCancel(c.records[i], n - 1, t)
    ensures CancelPeer(m, n - 1, t).records[i] == AfterCancel(c.records[i], n, t)
  {
    CancelPeerIs(m, n - 1, t, i);
  }

  lemma {:induction false} CancelPeersRecord(c: Central, n: nat, t: Target, i: nat)
    requires Inv(c) && n <= c.peers && i < COMMAND_HISTORY_SIZE
    ensures CancelPeers(c, n, t).records[i] == AfterCancel(c.records[i], n, t)
    decreases n
  {
    if n > 0 {
      CancelPeersRecord(c, n - 1, t, i);
      CancelPeersInv(c, n - 1, t);
      CancelPeersNext(c, CancelPeers(c, n - 1, t), n, t, i);
      assert CancelPeers(c, n, t) == CancelPeer(CancelPeers(c, n - 1, t), n - 1, t);
    }
  }

  lemma CancelIsFilter(c: Central, t: Target)
    requires Inv(c)
    ensures CanceledUpTo(c, CancelAutomatic(c, t), c.peers, t)
  {
    forall p | 0 <= p < MAX_PEERS
      ensures CancelAutomatic(c, t).queues[p] ==
              if p < c.peers then Kept(c.records, c.queues[p], |c.queues[p]|, t) else c.queues[p]
    {
      CancelPeersQueue(c, c.peers, t, p);
    }
    forall i | 0 <= i < COMMAND_HISTORY_SIZE
      ensures CancelAutomatic(c, t).records[i] == AfterCancel(c.records[i], c.peers, t)
    {
      CancelPeersRecord(c, c.peers, t, i);
    }
  }

  /** In every run, cancelling automatic commands filters every queue in order, and cancels exactly the queued
      automatic records for the target. */
  lemma CancelFilters(routes: seq<nat>, peers: nat, steps: seq<Step>, t: Target)
    requires ValidRoutes(routes, peers) && ValidSteps(steps)
    ensures ValidSteps(steps + [CancelStep(t)])
    ensures var c := RunFrom(routes, peers, steps);
            CanceledUpTo(c, RunFrom(routes, peers, steps + [CancelStep(t)]), c.peers, t)
  {
    RunFromInv(routes, peers, steps);
    RunOne(Init(routes, peers), steps, CancelStep(t));
    CancelIsFilter(RunFrom(routes, peers, steps), t);
  }
}
