/** Every interleaving of callers, worker and close requests: no request is replayed, no outcome is
    mixed up, and no connection leaks. */
module LinkSafety {
  import opened LinkSpec

  /** The worker has taken a job it has not reported yet. */
  predicate AtWork(p: Place) {
    p.Working? || p.Finishing? || p.Discarding? || p.Reporting?
  }

  function TicketOf(p: Place): nat
    requires AtWork(p)
  {
    p.ticket
  }

  /** The life of a job: idle, queued, at work, done or abandoned; the caller waits until it leaves. */
  predicate TurnOk(s: Shared, p: Place, waiting: set<nat>) {
    && (!s.busy ==> s.job.NoJob? && !s.done && !s.abandoned && !AtWork(p) && waiting == {})
    && (s.busy && !s.abandoned ==> waiting == {s.request})
    && (s.busy && s.abandoned ==> waiting == {} && !s.done && AtWork(p))
    && (!s.job.NoJob? ==> s.busy && !s.done && !s.abandoned && !AtWork(p))
    && (s.done ==> s.busy && !AtWork(p) && s.resultOf == s.request)
    && (AtWork(p) ==> s.busy && s.job.NoJob? && !s.done && TicketOf(p) == s.request)
    && (s.busy && s.job.NoJob? && !s.done ==> AtWork(p))
  }

  /** The connection in use, and what the worker may hold beside it. */
  predicate ConnOk(s: Shared, p: Place) {
    && s.coid >= NO_CONNECTION && InHand(p) >= NO_CONNECTION
    && (s.connected ==> s.coid != NO_CONNECTION && !s.closeRequested && !s.stopping)
    && (s.coid != NO_CONNECTION ==> s.connected || s.closeRequested || s.stopping)
    && (s.closeRequested ==> s.job.NoJob?)
    && (s.job.Connect? ==> s.coid == NO_CONNECTION)
    && (s.job.Send? ==> s.connected || s.stopping)
    && (!s.job.NoJob? && !s.stopping ==> s.jobGeneration == s.generation)
    && (p.Closing? ==> s.coid == NO_CONNECTION)
    && (p.Discarding? ==> s.coid == NO_CONNECTION)
    && (p.Check? ==> s.coid == NO_CONNECTION)
    && (p.Working? ==> !p.job.NoJob? && if p.job.Connect? then s.coid == NO_CONNECTION else p.conn == s.coid && s.coid >= 0)
    && (p.Finishing? && p.job.Connect? ==> s.coid == NO_CONNECTION)
    && (p.Finishing? && !p.job.Connect? ==> p.found == NO_CONNECTION)
    && (p.Finishing? || p.Working? ==> (s.stopping || s.closeRequested || p.generation == s.generation))
    && (p.Exited? ==> s.stopping && s.coid == NO_CONNECTION)
  }

  /** The connection in the worker's hand: opened and not yet installed, or about to be closed. */
  function InHand(p: Place): int {
    match p
    case Closing(conn) => conn
    case Finishing(_, _, _, found, _) => found
    case Discarding(_, found) => found
    case _ => NO_CONNECTION
  }

  function Owners(coid: int, hand: int, log: Log, c: int): nat {
    log.closed[c] + (if coid == c then 1 else 0) + (if hand == c then 1 else 0)
  }

  /** Each connection opened so far is the current one, in the worker's hand, or closed, exactly once. */
  ghost predicate NoLeak(coid: int, hand: int, log: Log) {
    forall c: nat :: Owners(coid, hand, log, c) == if c < log.opens then 1 else 0
  }

  /** A verdict about ticket t that the log bears out. */
  predicate Own(log: Log, t: nat, v: Verdict) {
    && (v.Accepted? || v.Rejected? || v.Protocol? ==> t in log.replies && log.replies[t] == v)
    && (v.Connected? ==> t in log.installed)
  }

  /** Jobs reach the kernel at most once, and not after they were withdrawn. */
  ghost predicate OnceOk(log: Log, next: nat) {
    forall t: nat {:trigger log.called[t]} ::
      && log.called[t] <= 1
      && (log.called[t] > 0 ==> t < next && t !in log.withdrawn)
  }

  predicate ReturnedOk(log: Log, next: nat) {
    && (forall t <- log.withdrawn :: t < next)
    && (forall t <- log.returned :: t < next && (log.returned[t].Told? ==>
          log.returned[t].of == t && Own(log, t, log.returned[t].verdict)))
  }

  /** The job in hand has not reached the kernel before, and the outcomes at hand are its own. */
  predicate JobOk(s: Shared, p: Place, log: Log, next: nat) {
    && (s.busy ==> s.request < next)
    && (s.busy && s.request in log.returned ==> s.abandoned && log.returned[s.request].TimedOut?)
    && (!s.job.NoJob? || p.Working? ==> s.request < next && log.called[s.request] == 0 && s.request !in log.withdrawn)
    && (p.Finishing? && !p.job.Connect? ==> Own(log, p.ticket, p.verdict) && !p.verdict.Connected?)
    && (p.Reporting? ==> Own(log, p.ticket, p.verdict))
    && (s.done ==> Own(log, s.request, s.result))
  }

  ghost predicate Inv(k: Link) {
    && TurnOk(k.s, k.worker, k.waiting) && ConnOk(k.s, k.worker) && NoLeak(k.s.coid, InHand(k.worker), k.log)
    && OnceOk(k.log, k.next) && ReturnedOk(k.log, k.next) && JobOk(k.s, k.worker, k.log, k.next)
  }

  lemma SameOwners(coid: int, hand: int, log: Log, coid': int, hand': int, log': Log)
    requires NoLeak(coid, hand, log) && log'.opens == log.opens
    requires forall c: nat :: Owners(coid', hand', log', c) == Owners(coid, hand, log, c)
    ensures NoLeak(coid', hand', log')
  {
  }

  lemma RequestInv(k: Link, job: Job)
    requires Inv(k)
    ensures Inv(Request(k, job))
  {
    var r := Request(k, job);
    SameOwners(k.s.coid, InHand(k.worker), k.log, r.s.coid, InHand(r.worker), r.log);
  }

  lemma TimeOutInv(k: Link, t: nat)
    requires Inv(k)
    ensures Inv(TimeOut(k, t))
  {
    var r := TimeOut(k, t);
    SameOwners(k.s.coid, InHand(k.worker), k.log, r.s.coid, InHand(r.worker), r.log);
  }

  lemma TakeInv(k: Link, t: nat)
    requires Inv(k)
    ensures Inv(Take(k, t))
  {
    var r := Take(k, t);
    SameOwners(k.s.coid, InHand(k.worker), k.log, r.s.coid, InHand(r.worker), r.log);
  }

  lemma CloseInv(k: Link)
    requires Inv(k)
    ensures Inv(Close(k)) && Inv(Stop(k))
  {
    SameOwners(k.s.coid, InHand(k.worker), k.log, k.s.coid, InHand(Close(k).worker), Close(k).log);
  }

  lemma ProceedInv(k: Link)
    requires Inv(k) && (k.worker.Loop? || k.worker.Check?)
    requires k.s.stopping || k.worker.Check? ==> k.s.coid == NO_CONNECTION
    ensures Inv(Proceed(k))
  {
    var r := Proceed(k);
    SameOwners(k.s.coid, InHand(k.worker), k.log, r.s.coid, InHand(r.worker), r.log);
  }

  lemma LoopTopInv(k: Link)
    requires Inv(k) && k.worker.Loop?
    ensures Inv(LoopTop(k))
  {
    var r := LoopTop(k);
    SameOwners(k.s.coid, InHand(k.worker), k.log, r.s.coid, InHand(r.worker), r.log);
  }

  lemma CallKernelInv(k: Link, answer: Kernel)
    requires Inv(k) && k.worker.Working?
    ensures Inv(CallKernel(k, answer))
  {
    var r := CallKernel(k, answer);
    forall c: nat
      ensures Owners(r.s.coid, InHand(r.worker), r.log, c) == if c < r.log.opens then 1 else 0
    {
      assert Owners(k.s.coid, InHand(k.worker), k.log, c) == if c < k.log.opens then 1 else 0;
    }
  }

  lemma FinishInv(k: Link)
    requires Inv(k) && k.worker.Finishing?
    ensures Inv(Finish(k))
  {
    var r := Finish(k);
    SameOwners(k.s.coid, InHand(k.worker), k.log, r.s.coid, InHand(r.worker), r.log);
  }

  lemma CloseConnectionInv(k: Link)
    requires Inv(k) && (k.worker.Closing? || k.worker.Discarding?)
    ensures k.worker.Closing? ==> Inv(CloseConnection(k, k.worker.conn, Check))
    ensures k.worker.Discarding? ==>
              Inv(CloseConnection(k, k.worker.found, Reporting(k.worker.ticket, NotConnected)))
  {
    SameOwners(k.s.coid, InHand(k.worker), k.log, k.s.coid, NO_CONNECTION,
               k.log.(closed := k.log.closed + multiset{InHand(k.worker)}));
  }

  lemma ReportInv(k: Link)
    requires Inv(k) && k.worker.Reporting?
    ensures Inv(Report(k, k.worker.ticket, k.worker.verdict))
  {
    var r := Report(k, k.worker.ticket, k.worker.verdict);
    SameOwners(k.s.coid, InHand(k.worker), k.log, r.s.coid, InHand(r.worker), r.log);
  }

  lemma NextTurnInv(k: Link)
    requires Inv(k)
    ensures Inv(NextTurn(k))
  {
    if k.worker.Loop? {
      LoopTopInv(k);
    }
  }

  lemma WorkInv(k: Link, answer: Kernel)
    requires Inv(k)
    ensures Inv(WorkerStep(k, answer))
  {
    match k.worker
    case Loop => LoopTopInv(k);
    case Closing(_) => CloseConnectionInv(k);
    case Check => ProceedInv(k);
    case Working(_, _, _, _) => CallKernelInv(k, answer);
    case Finishing(_, _, _, _, _) =>
      FinishInv(k);
      NextTurnInv(Finish(k));
    case Discarding(_, _) => CloseConnectionInv(k);
    case Reporting(t, v) =>
      ReportInv(k);
      NextTurnInv(Report(k, t, v));
    case _ =>
  }

  lemma StepInv(k: Link, a: Action)
    requires Inv(k)
    ensures Inv(Step(k, a))
  {
    match a
    case Ask(job) => RequestInv(k, job);
    case GiveUp(t) => TimeOutInv(k, t);
    case Collect(t) => TakeInv(k, t);
    case CloseLink => CloseInv(k);
    case StopLink => CloseInv(k);
    case Work(answer) => WorkInv(k, answer);
    case SpuriousWake =>
  }

  lemma {:induction false} RunInv(actions: seq<Action>)
    ensures Inv(Run(Init, actions))
    decreases |actions|
  {
    if actions != [] {
      var n := |actions| - 1;
      RunInv(actions[..n]);
      StepInv(Run(Init, actions[..n]), actions[n]);
    }
  }

  lemma {:induction false} RunAppend(k: Link, a: seq<Action>, b: seq<Action>)
    ensures Run(k, a + b) == Run(Run(k, a), b)
    decreases |b|
  {
    if b == [] {
      assert a + b == a;
    } else {
      var n := |b| - 1;
      assert (a + b)[..|a + b| - 1] == a + b[..n];
      RunAppend(k, a, b[..n]);
    }
  }

  lemma WithdrawnStep(k: Link, a: Action)
    ensures k.log.withdrawn <= Step(k, a).log.withdrawn
  {
  }

  lemma {:induction false} WithdrawnForGood(k: Link, actions: seq<Action>)
    ensures k.log.withdrawn <= Run(k, actions).log.withdrawn
    decreases |actions|
  {
    if actions != [] {
      var n := |actions| - 1;
      WithdrawnForGood(k, actions[..n]);
      WithdrawnStep(Run(k, actions[..n]), actions[n]);
    }
  }

  /** In every interleaving a job reaches the kernel at most once. */
  lemma AtMostOneCall(actions: seq<Action>, t: nat)
    ensures Run(Init, actions).log.called[t] <= 1
  {
    RunInv(actions);
  }

  /** A job whose caller gave up, or that a close cancelled, while it was queued never reaches the kernel,
      whatever happens afterwards. */
  lemma WithdrawnIsNeverSent(before: seq<Action>, a: Action, after: seq<Action>)
    requires a.GiveUp? || a.CloseLink?
    ensures var k := Run(Init, before);
            !k.s.job.NoJob? && !k.s.done && (a.GiveUp? ==> a.ticket in k.waiting) ==>
              k.s.request in k.waiting && Run(Init, before + [a] + after).log.called[k.s.request] == 0
  {
    var k := Run(Init, before);
    RunInv(before);
    if !k.s.job.NoJob? && !k.s.done && (a.GiveUp? ==> a.ticket in k.waiting) {
      var r := Step(k, a);
      assert Run(k, [a]) == Step(Run(k, []), a);
      RunAppend(Init, before, [a]);
      RunAppend(Init, before + [a], after);
      assert k.s.request in r.log.withdrawn;
      WithdrawnForGood(r, after);
      RunInv(before + [a] + after);
    }
  }

  /** What a caller is told is the outcome of its own job: accepted, rejected or malformed only if the
      peer answered this very request so, connected only if its own connection was installed. */
  lemma OwnOutcome(actions: seq<Action>, t: nat)
    ensures var log := Run(Init, actions).log;
            t in log.returned && log.returned[t].Told? ==>
              log.returned[t].of == t && Own(log, t, log.returned[t].verdict)
  {
    RunInv(actions);
  }

  /** Every connection ever opened is the current one, closed, or in the hand of the worker that is
      about to install or close it, and exactly one of these. The worker leaves none open. */
  lemma ConnectionsAccounted(actions: seq<Action>, c: nat)
    ensures var k := Run(Init, actions);
            c < k.log.opens ==>
              && Owners(k.s.coid, InHand(k.worker), k.log, c) == 1
              && (k.worker.Exited? ==> k.log.closed[c] == 1)
  {
    RunInv(actions);
    var k := Run(Init, actions);
    if c < k.log.opens {
      assert Owners(k.s.coid, InHand(k.worker), k.log, c) == 1;
    }
  }

  /** A message goes out on the current connection, which is not closed before the call returns. */
  lemma SendsOnOpenConnection(actions: seq<Action>)
    ensures var k := Run(Init, actions);
            k.worker.Working? && k.worker.job.Send? ==>
              0 <= k.worker.conn < k.log.opens && k.worker.conn == k.s.coid && k.log.closed[k.worker.conn] == 0
  {
    RunInv(actions);
    var k := Run(Init, actions);
    if k.worker.Working? && k.worker.job.Send? {
      assert Owners(k.s.coid, InHand(k.worker), k.log, k.s.coid) == 1;
    }
  }

  /** When a job finishes without a close or a stop in between, the generation is still its own: the
      comparison never decides alone, so its wrap-around does no harm. */
  lemma GenerationNeverDecides(actions: seq<Action>)
    ensures var k := Run(Init, actions);
            k.worker.Finishing? ==> (Current(k.s, k.worker.generation) <==> !k.s.stopping && !k.s.closeRequested)
  {
    RunInv(actions);
  }

  // ----- does the worker notice a close? -----

  /** The worker alone, with any answers of the kernel. */
  function WorkerRun(k: Link, answers: seq<Kernel>): Link
    decreases |answers|
  {
    if answers == [] then k else WorkerRun(WorkerStep(k, answers[0]), answers[1..])
  }

  /** After n worker steps the pending close has been acted upon, whatever the kernel answers. */
  ghost predicate ClearedAfter(k: Link, n: nat) {
    forall answers: seq<Kernel> :: |answers| == n ==> !WorkerRun(k, answers).s.closeRequested
  }

  /** The worker acts upon a pending close by itself: it needs no further signal. */
  ghost predicate Noticed(k: Link) {
    exists n: nat :: ClearedAfter(k, n)
  }

  /** The worker has passed its close check and will not look again before it sleeps. */
  predicate PastCheck(p: Place) {
    p.Closing? || p.Check?
  }

  /** Worker steps to the next close check, for a worker that will come to one. */
  function StepsToCheck(p: Place): nat {
    match p
    case Working(_, _, _, _) => 4
    case Finishing(_, _, _, _, _) => 3
    case Discarding(_, _) => 2
    case _ => 1
  }

  predicate WillCheck(p: Place) {
    !PastCheck(p) && !p.Asleep? && !p.Exited?
  }

  lemma ComesToCheck(k: Link, answer: Kernel)
    requires WillCheck(k.worker)
    ensures var r := WorkerStep(k, answer);
            !r.s.closeRequested || (WillCheck(r.worker) && StepsToCheck(r.worker) < StepsToCheck(k.worker))
  {
  }

  lemma LoopTopClears(k: Link)
    ensures !LoopTop(k).s.closeRequested
  {
  }

  lemma FinishKeepsRequest(k: Link)
    requires k.worker.Finishing?
    ensures Finish(k).s.closeRequested == k.s.closeRequested
  {
  }

  lemma NotSetByWorker(k: Link, answer: Kernel)
    requires !k.s.closeRequested
    ensures !WorkerStep(k, answer).s.closeRequested
  {
    match k.worker
    case Loop => LoopTopClears(k);
    case Finishing(_, _, _, _, _) =>
      FinishKeepsRequest(k);
      LoopTopClears(Finish(k));
    case Reporting(t, v) => LoopTopClears(Report(k, t, v));
    case _ =>
  }

  lemma {:induction false} Clears(k: Link, answers: seq<Kernel>)
    requires !k.s.closeRequested || (WillCheck(k.worker) && StepsToCheck(k.worker) <= |answers|)
    ensures !WorkerRun(k, answers).s.closeRequested
    decreases |answers|
  {
    if answers != [] {
      if k.s.closeRequested {
        ComesToCheck(k, answers[0]);
      } else {
        NotSetByWorker(k, answers[0]);
      }
      Clears(WorkerStep(k, answers[0]), answers[1..]);
    }
  }

  lemma {:induction false} StaysPending(k: Link, answers: seq<Kernel>)
    requires k.s.closeRequested && k.s.job.NoJob? && !WillCheck(k.worker)
    ensures WorkerRun(k, answers).s.closeRequested
    decreases |answers|
  {
    if answers != [] {
      StaysPending(WorkerStep(k, answers[0]), answers[1..]);
    }
  }

  /** A close is acted upon unless it falls between the worker's close check and its sleep, while it closes
      the previous connection or is about to look for a job, or the worker has left. */
  lemma CloseNoticedIff(k: Link)
    ensures Noticed(Close(k)) <==> !PastCheck(k.worker) && !k.worker.Exited?
  {
    var c := Close(k);
    if WillCheck(c.worker) {
      forall answers: seq<Kernel> | |answers| == 4
        ensures !WorkerRun(c, answers).s.closeRequested
      {
        Clears(c, answers);
      }
      assert ClearedAfter(c, 4);
    } else {
      forall n: nat
        ensures !ClearedAfter(c, n)
      {
        var answers := seq(n, _ => Found);
        StaysPending(c, answers);
        assert |answers| == n && WorkerRun(c, answers).s.closeRequested;
      }
    }
  }

  /** Closing a link that is connected is always noticed. */
  lemma ConnectedCloseNoticed(k: Link)
    requires Inv(k) && k.s.connected
    ensures Noticed(Close(k))
  {
    CloseNoticedIff(k);
  }

  /** A close is pending, and the worker sleeps or will sleep without having seen it. */
  predicate Stranded(k: Link) {
    k.s.closeRequested && !k.s.stopping && !WillCheck(k.worker)
  }

  predicate Rescues(a: Action) {
    a.CloseLink? || a.StopLink? || a.SpuriousWake?
  }

  /** No step but a close strands the link. */
  lemma OnlyCloseStrands(k: Link, a: Action)
    requires Inv(k) && !Stranded(k) && !a.CloseLink?
    ensures !Stranded(Step(k, a))
  {
  }

  /** Every close of the run finds the link connected. */
  predicate ClosesConnected(actions: seq<Action>)
    decreases |actions|
  {
    var n := |actions| - 1;
    actions == [] || (ClosesConnected(actions[..n]) && (actions[n].CloseLink? ==> Run(Init, actions[..n]).s.connected))
  }

  /** In every run whose closes find the link connected, a pending close never waits for a sleeping worker. */
  lemma {:induction false} DisciplinedNeverStranded(actions: seq<Action>)
    requires ClosesConnected(actions)
    ensures !Stranded(Run(Init, actions))
    decreases |actions|
  {
    if actions != [] {
      var n := |actions| - 1;
      var k := Run(Init, actions[..n]);
      DisciplinedNeverStranded(actions[..n]);
      RunInv(actions[..n]);
      if actions[n].CloseLink? {
        ConnectedClose(k);
      } else {
        OnlyCloseStrands(k, actions[n]);
      }
    }
  }

  lemma ConnectedClose(k: Link)
    requires Inv(k) && k.s.connected
    ensures !Stranded(Close(k))
  {
  }

  lemma StrandedStep(k: Link, a: Action)
    requires Inv(k) && Stranded(k) && !Rescues(a)
    ensures Stranded(Step(k, a)) && Step(k, a).next == k.next && !Step(k, a).s.connected
  {
  }

  /** From a missed close on no job is accepted and the link stays unconnected until another close, the end
      of the link or a spurious wake-up wakes the worker. */
  lemma {:induction false} StrandedStays(k: Link, actions: seq<Action>)
    requires Inv(k) && Stranded(k) && forall i :: 0 <= i < |actions| ==> !Rescues(actions[i])
    ensures Inv(Run(k, actions)) && Stranded(Run(k, actions)) && Run(k, actions).next == k.next
    decreases |actions|
  {
    if actions != [] {
      var n := |actions| - 1;
      StrandedStays(k, actions[..n]);
      StrandedStep(Run(k, actions[..n]), actions[n]);
      StepInv(Run(k, actions[..n]), actions[n]);
    }
  }

  lemma RunOne(k: Link, actions: seq<Action>, a: Action)
    ensures Run(k, actions + [a]) == Step(Run(k, actions), a)
  {
    assert (actions + [a])[..|actions|] == actions;
  }

  /** Connected and idle: the worker sleeps. */
  predicate Ready(k: Link) {
    && k.worker.Asleep? && k.s.coid == 0 && k.s.connected && !k.s.closeRequested && !k.s.stopping && k.s.job.NoJob?
  }

  const CONNECT: seq<Action> := [Ask(Connect), Work(Found), Work(Found), Work(Found)]

  lemma ConnectReaches()
    ensures Ready(Run(Init, CONNECT))
  {
    var k1 := Step(Init, Ask(Connect));
    assert k1.worker.Loop? && k1.s == Init.s.(busy := true, job := Connect);
    var k2 := Step(k1, Work(Found));
    assert k2.worker == Working(Connect, 0, 0, NO_CONNECTION) && k2.s == Init.s.(busy := true);
    var k3 := Step(k2, Work(Found));
    assert k3.worker == Finishing(Connect, 0, 0, 0, Transport) && k3.s == k2.s;
    var k4 := Step(k3, Work(Found));
    RunOne(Init, [], Ask(Connect));
    RunOne(Init, [Ask(Connect)], Work(Found));
    RunOne(Init, [Ask(Connect)] + [Work(Found)], Work(Found));
    RunOne(Init, [Ask(Connect)] + [Work(Found)] + [Work(Found)], Work(Found));
    assert [] + [Ask(Connect)] == [Ask(Connect)];
    assert [Ask(Connect)] + [Work(Found)] + [Work(Found)] + [Work(Found)] == CONNECT;
  }

  const CLOSING: seq<Action> := CONNECT + [CloseLink] + [Work(Found)]

  /** A first close wakes the worker, which is closing the connection when a second close is missed. */
  lemma SecondCloseIsMissed()
    ensures !Run(Init, CLOSING).s.connected && !Noticed(Close(Run(Init, CLOSING)))
  {
    ConnectReaches();
    RunOne(Init, CONNECT, CloseLink);
    RunOne(Init, CONNECT + [CloseLink], Work(Found));
    assert Run(Init, CLOSING).worker == Closing(0);
    CloseNoticedIff(Run(Init, CLOSING));
  }

  /** Whatever happened before, a close called with this answer of the connection test is noticed. */
  ghost predicate SafeToClose(connected: bool) {
    forall actions :: Run(Init, actions).s.connected == connected ==> Noticed(Close(Run(Init, actions)))
  }

  /** What a caller can test before it closes decides: a close is noticed in every run iff it is called on a
      link that reports to be connected. */
  lemma CloseOnlyWhenConnected(connected: bool)
    ensures SafeToClose(connected) <==> connected
  {
    SecondCloseIsMissed();
    if connected {
      forall actions | Run(Init, actions).s.connected == connected
        ensures Noticed(Close(Run(Init, actions)))
      {
        RunInv(actions);
        ConnectedCloseNoticed(Run(Init, actions));
      }
    }
  }
}
