/** What a close or a stop does to the job under way: the caller is told of the failure, and the worker comes
    to an end. */
module LinkTeardown {
  import opened LinkSpec
  import opened LinkSafety
  import opened LinkOutcome

  /** What the caller of a job is told when the link is closed under it. */
  function Failed(job: Job): Verdict {
    match job
    case Connect => NotConnected
    case _ => Transport
  }

  // ----- a job at work -----

  /** The link was closed while the worker had the job of ticket t, and the caller has not been told yet. */
  predicate Doomed(k: Link, t: nat, job: Job) {
    && !Open(k) && AtWork(k.worker) && k.worker.ticket == t
    && (k.worker.Working? ==> k.worker.job == job) && (k.worker.Finishing? ==> k.worker.job == job)
    && (k.worker.Discarding? ==> job.Connect?) && (k.worker.Reporting? ==> k.worker.verdict == Failed(job))
    && (t in k.log.returned ==> k.log.returned[t].TimedOut?)
  }

  predicate DoomedOrTold(k: Link, t: nat, job: Job) {
    Doomed(k, t, job) || Decided(k, t, Failed(job))
  }

  lemma DoomedFinish(k: Link, t: nat, job: Job)
    requires Inv(k) && Doomed(k, t, job) && k.worker.Finishing? && !job.NoJob?
    ensures DoomedOrTold(Finish(k), t, job)
    ensures Finish(k).worker.Loop? ==> Decided(Finish(k), t, Failed(job))
  {
  }

  lemma DoomedReport(k: Link, t: nat, job: Job)
    requires Inv(k) && Doomed(k, t, job) && k.worker.Reporting?
    ensures Decided(Report(k, t, k.worker.verdict), t, Failed(job))
  {
  }

  lemma DoomedWork(k: Link, answer: Kernel, t: nat, job: Job)
    requires Inv(k) && Doomed(k, t, job) && !job.NoJob?
    ensures DoomedOrTold(WorkerStep(k, answer), t, job)
  {
    match k.worker
    case Finishing(_, _, _, _, _) =>
      FinishInv(k);
      DoomedFinish(k, t, job);
      if Finish(k).worker.Loop? {
        DecidedLoopTop(Finish(k), t, Failed(job));
      }
    case Reporting(u, v) =>
      ReportInv(k);
      DoomedReport(k, t, job);
      DecidedLoopTop(Report(k, u, v), t, Failed(job));
    case _ =>
  }

  lemma DoomedStep(k: Link, a: Action, t: nat, job: Job)
    requires Inv(k) && DoomedOrTold(k, t, job) && !job.NoJob?
    ensures DoomedOrTold(Step(k, a), t, job)
  {
    if Decided(k, t, Failed(job)) {
      DecidedStep(k, a, t, Failed(job));
    } else if a.Work? {
      DoomedWork(k, a.answer, t, job);
    }
  }

  lemma {:induction false} DoomedRun(k: Link, actions: seq<Action>, t: nat, job: Job)
    requires Inv(k) && DoomedOrTold(k, t, job) && !job.NoJob?
    ensures DoomedOrTold(Run(k, actions), t, job)
    decreases |actions|
  {
    if actions != [] {
      var n := |actions| - 1;
      DoomedRun(k, actions[..n], t, job);
      RunKeepsInv(k, actions[..n]);
      DoomedStep(Run(k, actions[..n]), actions[n], t, job);
    }
  }

  /** A close or stop in any run while the worker has a job, before or after the call into the kernel: whatever the
      kernel answers, the caller is told of no success. */
  lemma ClosedUnderWay(before: seq<Action>, close: Action, after: seq<Action>)
    requires IsClose(close)
    ensures var k := Run(Init, before);
            var r := Run(Step(k, close), after);
            k.worker.Working? || k.worker.Finishing? ==> Outcome(r.log, k.worker.ticket, Failed(k.worker.job))
  {
    var k := Run(Init, before);
    RunInv(before);
    if k.worker.Working? || k.worker.Finishing? {
      JobUnderWay(before);
      StepInv(k, close);
      DoomedRun(Step(k, close), after, k.worker.ticket, k.worker.job);
    }
  }

  lemma {:induction false} JobUnderWay(actions: seq<Action>)
    ensures var k := Run(Init, actions); k.worker.Working? || k.worker.Finishing? ==> !k.worker.job.NoJob?
    decreases |actions|
  {
    if actions != [] {
      var n := |actions| - 1;
      RunInv(actions[..n]);
      JobUnderWay(actions[..n]);
      JobStays(Run(Init, actions[..n]), actions[n]);
    }
  }

  predicate HasJob(p: Place) {
    p.Working? || p.Finishing? ==> !p.job.NoJob?
  }

  lemma LoopTopHasJob(k: Link)
    requires k.worker.Loop?
    ensures HasJob(LoopTop(k).worker)
  {
  }

  lemma JobStays(k: Link, a: Action)
    requires Inv(k) && HasJob(k.worker)
    ensures HasJob(Step(k, a).worker)
  {
    if a.Work? {
      match k.worker
      case Finishing(_, _, _, _, _) =>
        if Finish(k).worker.Loop? {
          LoopTopHasJob(Finish(k));
        }
      case Reporting(u, v) => LoopTopHasJob(Report(k, u, v));
      case _ =>
    }
  }

  // ----- a job in the queue -----

  /** A close in any run while a job is still queued: it will never reach the kernel, and its caller can collect the
      failure at once. */
  lemma ClosedInQueue(before: seq<Action>)
    ensures var k := Run(Init, before);
            var r := Step(k, CloseLink);
            !k.s.job.NoJob? ==>
              && r.s.job.NoJob? && k.s.request in r.log.withdrawn && k.s.request in r.waiting
              && Collects(r, k.s.request, Failed(k.s.job))
  {
    RunInv(before);
  }

  // ----- a connection that nobody waits for -----

  /** The connection of ticket t is in use only if its caller was told so, or can collect it. */
  predicate Welcome(k: Link, t: nat) {
    t in k.log.installed ==>
      && t < k.next
      && ((t in k.log.returned && k.log.returned[t] == Told(Connected, t))
          || (t !in k.log.returned && t in k.waiting && k.s.done && k.s.resultOf == t && k.s.result == Connected))
  }

  lemma FinishWelcome(k: Link, t: nat)
    requires Inv(k) && k.worker.Finishing? && Welcome(k, t)
    ensures Welcome(Finish(k), t)
  {
  }

  lemma LoopTopWelcome(k: Link, t: nat)
    requires Welcome(k, t)
    ensures Welcome(LoopTop(k), t)
  {
  }

  lemma WorkWelcome(k: Link, answer: Kernel, t: nat)
    requires Inv(k) && Welcome(k, t)
    ensures Welcome(WorkerStep(k, answer), t)
  {
    match k.worker
    case Loop => LoopTopWelcome(k, t);
    case Finishing(_, _, _, _, _) =>
      FinishWelcome(k, t);
      LoopTopWelcome(Finish(k), t);
    case Reporting(u, v) => LoopTopWelcome(Report(k, u, v), t);
    case _ =>
  }

  lemma StepWelcome(k: Link, a: Action, t: nat)
    requires Inv(k) && Welcome(k, t)
    ensures Welcome(Step(k, a), t)
  {
    if a.Work? {
      WorkWelcome(k, a.answer, t);
    }
  }

  /** In every run no connection is taken into use for a caller that gave up: whoever asked for it is told so. */
  lemma {:induction false} InstalledIsTold(actions: seq<Action>, t: nat)
    ensures Welcome(Run(Init, actions), t)
    decreases |actions|
  {
    if actions != [] {
      var n := |actions| - 1;
      InstalledIsTold(actions[..n], t);
      RunInv(actions[..n]);
      StepWelcome(Run(Init, actions[..n]), actions[n], t);
    }
  }

  // ----- the end of the worker -----

  /** Steps of the worker until it has left a link that stops. */
  function ToExit(k: Link): nat {
    match k.worker
    case Exited => 0
    case Asleep => 5
    case Check => 1
    case Closing(_) => 2
    case Loop => if k.s.coid != NO_CONNECTION then 3 else 1
    case Reporting(_, _) => if k.s.coid != NO_CONNECTION then 3 else 1
    case Discarding(_, _) => 2
    case Finishing(_, _, _, _, _) => 3
    case Working(_, _, _, _) => 4
  }

  lemma FinishNearsExit(k: Link)
    requires Inv(k) && k.s.stopping && k.worker.Finishing?
    ensures ToExit(NextTurn(Finish(k))) <= 2
  {
  }

  lemma ReportNearsExit(k: Link)
    requires Inv(k) && k.s.stopping && k.worker.Reporting?
    ensures ToExit(NextTurn(Report(k, k.worker.ticket, k.worker.verdict))) < ToExit(k)
  {
  }

  lemma NearerToExit(k: Link, answer: Kernel)
    requires Inv(k) && k.s.stopping && 0 < ToExit(k) <= 4
    ensures ToExit(WorkerStep(k, answer)) < ToExit(k)
  {
    match k.worker
    case Finishing(_, _, _, _, _) => FinishNearsExit(k);
    case Reporting(_, _) => ReportNearsExit(k);
    case _ =>
  }

  lemma {:induction false} ExitsWithin(k: Link, answers: seq<Kernel>)
    requires Inv(k) && k.s.stopping && ToExit(k) <= |answers| <= 4
    ensures Works(k, answers).worker.Exited?
    decreases |answers|
  {
    if answers != [] {
      if ToExit(k) > 0 {
        NearerToExit(k, answers[0]);
      }
      WorkKeepsStopping(k, answers[0]);
      StepInv(k, Work(answers[0]));
      ExitsWithin(WorkerStep(k, answers[0]), answers[1..]);
    }
  }

  /** The worker alone, with these answers of the kernel. */
  function Works(k: Link, answers: seq<Kernel>): Link
    decreases |answers|
  {
    if answers == [] then k else Works(WorkerStep(k, answers[0]), answers[1..])
  }

  /** Stopping the link in any run wakes the worker and marks every older result as stale; the worker then leaves
      within four of its steps, whatever the kernel answers, and holds no connection. */
  lemma StopEndsTheWorker(before: seq<Action>, answers: seq<Kernel>)
    requires |answers| == 4
    ensures var r := Works(Step(Run(Init, before), StopLink), answers); r.worker.Exited? && r.s.coid == NO_CONNECTION
  {
    var k := Run(Init, before);
    RunInv(before);
    StepInv(k, StopLink);
    ExitsWithin(Step(k, StopLink), answers);
    WorksInv(Step(k, StopLink), answers);
  }

  lemma {:induction false} WorksInv(k: Link, answers: seq<Kernel>)
    requires Inv(k)
    ensures Inv(Works(k, answers))
    decreases |answers|
  {
    if answers != [] {
      StepInv(k, Work(answers[0]));
      WorksInv(WorkerStep(k, answers[0]), answers[1..]);
    }
  }

  /** Each close and each stop begins a new generation, counted in 64 bits. */
  lemma CloseBeginsGeneration(k: Link, close: Action)
    requires IsClose(close) && k.s.generation < 0x1_0000_0000_0000_0000
    ensures var g := Step(k, close).s.generation;
            g == (if k.s.generation == 0xFFFF_FFFF_FFFF_FFFF then 0 else k.s.generation + 1) && g != k.s.generation
  {
  }
}
