/** What callers of the link are told, from the actions alone: with no close or stop in between, a message gets
    exactly the answer of the kernel, and a connection that was found is reported and installed. */
module LinkOutcome {
  import opened LinkSpec
  import opened LinkSafety

  /** The verdict that an answer of the kernel deserves. */
  function Deserved(job: Job, answer: Kernel): Verdict {
    match answer
    case Found => if job.Connect? then Connected else Transport
    case Answered(v) =>
      if job.Connect? then NotConnected
      else if v == Accepted || v == Rejected || v == Protocol then v else Transport
    case _ => if job.Connect? then NotConnected else Transport
  }

  predicate IsClose(a: Action) {
    a.CloseLink? || a.StopLink?
  }

  predicate NoClose(actions: seq<Action>) {
    forall i :: 0 <= i < |actions| ==> !IsClose(actions[i])
  }

  predicate NoWork(actions: seq<Action>) {
    forall i :: 0 <= i < |actions| ==> !actions[i].Work?
  }

  /** Nobody has asked to close or to stop. */
  predicate Open(k: Link) {
    !k.s.closeRequested && !k.s.stopping
  }

  lemma OpenStep(k: Link, a: Action)
    requires Open(k) && !IsClose(a)
    ensures Open(Step(k, a))
  {
    if a.Work? {
      NotSetByWorker(k, a.answer);
      WorkKeepsStopping(k, a.answer);
    }
  }

  lemma LoopTopKeepsStopping(k: Link)
    ensures LoopTop(k).s.stopping == k.s.stopping
  {
  }

  lemma FinishKeepsStopping(k: Link)
    requires k.worker.Finishing?
    ensures Finish(k).s.stopping == k.s.stopping
  {
  }

  lemma WorkKeepsStopping(k: Link, answer: Kernel)
    ensures WorkerStep(k, answer).s.stopping == k.s.stopping
  {
    match k.worker
    case Loop => LoopTopKeepsStopping(k);
    case Finishing(_, _, _, _, _) =>
      FinishKeepsStopping(k);
      LoopTopKeepsStopping(Finish(k));
    case Reporting(t, v) => LoopTopKeepsStopping(Report(k, t, v));
    case _ =>
  }

  lemma {:induction false} OpenRun(k: Link, actions: seq<Action>)
    requires Open(k) && NoClose(actions)
    ensures Open(Run(k, actions))
    decreases |actions|
  {
    if actions != [] {
      var n := |actions| - 1;
      OpenRun(k, actions[..n]);
      OpenStep(Run(k, actions[..n]), actions[n]);
    }
  }

  /** The kernel has answered the job of ticket t, and the worker has not come back with it yet. */
  predicate Answering(k: Link, t: nat, job: Job, answer: Kernel) {
    && Open(k) && k.worker.Finishing? && k.worker.ticket == t && k.worker.job == job
    && (job.Connect? ==> (k.worker.found != NO_CONNECTION <==> answer.Found?))
    && (job.Send? ==> k.worker.verdict == Deserved(job, answer))
    && (t in k.log.returned ==> k.log.returned[t].TimedOut?)
  }

  /** The outcome of ticket t is decided: its caller has given up, or has it waiting, or was told. */
  predicate Decided(k: Link, t: nat, v: Verdict) {
    && t < k.next
    && (t in k.log.returned ==> k.log.returned[t] == TimedOut || k.log.returned[t] == Told(v, t))
    && (t in k.waiting ==> k.s.done && k.s.request == t && k.s.resultOf == t && k.s.result == v)
    && (AtWork(k.worker) && TicketOf(k.worker) == t ==> t !in k.waiting)
  }

  lemma CallAnswers(k: Link, t: nat, answer: Kernel)
    requires Inv(k) && Open(k) && k.worker.Working? && k.worker.ticket == t
    ensures Answering(Step(k, Work(answer)), t, k.worker.job, answer)
  {
  }

  lemma AnsweringStays(k: Link, a: Action, t: nat, job: Job, answer: Kernel)
    requires Inv(k) && Answering(k, t, job, answer) && !IsClose(a) && !a.Work?
    ensures Answering(Step(k, a), t, job, answer)
  {
  }

  lemma FinishDecides(k: Link, t: nat, job: Job, answer: Kernel, any: Kernel)
    requires Inv(k) && Answering(k, t, job, answer) && (job.Connect? || job.Send?)
    ensures Decided(Step(k, Work(any)), t, Deserved(job, answer))
    ensures t in k.waiting && job.Connect? && answer.Found? ==> Step(k, Work(any)).s.connected
    ensures Step(k, Work(any)).waiting == k.waiting
  {
  }

  lemma DecidedLoopTop(k: Link, t: nat, v: Verdict)
    requires Inv(k) && k.worker.Loop? && Decided(k, t, v)
    ensures Decided(LoopTop(k), t, v)
  {
  }

  lemma DecidedFinish(k: Link, t: nat, v: Verdict)
    requires Inv(k) && k.worker.Finishing? && Decided(k, t, v)
    ensures Decided(Finish(k), t, v)
  {
  }

  lemma DecidedCall(k: Link, answer: Kernel, t: nat, v: Verdict)
    requires Inv(k) && k.worker.Working? && Decided(k, t, v)
    ensures Decided(CallKernel(k, answer), t, v)
  {
  }

  lemma DecidedFinishing(k: Link, t: nat, v: Verdict)
    requires Inv(k) && k.worker.Finishing? && Decided(k, t, v)
    ensures Decided(NextTurn(Finish(k)), t, v)
  {
    FinishInv(k);
    DecidedFinish(k, t, v);
    if Finish(k).worker.Loop? {
      DecidedLoopTop(Finish(k), t, v);
    }
  }

  lemma DecidedReporting(k: Link, t: nat, v: Verdict)
    requires Inv(k) && k.worker.Reporting? && Decided(k, t, v)
    ensures Decided(NextTurn(Report(k, k.worker.ticket, k.worker.verdict)), t, v)
  {
    ReportInv(k);
    DecidedLoopTop(Report(k, k.worker.ticket, k.worker.verdict), t, v);
  }

  lemma DecidedWork(k: Link, answer: Kernel, t: nat, v: Verdict)
    requires Inv(k) && Decided(k, t, v)
    ensures Decided(WorkerStep(k, answer), t, v)
  {
    match k.worker
    case Loop => DecidedLoopTop(k, t, v);
    case Working(_, _, _, _) => DecidedCall(k, answer, t, v);
    case Finishing(_, _, _, _, _) => DecidedFinishing(k, t, v);
    case Reporting(_, _) => DecidedReporting(k, t, v);
    case _ =>
  }

  lemma DecidedStep(k: Link, a: Action, t: nat, v: Verdict)
    requires Inv(k) && Decided(k, t, v)
    ensures Decided(Step(k, a), t, v)
  {
    if a.Work? {
      DecidedWork(k, a.answer, t, v);
    }
  }

  lemma {:induction false} AnsweringRun(k: Link, actions: seq<Action>, t: nat, job: Job, answer: Kernel)
    requires Inv(k) && Answering(k, t, job, answer) && NoClose(actions) && NoWork(actions)
    ensures Inv(Run(k, actions)) && Answering(Run(k, actions), t, job, answer)
    decreases |actions|
  {
    if actions != [] {
      var n := |actions| - 1;
      AnsweringRun(k, actions[..n], t, job, answer);
      AnsweringStays(Run(k, actions[..n]), actions[n], t, job, answer);
      StepInv(Run(k, actions[..n]), actions[n]);
    }
  }

  lemma {:induction false} DecidedRun(k: Link, actions: seq<Action>, t: nat, v: Verdict)
    requires Inv(k) && Decided(k, t, v)
    ensures Decided(Run(k, actions), t, v) && Inv(Run(k, actions))
    decreases |actions|
  {
    if actions != [] {
      var n := |actions| - 1;
      DecidedRun(k, actions[..n], t, v);
      DecidedStep(Run(k, actions[..n]), actions[n], t, v);
      StepInv(Run(k, actions[..n]), actions[n]);
    }
  }

  // ----- from the request on -----

  /** A request is accepted exactly when the link serves nobody else, no close is pending, and it is connected
      for a message and not connected for a connection. */
  lemma AcceptedIff(k: Link, job: Job)
    ensures var r := Step(k, Ask(job));
            if !job.NoJob? && !k.s.stopping && !k.s.busy && !k.s.closeRequested && (job.Send? <==> k.s.connected)
            then r.next == k.next + 1 && r.waiting == k.waiting + {k.next} && r.s.busy && r.s.job == job
                 && r.s.request == k.next && !r.worker.Asleep? && r.log == k.log
            else r == k
  {
  }

  /** Whoever works on ticket t does the job that was asked for. */
  predicate Remembers(k: Link, t: nat, job: Job) {
    && t < k.next
    && (!k.s.job.NoJob? && k.s.request == t ==> k.s.job == job)
    && (k.worker.Working? && k.worker.ticket == t ==> k.worker.job == job)
  }

  lemma LoopTopRemembers(k: Link, t: nat, job: Job)
    requires Remembers(k, t, job)
    ensures Remembers(LoopTop(k), t, job)
  {
  }

  lemma FinishRemembers(k: Link, t: nat, job: Job)
    requires k.worker.Finishing? && Remembers(k, t, job)
    ensures Remembers(Finish(k), t, job)
  {
  }

  lemma ReportRemembers(k: Link, ticket: nat, verdict: Verdict, t: nat, job: Job)
    requires Remembers(k, t, job)
    ensures Remembers(Report(k, ticket, verdict), t, job)
  {
  }

  lemma WorkRemembers(k: Link, answer: Kernel, t: nat, job: Job)
    requires Remembers(k, t, job)
    ensures Remembers(WorkerStep(k, answer), t, job)
  {
    match k.worker
    case Loop => LoopTopRemembers(k, t, job);
    case Finishing(_, _, _, _, _) =>
      FinishRemembers(k, t, job);
      LoopTopRemembers(Finish(k), t, job);
    case Reporting(u, v) =>
      ReportRemembers(k, u, v, t, job);
      LoopTopRemembers(Report(k, u, v), t, job);
    case _ =>
  }

  lemma StepRemembers(k: Link, a: Action, t: nat, job: Job)
    requires Remembers(k, t, job)
    ensures Remembers(Step(k, a), t, job)
  {
    if a.Work? {
      WorkRemembers(k, a.answer, t, job);
    }
  }

  lemma {:induction false} RunRemembers(k: Link, actions: seq<Action>, t: nat, job: Job)
    requires Remembers(k, t, job)
    ensures Remembers(Run(k, actions), t, job)
    decreases |actions|
  {
    if actions != [] {
      var n := |actions| - 1;
      RunRemembers(k, actions[..n], t, job);
      StepRemembers(Run(k, actions[..n]), actions[n], t, job);
    }
  }

  lemma {:induction false} RunKeepsInv(k: Link, actions: seq<Action>)
    requires Inv(k)
    ensures Inv(Run(k, actions))
    decreases |actions|
  {
    if actions != [] {
      var n := |actions| - 1;
      RunKeepsInv(k, actions[..n]);
      StepInv(Run(k, actions[..n]), actions[n]);
    }
  }

  /** The caller of ticket t collects this verdict. */
  predicate Collects(k: Link, t: nat, v: Verdict) {
    var log := Step(k, Collect(t)).log;
    t in log.returned && log.returned[t] == Told(v, t)
  }

  /** What became of ticket t: never returned, given up, or told the verdict. */
  predicate Outcome(log: Log, t: nat, v: Verdict) {
    t in log.returned ==> log.returned[t] == TimedOut || log.returned[t] == Told(v, t)
  }

  /** A job accepted at some point of a run, answered by the kernel and finished by the worker's next step, with
      no close or stop from acceptance to finish: its caller, if it has not given up, can collect exactly the
      verdict the answer deserves, and is never told another; a connection that was found is then in use. */
  lemma ToldWhatTheKernelAnswered(before: seq<Action>, job: Job, mid: seq<Action>, answer: Kernel, wait: seq<Action>,
                                  any: Kernel, after: seq<Action>)
    requires !job.NoJob? && NoClose(mid) && NoClose(wait) && NoWork(wait)
    ensures var k := Run(Init, before);
            var t := k.next;
            var p := Run(Step(k, Ask(job)), mid);
            var f := Step(Run(Step(p, Work(answer)), wait), Work(any));
            Step(k, Ask(job)).next == t + 1 && p.worker.Working? && p.worker.ticket == t ==>
              && Outcome(Run(f, after).log, t, Deserved(job, answer))
              && (t in f.waiting ==> && Collects(f, t, Deserved(job, answer))
                                     && (job.Connect? && answer.Found? ==> f.s.connected))
  {
    var k := Run(Init, before);
    var t, a := k.next, Step(k, Ask(job));
    var p := Run(a, mid);
    RunInv(before);
    AcceptedIff(k, job);
    if a.next == t + 1 && p.worker.Working? && p.worker.ticket == t {
      StepInv(k, Ask(job));
      OpenRun(a, mid);
      RunRemembers(a, mid, t, job);
      RunKeepsInv(a, mid);
      FromTheCall(p, job, answer, wait, any, after);
    }
  }

  lemma FromTheCall(p: Link, job: Job, answer: Kernel, wait: seq<Action>, any: Kernel, after: seq<Action>)
    requires Inv(p) && Open(p) && p.worker.Working? && p.worker.job == job && NoClose(wait) && NoWork(wait)
    ensures var t := p.worker.ticket;
            var f := Step(Run(Step(p, Work(answer)), wait), Work(any));
            && Outcome(Run(f, after).log, t, Deserved(job, answer))
            && (t in f.waiting ==> && Collects(f, t, Deserved(job, answer))
                                   && (job.Connect? && answer.Found? ==> f.s.connected))
  {
    var t, c := p.worker.ticket, Step(p, Work(answer));
    CallAnswers(p, t, answer);
    StepInv(p, Work(answer));
    AnsweringRun(c, wait, t, job, answer);
    var w := Run(c, wait);
    FinishDecides(w, t, job, answer, any);
    StepInv(w, Work(any));
    DecidedRun(Step(w, Work(any)), after, t, Deserved(job, answer));
  }

  // ----- no job is left lying -----

  /** A worker that sleeps has no job to do. */
  predicate Alert(k: Link) {
    k.worker.Asleep? ==> k.s.job.NoJob?
  }

  lemma LoopTopAlert(k: Link)
    ensures Alert(LoopTop(k))
  {
  }

  lemma AlertStep(k: Link, a: Action)
    requires Inv(k) && Alert(k)
    ensures Alert(Step(k, a))
  {
    if a.Work? {
      match k.worker
      case Finishing(_, _, _, _, _) => LoopTopAlert(Finish(k));
      case Reporting(u, v) => LoopTopAlert(Report(k, u, v));
      case _ =>
    }
  }

  lemma {:induction false} AlertRun(actions: seq<Action>)
    ensures Alert(Run(Init, actions))
    decreases |actions|
  {
    if actions != [] {
      var n := |actions| - 1;
      AlertRun(actions[..n]);
      RunInv(actions[..n]);
      AlertStep(Run(Init, actions[..n]), actions[n]);
    }
  }

  /** In every run a queued job is picked up by the worker alone, within two of its steps, unless the link
      stops. */
  lemma QueuedJobIsPickedUp(actions: seq<Action>, first: Kernel, second: Kernel)
    ensures var k := Run(Init, actions);
            !k.s.job.NoJob? && !k.s.stopping ==>
              var one := WorkerStep(k, first);
              var two := WorkerStep(one, second);
              (one.worker.Working? && one.worker.ticket == k.s.request) ||
              (two.worker.Working? && two.worker.ticket == k.s.request)
  {
    RunInv(actions);
    AlertRun(actions);
  }
}
