/** The connection of Central to one peer: callers that ask for a job, one worker thread that does it
    without holding the mutex, and close requests from anywhere. One step for each section that runs
    under the mutex and for each call into the kernel. */
module LinkSpec {

  const GENERATIONS := 0x1_0000_0000_0000_0000
  const NO_CONNECTION := -1

  datatype Job = NoJob | Connect | Send

  datatype Verdict = Connected | NotConnected | Accepted | Rejected | Transport | Protocol

  /** Where the worker is. */
  datatype Place =
    | Loop
    | Closing(conn: int)
    | Check
    | Asleep
    | Working(job: Job, ticket: nat, generation: nat, conn: int)
    | Finishing(job: Job, ticket: nat, generation: nat, found: int, verdict: Verdict)
    | Discarding(ticket: nat, found: int)
    | Reporting(ticket: nat, verdict: Verdict)
    | Exited

  /** The link state under the mutex. A request is known by its ticket: the number of jobs accepted
      before it. `resultOf` names the job whose outcome `result` is. */
  datatype Shared = Shared(coid: int, connected: bool, closeRequested: bool, stopping: bool,
                           busy: bool, done: bool, abandoned: bool,
                           job: Job, request: nat, jobGeneration: nat, generation: nat,
                           result: Verdict, resultOf: nat)

  datatype Return = TimedOut | Told(verdict: Verdict, of: nat)

  /** What happened: connections opened (numbered in order) and closed, jobs that reached the kernel and
      what it answered, jobs withdrawn before that, connections installed, and what callers were told. */
  datatype Log = Log(opens: nat, closed: multiset<int>, called: multiset<nat>, replies: map<nat, Verdict>,
                     withdrawn: set<nat>, installed: set<nat>, returned: map<nat, Return>)

  datatype Link = Link(s: Shared, worker: Place, waiting: set<nat>, next: nat, log: Log)

  const Init: Link :=
    Link(Shared(NO_CONNECTION, false, false, false, false, false, false, NoJob, 0, 0, 0, NotConnected, 0),
         Loop, {}, 0, Log(0, multiset{}, multiset{}, map[], {}, {}, map[]))

  function Failure(job: Job): Verdict {
    if job.Connect? then NotConnected else Transport
  }

  /** A broadcast wakes the worker if it is asleep. */
  function Woken(p: Place): Place {
    if p.Asleep? then Loop else p
  }

  // ----- callers -----

  predicate Refused(s: Shared, job: Job) {
    s.stopping || s.busy || s.closeRequested || (if job.Connect? then s.connected else !s.connected)
  }

  /** A caller asks for a job, and waits if it is accepted. */
  function Request(k: Link, job: Job): Link {
    if job.NoJob? || Refused(k.s, job) then k
    else k.(s := k.s.(busy := true, done := false, abandoned := false, job := job, request := k.next,
                      jobGeneration := k.s.generation),
            worker := Woken(k.worker), waiting := k.waiting + {k.next}, next := k.next + 1)
  }

  /** A waiting caller whose deadline has passed gives up. */
  function TimeOut(k: Link, t: nat): Link {
    if t !in k.waiting || k.s.done then k
    else
      var k1 := k.(waiting := k.waiting - {t}, log := k.log.(returned := k.log.returned[t := TimedOut]));
      if !k.s.job.NoJob? then
        k1.(s := k.s.(job := NoJob, busy := false), log := k1.log.(withdrawn := k1.log.withdrawn + {t}))
      else k1.(s := k.s.(abandoned := true))
  }

  /** A waiting caller takes the outcome. */
  function Take(k: Link, t: nat): Link {
    if t !in k.waiting || !k.s.done then k
    else k.(s := k.s.(busy := false, done := false), waiting := k.waiting - {t},
            log := k.log.(returned := k.log.returned[t := Told(k.s.result, k.s.resultOf)]))
  }

  function Close(k: Link): Link {
    var s1 := k.s.(connected := false, closeRequested := true, generation := (k.s.generation + 1) % GENERATIONS);
    if k.s.job.NoJob? then k.(s := s1, worker := Woken(k.worker))
    else k.(s := s1.(result := Failure(k.s.job), resultOf := k.s.request, job := NoJob, done := true),
            worker := Woken(k.worker), log := k.log.(withdrawn := k.log.withdrawn + {k.s.request}))
  }

  /** The link is being destroyed. */
  function Stop(k: Link): Link {
    k.(s := k.s.(stopping := true, connected := false, generation := (k.s.generation + 1) % GENERATIONS),
       worker := Woken(k.worker))
  }

  // ----- the worker -----

  /** The part of the loop after the close check: leave, sleep, or pick up the job. */
  function Proceed(k: Link): Link {
    if k.s.stopping then k.(worker := Exited)
    else if k.s.job.NoJob? then k.(worker := Asleep)
    else k.(s := k.s.(job := NoJob), worker := Working(k.s.job, k.s.request, k.s.jobGeneration, k.s.coid))
  }

  function LoopTop(k: Link): Link {
    if k.s.closeRequested || k.s.stopping then
      var k1 := k.(s := k.s.(coid := NO_CONNECTION, connected := false, closeRequested := false));
      if k.s.coid != NO_CONNECTION then k1.(worker := Closing(k.s.coid)) else Proceed(k1)
    else Proceed(k)
  }

  function CloseConnection(k: Link, conn: int, next: Place): Link {
    k.(worker := next, log := k.log.(closed := k.log.closed + multiset{conn}))
  }

  /** The kernel's part: arming the timeout may fail, opening may find nobody, a message gets a verdict. */
  datatype Kernel = NoTimeout | NotFound | Found | Answered(verdict: Verdict)

  function CallKernel(k: Link, answer: Kernel): Link
    requires k.worker.Working?
  {
    var p := k.worker;
    if answer.NoTimeout? then k.(worker := Finishing(p.job, p.ticket, p.generation, NO_CONNECTION, Transport))
    else if p.job.Connect? then
      var found := if answer.Found? then k.log.opens else NO_CONNECTION;
      k.(worker := Finishing(Connect, p.ticket, p.generation, found, Transport),
         log := k.log.(called := k.log.called + multiset{p.ticket},
                       opens := if answer.Found? then k.log.opens + 1 else k.log.opens))
    else
      var v := if answer.Answered? && (answer.verdict.Accepted? || answer.verdict.Rejected? || answer.verdict.Protocol?)
               then answer.verdict else Transport;
      k.(worker := Finishing(Send, p.ticket, p.generation, NO_CONNECTION, v),
         log := k.log.(called := k.log.called + multiset{p.ticket}, replies := k.log.replies[p.ticket := v]))
  }

  predicate Current(s: Shared, generation: nat) {
    !s.stopping && !s.closeRequested && generation == s.generation
  }

  function Report(k: Link, ticket: nat, verdict: Verdict): Link {
    var s1 := k.s.(result := verdict, resultOf := ticket);
    k.(s := if k.s.abandoned then s1.(busy := false, abandoned := false) else s1.(done := true), worker := Loop)
  }

  function Finish(k: Link): Link
    requires k.worker.Finishing?
  {
    var p := k.worker;
    var current := Current(k.s, p.generation);
    if p.job.Connect? then
      if current && !k.s.abandoned && p.found != NO_CONNECTION then
        Report(k.(s := k.s.(coid := p.found, connected := true),
                  log := k.log.(installed := k.log.installed + {p.ticket})), p.ticket, Connected)
      else if p.found != NO_CONNECTION then k.(worker := Discarding(p.ticket, p.found))
      else Report(k, p.ticket, NotConnected)
    else Report(k, p.ticket, if current then p.verdict else Transport)
  }

  /** The mutex is kept from a report through the next turn of the loop. */
  function NextTurn(k: Link): Link {
    if k.worker.Loop? then LoopTop(k) else k
  }

  /** One step of the worker: a section under the mutex, or a call into the kernel. The loop top is a step of
      its own only for a worker that has just started or was woken. */
  function WorkerStep(k: Link, answer: Kernel): Link {
    match k.worker
    case Loop => LoopTop(k)
    case Closing(conn) => CloseConnection(k, conn, Check)
    case Check => Proceed(k)
    case Asleep => k
    case Working(_, _, _, _) => CallKernel(k, answer)
    case Finishing(_, _, _, _, _) => NextTurn(Finish(k))
    case Discarding(t, found) => CloseConnection(k, found, Reporting(t, NotConnected))
    case Reporting(t, v) => NextTurn(Report(k, t, v))
    case Exited => k
  }

  datatype Action =
    | Ask(job: Job)
    | GiveUp(ticket: nat)
    | Collect(ticket: nat)
    | CloseLink
    | StopLink
    | Work(answer: Kernel)
    | SpuriousWake

  function Step(k: Link, a: Action): Link {
    match a
    case Ask(job) => Request(k, job)
    case GiveUp(t) => TimeOut(k, t)
    case Collect(t) => Take(k, t)
    case CloseLink => Close(k)
    case StopLink => Stop(k)
    case Work(answer) => WorkerStep(k, answer)
    case SpuriousWake => k.(worker := Woken(k.worker))
  }

  function Run(k: Link, actions: seq<Action>): Link
    decreases |actions|
  {
    if actions == [] then k else Step(Run(k, actions[..|actions| - 1]), actions[|actions| - 1])
  }
}
