/** What a history of commands makes of a job: its status, worker and result. */
module JobHistory {
  import opened Wrappers
  import opened Models
  import opened StateMachine
  import opened Fencing

  /** The command was submitted for job `id`, or changed it. */
  predicate Altered(e: LogEntry, o: Outcome, id: string) {
    && IsJobCommand(e) && JobId(e) == id
    && (e.command.JobSubmit? || (o.Ok? && (o.reply.JobState? || o.reply == Flag(true))))
  }

  predicate Alters(h: seq<LogEntry>, i: int, id: string)
    requires Flat(h) && 0 <= i < |h|
  {
    Altered(h[i], ReplyAt(h, i), id)
  }

  function LastAltered(h: seq<LogEntry>, n: int, id: string): (k: int)
    requires Flat(h) && 0 <= n <= |h|
    ensures -1 <= k < n
    ensures k >= 0 ==> Alters(h, k, id)
    ensures forall i :: k < i < n ==> !Alters(h, i, id)
    decreases n
  {
    if n == 0 then -1
    else if Alters(h, n - 1, id) then n - 1
    else LastAltered(h, n - 1, id)
  }

  /** Failures of `id` that took effect before n, counted from its latest submission. */
  function Failures(h: seq<LogEntry>, n: int, id: string): nat
    requires Flat(h) && 0 <= n <= |h|
    decreases n
  {
    if n == 0 then 0
    else if !Alters(h, n - 1, id) then Failures(h, n - 1, id)
    else if h[n - 1].command.JobSubmit? then 0
    else Failures(h, n - 1, id) + if h[n - 1].command.JobFail? then 1 else 0
  }

  /** The latest submission of `id` before n, or -1. */
  function LastSubmit(h: seq<LogEntry>, n: int, id: string): (s: int)
    requires Flat(h) && 0 <= n <= |h|
    ensures -1 <= s < n
    ensures s >= 0 ==> h[s].command.JobSubmit? && JobId(h[s]) == id
    ensures forall i :: s < i < n ==> !(h[i].command.JobSubmit? && JobId(h[i]) == id)
    decreases n
  {
    if n == 0 then -1
    else if h[n - 1].command.JobSubmit? && JobId(h[n - 1]) == id then n - 1
    else LastSubmit(h, n - 1, id)
  }

  /** The command submitted job `id`, or published its result. */
  predicate Publishes(h: seq<LogEntry>, i: int, id: string)
    requires Flat(h) && 0 <= i < |h|
  {
    Alters(h, i, id) && (h[i].command.JobSubmit? || h[i].command.JobComplete?)
  }

  function LastPublished(h: seq<LogEntry>, n: int, id: string): (k: int)
    requires Flat(h) && 0 <= n <= |h|
    ensures -1 <= k < n
    ensures k >= 0 ==> Publishes(h, k, id)
    ensures forall i :: k < i < n ==> !Publishes(h, i, id)
    decreases n
  {
    if n == 0 then -1
    else if Publishes(h, n - 1, id) then n - 1
    else LastPublished(h, n - 1, id)
  }

  /** The job is the one that the submission described. */
  ghost predicate IsAsSubmitted(e: LogEntry, job: Job)
    requires e.command.JobSubmit?
  {
    var spec := e.command.spec;
    && job.payload == spec.payload && job.priority == spec.priority && job.timeout == spec.timeout
    && job.maxRetries == spec.maxRetries && job.submittedBy == e.clientId.GetOr("") && job.createdAt == e.timestamp
  }

  /** What a command leaves of the job it altered, apart from its token. */
  ghost predicate LeavesJob(e: LogEntry, job: Job)
    requires IsJobCommand(e)
  {
    match e.command
    case JobSubmit(_) => job.status == Submitted && job.assignedTo == None && job.assignedAt == None && job.completedAt == None
    case JobAssign(_, worker) =>
      job.status == Assigned && job.assignedTo == Some(worker) && job.assignedAt == Some(e.timestamp)
    case JobComplete(_, _, result) => job.status == Completed && job.completedAt == Some(e.timestamp)
    case JobFail(_, error) =>
      && job.error == error
      && if job.retryCount >= job.maxRetries then job.status == Failed && job.completedAt == Some(e.timestamp)
         else job.status == Submitted && job.assignedTo == None && job.assignedAt == None
    case JobCancel(_) => job.status == Cancelled && job.completedAt == Some(e.timestamp)
  }

  /** One command alters one job only, and that as it says. */
  lemma JobAltered(m: Machine, e: LogEntry, id: string)
    requires !e.command.Batch?
    ensures
      var (m', o) := Step(m, e);
      if !Altered(e, o, id) then (id in m'.jobs <==> id in m.jobs) && (id in m.jobs ==> m'.jobs[id] == m.jobs[id])
      else
        && id in m'.jobs && (e.command.JobSubmit? || id in m.jobs)
        && (e.command.JobSubmit? ==>
             && m'.jobs[id].retryCount == 0 && m'.jobs[id].result == None && IsAsSubmitted(e, m'.jobs[id]))
        && (!e.command.JobSubmit? ==>
             && m'.jobs[id].retryCount == m.jobs[id].retryCount + (if e.command.JobFail? then 1 else 0)
             && (forall s: LogEntry :: s.command.JobSubmit? && IsAsSubmitted(s, m.jobs[id]) ==> IsAsSubmitted(s, m'.jobs[id]))
             && m'.jobs[id].result == if e.command.JobComplete? then e.command.result else m.jobs[id].result)
        && LeavesJob(e, m'.jobs[id])
  {
    StepFrame(m, e);
  }

  /**
   A stored job is what its history made of it: the last command that altered it decides status, worker and
   times, its failures are counted since its submission, and the rest is as submitted.
   */
  lemma {:induction false} JobReflectsHistory(h: seq<LogEntry>, n: int, id: string)
    requires Flat(h) && 0 <= n <= |h|
    ensures
      var k, s := LastAltered(h, n, id), LastSubmit(h, n, id);
      && (id in At(h, n).jobs <==> s >= 0) && (k >= 0 <==> s >= 0)
      && (s >= 0 ==>
           var job := At(h, n).jobs[id];
           job.retryCount == Failures(h, n, id) && IsAsSubmitted(h[s], job) && LeavesJob(h[k], job))
    decreases n
  {
    if n > 0 {
      JobReflectsHistory(h, n - 1, id);
      JobAltered(At(h, n - 1), h[n - 1], id);
    }
  }

  /** A job's result is the last one an accepted completion published since its submission. */
  lemma {:induction false} ResultReflectsHistory(h: seq<LogEntry>, n: int, id: string)
    requires Flat(h) && 0 <= n <= |h|
    ensures
      var p := LastPublished(h, n, id);
      && (id in At(h, n).jobs <==> p >= 0)
      && (p >= 0 ==> At(h, n).jobs[id].result == if h[p].command.JobComplete? then h[p].command.result else None)
    decreases n
  {
    if n > 0 {
      ResultReflectsHistory(h, n - 1, id);
      JobAltered(At(h, n - 1), h[n - 1], id);
    }
  }

  /** A result that is stored came from the worker that then held the job, or from a completion without a token. */
  lemma ResultIsFenced(h: seq<LogEntry>, n: int, id: string)
    requires Flat(h) && 0 <= n <= |h| && id in At(h, n).jobs && At(h, n).jobs[id].result.Some?
    ensures
      var p := LastPublished(h, n, id);
      && p >= 0 && h[p].command.JobComplete? && h[p].command.result == At(h, n).jobs[id].result
      && var k, t := LastIssue(h, p, id), PresentedToken(h[p]);
      k >= 0 && (t.Some? ==> h[k].command.JobAssign? && TokenShown(h, k) == t)
  {
    ResultReflectsHistory(h, n, id);
    CompletionExactlyFenced(h, LastPublished(h, n, id));
  }

  /** Submission, assignment and failure answer the job as they leave it, or nothing if it is not known. */
  lemma JobAnswers(h: seq<LogEntry>, j: int)
    requires Flat(h) && 0 <= j < |h| && (h[j].command.JobSubmit? || h[j].command.JobAssign? || h[j].command.JobFail?)
    ensures
      var id := JobId(h[j]);
      if h[j].command.JobSubmit? || LastSubmit(h, j, id) >= 0
      then id in At(h, j + 1).jobs && ReplyAt(h, j) == Ok(JobState(id, At(h, j + 1).jobs[id]))
      else ReplyAt(h, j) == Ok(Nothing) && At(h, j + 1) == At(h, j)
  {
    JobReflectsHistory(h, j, JobId(h[j]));
  }

  /** A cancellation is accepted exactly when the job is known and its last change was neither completion nor cancellation. */
  lemma CancelGrants(h: seq<LogEntry>, j: int)
    requires Flat(h) && 0 <= j < |h| && h[j].command.JobCancel?
    ensures
      var k := LastAltered(h, j, JobId(h[j]));
      ReplyAt(h, j) == Ok(Flag(k >= 0 && !h[k].command.JobComplete? && !h[k].command.JobCancel?))
  {
    JobReflectsHistory(h, j, JobId(h[j]));
  }
}
