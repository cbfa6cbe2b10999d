/**
 What a history of commands promises about fencing tokens.  A history `h` is any sequence of commands
 applied from the empty machine, batches expanded; position i is judged by the reply it got.
 */
module Fencing {
  import opened Wrappers
  import opened Models
  import opened StateMachine

  /** The machine before position i. */
  function At(h: seq<LogEntry>, i: int): Machine
    requires Flat(h) && 0 <= i <= |h|
    decreases i
  {
    if i == 0 then EMPTY else Step(At(h, i - 1), h[i - 1]).0
  }

  /** It is what running the commands before i leads to. */
  lemma {:induction false} AtIsRun(h: seq<LogEntry>, i: int)
    requires Flat(h) && 0 <= i <= |h|
    ensures Flat(h[..i]) && At(h, i) == Run(EMPTY, h[..i])
    decreases i
  {
    assert forall l :: l in h[..i] ==> l in h;
    if i > 0 {
      AtIsRun(h, i - 1);
      assert Flat([h[i - 1]]) && h[..i - 1] + [h[i - 1]] == h[..i];
      RunConcat(EMPTY, h[..i - 1], [h[i - 1]]);
      assert Run(At(h, i - 1), [h[i - 1]]) == Step(At(h, i - 1), h[i - 1]).0;
    }
  }

  function ReplyAt(h: seq<LogEntry>, i: int): Outcome
    requires Flat(h) && 0 <= i < |h|
  {
    Step(At(h, i), h[i]).1
  }

  /** The token a reply hands out: a granted or renewed lock, or an assigned job. */
  function Shown(e: LogEntry, o: Outcome): Option<int> {
    match o
    case Ok(Locked(_, token, _)) => Some(token)
    case Ok(JobState(_, job)) => if e.command.JobAssign? then job.token else None
    case _ => None
  }

  function TokenShown(h: seq<LogEntry>, i: int): Option<int>
    requires Flat(h) && 0 <= i < |h|
  {
    Shown(h[i], ReplyAt(h, i))
  }

  // ----- Tokens -----

  /** Tokens held by locks and jobs are distinct and already counted. */
  ghost predicate TokensDistinct(m: Machine) {
    && 0 <= m.counter
    && (forall r :: r in m.locks ==> 1 <= m.locks[r].token <= m.counter)
    && (forall r, q :: r in m.locks && q in m.locks && r != q ==> m.locks[r].token != m.locks[q].token)
    && (forall j :: j in m.jobs && m.jobs[j].token.Some? ==> 1 <= m.jobs[j].token.value <= m.counter)
    && (forall j, k :: j in m.jobs && k in m.jobs && j != k && m.jobs[j].token.Some? ==> m.jobs[j].token != m.jobs[k].token)
    && (forall r, j :: r in m.locks && j in m.jobs ==> m.jobs[j].token != Some(m.locks[r].token))
  }

  /** Which commands touch which part of the machine. */
  lemma StepFrame(m: Machine, e: LogEntry)
    requires !e.command.Batch?
    ensures !e.command.LockAcquire? && !e.command.LockRelease? ==> Step(m, e).0.locks == m.locks
    ensures !IsJobCommand(e) ==> Step(m, e).0.jobs == m.jobs
    ensures !e.command.LockAcquire? && !e.command.JobAssign? ==> Step(m, e).0.counter == m.counter
  {
  }

  lemma TokensShrink(m: Machine, m': Machine)
    requires TokensDistinct(m) && m'.jobs == m.jobs && m'.counter == m.counter
    requires forall r :: r in m'.locks ==> r in m.locks && m'.locks[r] == m.locks[r]
    ensures TokensDistinct(m')
  {
  }

  lemma LockTokens(m: Machine, e: LogEntry)
    requires e.command.LockAcquire? && TokensDistinct(m)
    ensures TokensDistinct(AcquireLock(m, e).0)
  {
  }

  /** A job's token is new, unchanged or absent. */
  lemma JobTokenMoves(m: Machine, e: LogEntry)
    requires IsJobCommand(e)
    ensures
      var m', id := StepJob(m, e).0, JobId(e);
      && m'.locks == m.locks
      && m'.jobs.Keys == (if e.command.JobSubmit? then m.jobs.Keys + {id} else m.jobs.Keys)
      && (forall j :: j in m'.jobs && j != id ==> m'.jobs[j] == m.jobs[j])
      && (id in m'.jobs ==>
           m'.jobs[id].token ==
           if e.command.JobSubmit? then None else if e.command.JobAssign? then Some(m.counter + 1) else m.jobs[id].token)
      && m'.counter == (if e.command.JobAssign? && id in m.jobs then m.counter + 1 else m.counter)
  {
  }

  lemma JobTokens(m: Machine, m': Machine, id: string)
    requires TokensDistinct(m) && m'.locks == m.locks && m.counter <= m'.counter
    requires forall j :: j in m'.jobs && j != id ==> j in m.jobs && m'.jobs[j] == m.jobs[j]
    requires id in m'.jobs ==>
      || m'.jobs[id].token == None
      || (id in m.jobs && m'.jobs[id].token == m.jobs[id].token)
      || (m'.jobs[id].token == Some(m.counter + 1) && m'.counter == m.counter + 1)
    ensures TokensDistinct(m')
  {
  }

  lemma StepTokens(m: Machine, e: LogEntry)
    requires !e.command.Batch? && TokensDistinct(m)
    ensures TokensDistinct(Step(m, e).0) && m.counter <= Step(m, e).0.counter
  {
    StepFrame(m, e);
    if e.command.LockAcquire? {
      LockTokens(m, e);
    } else if IsJobCommand(e) {
      JobTokenMoves(m, e);
      JobTokens(m, StepJob(m, e).0, JobId(e));
    } else {
      TokensShrink(m, Step(m, e).0);
    }
  }

  lemma {:induction false} HistoryTokens(h: seq<LogEntry>, i: int)
    requires Flat(h) && 0 <= i <= |h|
    ensures TokensDistinct(At(h, i))
    decreases i
  {
    if i > 0 {
      HistoryTokens(h, i - 1);
      StepTokens(At(h, i - 1), h[i - 1]);
    }
  }

  lemma StepShows(m: Machine, e: LogEntry)
    requires !e.command.Batch? && TokensDistinct(m)
    ensures var (m', o) := Step(m, e); Shown(e, o).Some? ==> 1 <= Shown(e, o).value <= m'.counter
  {
  }

  lemma {:induction false} CounterGrows(h: seq<LogEntry>, k: int, i: int)
    requires Flat(h) && 0 <= k <= i <= |h|
    ensures At(h, k).counter <= At(h, i).counter
    decreases i
  {
    if k < i {
      CounterGrows(h, k, i - 1);
      HistoryTokens(h, i - 1);
      StepTokens(At(h, i - 1), h[i - 1]);
    }
  }

  /** Tokens shown stay at or below the counter from then on. */
  lemma ShownIsCounted(h: seq<LogEntry>, k: int, i: int)
    requires Flat(h) && 0 <= k < i <= |h| && TokenShown(h, k).Some?
    ensures 1 <= TokenShown(h, k).value <= At(h, i).counter
  {
    HistoryTokens(h, k);
    StepShows(At(h, k), h[k]);
    CounterGrows(h, k + 1, i);
  }

  lemma NextTokenIsLargest(h: seq<LogEntry>, n: int)
    requires Flat(h) && 0 <= n <= |h|
    ensures LargerThanAllBefore(h, n, At(h, n).counter + 1)
  {
    forall i | 0 <= i < n && TokenShown(h, i).Some? ensures TokenShown(h, i).value < At(h, n).counter + 1 {
      ShownIsCounted(h, i, n);
    }
  }

  // ----- Locks -----

  /** The command took, renewed or released resource r. */
  predicate Touched(e: LogEntry, o: Outcome, r: string) {
    || (e.command.LockAcquire? && Resource(e) == r && o.Ok? && o.reply.Locked?)
    || (e.command.LockRelease? && Resource(e) == r && o == Ok(Flag(true)))
  }

  predicate Touches(h: seq<LogEntry>, i: int, r: string)
    requires Flat(h) && 0 <= i < |h|
  {
    Touched(h[i], ReplyAt(h, i), r)
  }

  /** What one command does to the lock on r. */
  lemma LockMoves(m: Machine, e: LogEntry, r: string)
    requires !e.command.Batch?
    ensures
      var (m', o) := Step(m, e);
      if !Touched(e, o, r) then
        (r in m'.locks <==> r in m.locks) && (r in m.locks ==> m'.locks[r] == m.locks[r])
      else if e.command.LockRelease? then r !in m'.locks
      else
        r in m'.locks && Shown(e, o).Some? && m'.locks[r] == Lock(Holder(e), Shown(e, o).value, e.timestamp, e.command.ttl)
  {
    StepFrame(m, e);
  }

  /** The last position before n that touched r, or -1. */
  function LastTouch(h: seq<LogEntry>, n: int, r: string): (k: int)
    requires Flat(h) && 0 <= n <= |h|
    ensures -1 <= k < n
    ensures k >= 0 ==> Touches(h, k, r)
    ensures forall i :: k < i < n ==> !Touches(h, i, r)
    decreases n
  {
    if n == 0 then -1
    else if Touches(h, n - 1, r) then n - 1
    else LastTouch(h, n - 1, r)
  }

  /** The stored lock on r is exactly what its last touch left. */
  lemma {:induction false} LocksReflectHistory(h: seq<LogEntry>, n: int, r: string)
    requires Flat(h) && 0 <= n <= |h|
    ensures
      var k := LastTouch(h, n, r);
      && (r in At(h, n).locks <==> k >= 0 && h[k].command.LockAcquire?)
      && (r in At(h, n).locks ==>
           && TokenShown(h, k).Some?
           && At(h, n).locks[r] == Lock(Holder(h[k]), TokenShown(h, k).value, h[k].timestamp, h[k].command.ttl))
    decreases n
  {
    if n > 0 {
      LocksReflectHistory(h, n - 1, r);
      LockMoves(At(h, n - 1), h[n - 1], r);
    }
  }

  /** No lock on r is in force at time `now`: never taken, released, or out of time since its last renewal. */
  predicate Free(h: seq<LogEntry>, n: int, r: string, now: real)
    requires Flat(h) && 0 <= n <= |h|
  {
    var k := LastTouch(h, n, r);
    k == -1 || h[k].command.LockRelease? || now > h[k].timestamp + h[k].command.ttl
  }

  ghost predicate LargerThanAllBefore(h: seq<LogEntry>, n: int, token: int)
    requires Flat(h) && 0 <= n <= |h|
  {
    forall i :: 0 <= i < n && TokenShown(h, i).Some? ==> TokenShown(h, i).value < token
  }

  /**
   The lock service, stated on the history alone: a free resource is granted under a token larger than
   every token shown before, its holder's request renews the same token, anyone else is refused.
   */
  lemma LockGrants(h: seq<LogEntry>, j: int)
    requires Flat(h) && 0 <= j < |h| && h[j].command.LockAcquire?
    ensures
      var r := Resource(h[j]);
      var k := LastTouch(h, j, r);
      if Free(h, j, r, h[j].timestamp) then
        TokenShown(h, j).Some? && LargerThanAllBefore(h, j, TokenShown(h, j).value)
      else if Holder(h[k]) == Holder(h[j]) then
        TokenShown(h, j).Some? && TokenShown(h, j) == TokenShown(h, k)
      else ReplyAt(h, j) == Ok(Busy(r, Holder(h[k])))
  {
    LocksReflectHistory(h, j, Resource(h[j]));
    NextTokenIsLargest(h, j);
  }

  /** A new token on a resource means the previous grant was released or had run out. */
  lemma NewGrantOnlyWhenFree(h: seq<LogEntry>, i: int, j: int)
    requires Flat(h) && 0 <= i < j < |h|
    requires h[i].command.LockAcquire? && h[j].command.LockAcquire? && Resource(h[i]) == Resource(h[j])
    requires TokenShown(h, i).Some? && TokenShown(h, j).Some? && TokenShown(h, i) != TokenShown(h, j)
    requires i == LastTouch(h, j, Resource(h[j]))
    ensures h[j].timestamp > h[i].timestamp + h[i].command.ttl
    ensures TokenShown(h, i).value < TokenShown(h, j).value
  {
    LockGrants(h, j);
  }

  /**
   Releases, stated on the history alone: one is granted exactly when the resource is not held, or when the
   token and the client it names, if it names them, are those of the latest grant.  A refusal changes nothing.
   */
  lemma ReleaseGrants(h: seq<LogEntry>, j: int)
    requires Flat(h) && 0 <= j < |h| && h[j].command.LockRelease?
    ensures
      var r := Resource(h[j]);
      var k, token := LastTouch(h, j, r), TokenOr(h[j].fencingToken, h[j].command.tokenInExtra);
      var granted :=
        || k == -1 || h[k].command.LockRelease?
        || ((token == None || token == TokenShown(h, k)) && (h[j].clientId == None || h[j].clientId == Some(Holder(h[k]))));
      && ReplyAt(h, j) == Ok(Flag(granted))
      && (granted ==> r !in At(h, j + 1).locks)
      && (!granted ==> At(h, j + 1) == At(h, j))
  {
    LocksReflectHistory(h, j, Resource(h[j]));
  }

  /** At n the lock on r that `k` left in the hands of `holder` was given back by its holder's leave, or found expired. */
  ghost predicate Surrendered(h: seq<LogEntry>, k: int, n: int, r: string, holder: string)
    requires Flat(h) && 0 <= n < |h|
  {
    && k == LastTouch(h, n, r) && 0 <= k && h[k].command.LockAcquire? && Holder(h[k]) == holder
    && if h[n].command.LockRelease? then
         && (h[n].clientId == None || h[n].clientId == Some(holder))
         && (TokenOr(h[n].fencingToken, h[n].command.tokenInExtra) == None ||
             TokenOr(h[n].fencingToken, h[n].command.tokenInExtra) == TokenShown(h, k))
       else h[n].command.LockAcquire? && h[n].timestamp > h[k].timestamp + h[k].command.ttl
  }

  /**
   A client loses a lock in no other way: if after its grant at i the resource is released, or granted to
   someone else, at j, then at some point in between it was surrendered by the client's leave or had run out.
   */
  lemma {:induction false} LockIsLostOnlyThus(h: seq<LogEntry>, i: int, j: int, r: string) returns (k: int, n: int)
    requires Flat(h) && 0 <= i < j < |h| && Touches(h, i, r) && h[i].command.LockAcquire?
    requires Touches(h, j, r) && (h[j].command.LockRelease? || Holder(h[j]) != Holder(h[i]))
    ensures i <= k < n <= j && Surrendered(h, k, n, r, Holder(h[i]))
    decreases j
  {
    var last := LastTouch(h, j, r);
    assert last >= i;
    if h[last].command.LockAcquire? && Holder(h[last]) == Holder(h[i]) {
      k, n := last, j;
      if h[j].command.LockRelease? { ReleaseGrants(h, j); } else { LockGrants(h, j); }
    } else {
      k, n := LockIsLostOnlyThus(h, i, last, r);
    }
  }

  /** Every assignment issues a token larger than all tokens shown before it. */
  lemma AssignIssuesFresh(h: seq<LogEntry>, j: int)
    requires Flat(h) && 0 <= j < |h| && h[j].command.JobAssign?
    ensures TokenShown(h, j).Some? ==> LargerThanAllBefore(h, j, TokenShown(h, j).value)
  {
    NextTokenIsLargest(h, j);
  }

  // ----- Job results -----

  /** The command submitted or (effectively) assigned job `id`. */
  predicate Issued(e: LogEntry, o: Outcome, id: string) {
    && (e.command.JobSubmit? || (e.command.JobAssign? && Shown(e, o).Some?))
    && JobId(e) == id
  }

  predicate Issues(h: seq<LogEntry>, i: int, id: string)
    requires Flat(h) && 0 <= i < |h|
  {
    Issued(h[i], ReplyAt(h, i), id)
  }

  /** What one command does to the token of job `id`. */
  lemma JobMoves(m: Machine, e: LogEntry, id: string)
    requires !e.command.Batch?
    ensures
      var (m', o) := Step(m, e);
      if !Issued(e, o, id) then
        (id in m'.jobs <==> id in m.jobs) && (id in m.jobs ==> m'.jobs[id].token == m.jobs[id].token)
      else
        id in m'.jobs && m'.jobs[id].token == if e.command.JobSubmit? then None else Shown(e, o)
  {
    StepFrame(m, e);
    if IsJobCommand(e) { JobTokenMoves(m, e); }
  }

  function LastIssue(h: seq<LogEntry>, n: int, id: string): (k: int)
    requires Flat(h) && 0 <= n <= |h|
    ensures -1 <= k < n
    ensures k >= 0 ==> Issues(h, k, id)
    ensures forall i :: k < i < n ==> !Issues(h, i, id)
    decreases n
  {
    if n == 0 then -1
    else if Issues(h, n - 1, id) then n - 1
    else LastIssue(h, n - 1, id)
  }

  lemma {:induction false} JobTokenReflectsHistory(h: seq<LogEntry>, n: int, id: string)
    requires Flat(h) && 0 <= n <= |h|
    ensures
      var k := LastIssue(h, n, id);
      && (id in At(h, n).jobs <==> k >= 0)
      && (k >= 0 ==> At(h, n).jobs[id].token == if h[k].command.JobSubmit? then None else TokenShown(h, k))
    decreases n
  {
    if n > 0 {
      JobTokenReflectsHistory(h, n - 1, id);
      JobMoves(At(h, n - 1), h[n - 1], id);
    }
  }

  /** A completion carrying token t is accepted exactly when the job's latest submission or assignment is the one that issued t. */
  lemma CompletionExactlyFenced(h: seq<LogEntry>, j: int)
    requires Flat(h) && 0 <= j < |h| && h[j].command.JobComplete?
    ensures
      var k := LastIssue(h, j, JobId(h[j]));
      var t := PresentedToken(h[j]);
      ReplyAt(h, j) == Ok(Flag(
        if t.Some? then k >= 0 && h[k].command.JobAssign? && TokenShown(h, k) == t else k >= 0))
  {
    JobTokenReflectsHistory(h, j, JobId(h[j]));
  }

  // ----- Tokens are numbered without gaps -----

  /** The command issues a new token: a grant of a free resource, or an assignment of a known job. */
  predicate IssuesToken(h: seq<LogEntry>, i: int)
    requires Flat(h) && 0 <= i < |h|
  {
    || (h[i].command.LockAcquire? && Free(h, i, Resource(h[i]), h[i].timestamp))
    || (h[i].command.JobAssign? && LastIssue(h, i, JobId(h[i])) >= 0)
  }

  function TokensIssued(h: seq<LogEntry>, n: int): nat
    requires Flat(h) && 0 <= n <= |h|
    decreases n
  {
    if n == 0 then 0 else TokensIssued(h, n - 1) + if IssuesToken(h, n - 1) then 1 else 0
  }

  lemma IssueCounts(h: seq<LogEntry>, i: int)
    requires Flat(h) && 0 <= i < |h|
    ensures At(h, i + 1).counter == At(h, i).counter + if IssuesToken(h, i) then 1 else 0
    ensures IssuesToken(h, i) ==> TokenShown(h, i) == Some(At(h, i).counter + 1)
  {
    StepFrame(At(h, i), h[i]);
    if h[i].command.LockAcquire? { LocksReflectHistory(h, i, Resource(h[i])); }
    if h[i].command.JobAssign? { JobTokenReflectsHistory(h, i, JobId(h[i])); }
  }

  lemma {:induction false} CounterIsIssued(h: seq<LogEntry>, n: int)
    requires Flat(h) && 0 <= n <= |h|
    ensures At(h, n).counter == TokensIssued(h, n)
    decreases n
  {
    if n > 0 {
      var i := n - 1;
      CounterIsIssued(h, i);
      IssueCounts(h, i);
      assert TokensIssued(h, n) == TokensIssued(h, i) + if IssuesToken(h, i) then 1 else 0;
    }
  }

  /** Locks and jobs draw on one sequence: the n-th token issued is n. */
  lemma TokensAreConsecutive(h: seq<LogEntry>, j: int)
    requires Flat(h) && 0 <= j < |h| && IssuesToken(h, j)
    ensures TokenShown(h, j) == Some(TokensIssued(h, j) + 1)
  {
    CounterIsIssued(h, j);
    IssueCounts(h, j);
  }

  /** A worker superseded by a later submission or assignment can never publish its result. */
  lemma SupersededWorkerRefused(h: seq<LogEntry>, i: int, k: int, j: int, id: string)
    requires Flat(h) && 0 <= i < k < j < |h|
    requires h[i].command.JobAssign? && TokenShown(h, i).Some? && JobId(h[i]) == id
    requires Issues(h, k, id)
    requires h[j].command.JobComplete? && JobId(h[j]) == id && PresentedToken(h[j]) == TokenShown(h, i)
    ensures ReplyAt(h, j) == Ok(Flag(false))
  {
    CompletionExactlyFenced(h, j);
    var last := LastIssue(h, j, id);
    assert last >= k;
    if h[last].command.JobAssign? {
      AssignIssuesFresh(h, last);
    }
  }

  // ----- Reassignment -----

  /** Assignments of `id` that took effect at positions in [lo, hi). */
  function Assignments(h: seq<LogEntry>, lo: int, hi: int, id: string): nat
    requires Flat(h) && 0 <= lo <= hi <= |h|
    decreases hi - lo
  {
    if lo == hi then 0
    else
      Assignments(h, lo, hi - 1, id) +
      (if h[hi - 1].command.JobAssign? && Issues(h, hi - 1, id) then 1 else 0)
  }

  /** From a submission of `id` at s up to n: no resubmission, and assigned only while waiting. */
  ghost predicate AssignedOnlyWhenWaiting(h: seq<LogEntry>, s: int, n: int, id: string)
    requires Flat(h) && 0 <= s < n <= |h|
  {
    && h[s].command.JobSubmit? && JobId(h[s]) == id
    && forall i :: s < i < n && IsJobCommand(h[i]) && JobId(h[i]) == id ==>
         && !h[i].command.JobSubmit?
         && (h[i].command.JobAssign? ==> id in At(h, i).jobs && At(h, i).jobs[id].status == Submitted)
  }

  function RetryLimit(e: LogEntry): int
    requires e.command.JobSubmit?
  {
    if e.command.spec.maxRetries < 1 then 1 else e.command.spec.maxRetries
  }

  /** What bounds reassignment: each assignment is paid for by a failure, and failures run out. */
  predicate Paid(job: Job, assignments: int) {
    && 0 <= job.retryCount
    && assignments <= job.retryCount + (if job.status == Submitted then 0 else 1)
    && (job.status == Submitted ==> job.retryCount == 0 || job.retryCount < job.maxRetries)
  }

  lemma PaidStep(m: Machine, e: LogEntry, id: string, assignments: int)
    requires !e.command.Batch? && id in m.jobs && Paid(m.jobs[id], assignments)
    requires IsJobCommand(e) && JobId(e) == id ==>
      !e.command.JobSubmit? && (e.command.JobAssign? ==> m.jobs[id].status == Submitted)
    ensures
      var m' := Step(m, e).0;
      var more := if e.command.JobAssign? && JobId(e) == id then 1 else 0;
      && id in m'.jobs
      && Paid(m'.jobs[id], assignments + more)
      && m'.jobs[id].maxRetries == m.jobs[id].maxRetries
      && (more == 1 ==> assignments <= (if m.jobs[id].maxRetries < 1 then 1 else m.jobs[id].maxRetries) - 1)
  {
    StepFrame(m, e);
    if IsJobCommand(e) { JobTokenMoves(m, e); }
  }

  /** Between two submissions a job is assigned at most max(1, maxRetries) times. */
  lemma {:induction false} BoundedReassignment(h: seq<LogEntry>, s: int, n: int, id: string)
    requires Flat(h) && 0 <= s < n <= |h| && AssignedOnlyWhenWaiting(h, s, n, id)
    ensures id in At(h, n).jobs
    ensures Paid(At(h, n).jobs[id], Assignments(h, s + 1, n, id))
    ensures At(h, n).jobs[id].maxRetries == h[s].command.spec.maxRetries
    ensures Assignments(h, s + 1, n, id) <= RetryLimit(h[s])
    decreases n
  {
    if n == s + 1 {
      assert At(h, n).jobs[id] == NewJob(h[s]);
    } else {
      BoundedReassignment(h, s, n - 1, id);
      PaidStep(At(h, n - 1), h[n - 1], id, Assignments(h, s + 1, n - 1, id));
      assert h[n - 1].command.JobAssign? && JobId(h[n - 1]) == id ==> Issues(h, n - 1, id);
    }
  }

  // ----- Logs with batches -----

  /** The replies inside a reply, batches opened. */
  function Opened(r: Reply): seq<Reply>
    decreases r, 0
  {
    if r.Batched? then AllOpened(r.replies) else [r]
  }

  function AllOpened(rs: seq<Reply>): seq<Reply>
    decreases rs
  {
    if rs == [] then [] else Opened(rs[0]) + AllOpened(rs[1..])
  }

  /** What each command of a history answers, from machine m on. */
  function Answers(m: Machine, h: seq<LogEntry>): seq<Outcome>
    requires Flat(h)
    decreases |h|
  {
    if h == [] then [] else [Step(m, h[0]).1] + Answers(Step(m, h[0]).0, h[1..])
  }

  function Oks(rs: seq<Reply>): seq<Outcome> {
    seq(|rs|, i requires 0 <= i < |rs| => Ok(rs[i]))
  }

  lemma {:induction false} AnswersConcat(m: Machine, a: seq<LogEntry>, b: seq<LogEntry>)
    requires Flat(a) && Flat(b)
    ensures Flat(a + b) && Answers(m, a + b) == Answers(m, a) + Answers(Run(m, a), b)
    decreases |a|
  {
    if a == [] {
      assert a + b == b;
    } else {
      assert (a + b)[0] == a[0] && (a + b)[1..] == a[1..] + b;
      AnswersConcat(Step(m, a[0]).0, a[1..], b);
    }
  }

  /** The reply of an entry, batches opened, is what its commands answer one by one. */
  lemma {:induction false} EntryAnswers(m: Machine, e: LogEntry)
    requires Apply(m, e).1.Ok?
    ensures Oks(Opened(Apply(m, e).1.reply)) == Answers(m, Leaves(m, e))
    decreases e, 0
  {
    if e.command.Batch? {
      BatchAnswers(m, e.command.operations);
    } else {
      assert !Step(m, e).1.reply.Batched?;
      assert [e][1..] == [];
    }
  }

  lemma {:induction false} BatchAnswers(m: Machine, ops: seq<LogEntry>)
    requires ApplyBatch(m, ops).1.Some?
    ensures Oks(AllOpened(ApplyBatch(m, ops).1.value)) == Answers(m, BatchLeaves(m, ops))
    decreases ops
  {
    if ops != [] {
      var m', o := Apply(m, ops[0]).0, Apply(m, ops[0]).1;
      var rest := ApplyBatch(m', ops[1..]).1.value;
      EntryAnswers(m, ops[0]);
      BatchAnswers(m', ops[1..]);
      ApplyIsFlat(m, ops[0]);
      AnswersConcat(m, Leaves(m, ops[0]), BatchLeaves(m', ops[1..]));
      assert ([o.reply] + rest)[1..] == rest;
      assert Oks(Opened(o.reply) + AllOpened(rest)) == Oks(Opened(o.reply)) + Oks(AllOpened(rest));
    }
  }

  lemma {:induction false} AnswersAt(h: seq<LogEntry>, i: nat)
    requires Flat(h) && i < |h|
    ensures |Answers(EMPTY, h)| == |h| && Answers(EMPTY, h)[i] == ReplyAt(h, i)
  {
    AtIsRun(h, i);
    assert h == h[..i] + h[i..] && Flat(h[i..]);
    AnswersConcat(EMPTY, h[..i], h[i..]);
    AnswersLength(EMPTY, h[..i]);
    AnswersLength(EMPTY, h);
  }

  lemma {:induction false} AnswersLength(m: Machine, h: seq<LogEntry>)
    requires Flat(h)
    ensures |Answers(m, h)| == |h|
    decreases |h|
  {
    if h != [] { AnswersLength(Step(m, h[0]).0, h[1..]); }
  }

  lemma {:induction false} LogLeavesConcat(m: Machine, a: seq<LogEntry>, b: seq<LogEntry>)
    ensures LogLeaves(m, a + b) == LogLeaves(m, a) + LogLeaves(ApplyLog(m, a), b)
    decreases |a|
  {
    if a == [] {
      assert a + b == b;
    } else {
      assert (a + b)[0] == a[0] && (a + b)[1..] == a[1..] + b;
      LogLeavesConcat(Apply(m, a[0]).0, a[1..], b);
    }
  }

  /** The history of a log's commands, and where in it entry n begins. */
  function HistoryOf(es: seq<LogEntry>): seq<LogEntry> { LogLeaves(EMPTY, es) }

  function Begins(es: seq<LogEntry>, n: nat): nat
    requires n <= |es|
  {
    |LogLeaves(EMPTY, es[..n])|
  }

  lemma LogSplits(es: seq<LogEntry>, n: nat)
    requires n < |es|
    ensures
      var m := ApplyLog(EMPTY, es[..n]);
      HistoryOf(es) == LogLeaves(EMPTY, es[..n]) + (Leaves(m, es[n]) + LogLeaves(Apply(m, es[n]).0, es[n + 1..]))
  {
    assert es == es[..n] + es[n..] && es[n..][0] == es[n] && es[n..][1..] == es[n + 1..];
    LogLeavesConcat(EMPTY, es[..n], es[n..]);
  }

  lemma AnswersSplit(before: seq<LogEntry>, own: seq<LogEntry>, after: seq<LogEntry>, m: Machine)
    requires Flat(before) && Flat(own) && Flat(after) && m == Run(EMPTY, before)
    ensures Flat(before + (own + after))
    ensures Answers(EMPTY, before + (own + after)) ==
            Answers(EMPTY, before) + (Answers(m, own) + Answers(Run(m, own), after))
  {
    AnswersConcat(m, own, after);
    AnswersConcat(EMPTY, before, own + after);
  }

  lemma Middle<T>(x: seq<T>, y: seq<T>, z: seq<T>, i: nat)
    requires i < |y|
    ensures (x + (y + z))[|x| + i] == y[i]
  {
  }

  /** After every log the machine is the one its history leads to. */
  lemma LogMachine(es: seq<LogEntry>)
    ensures ApplyLog(EMPTY, es) == At(HistoryOf(es), |HistoryOf(es)|)
  {
    var h := HistoryOf(es);
    LogIsFlat(EMPTY, es);
    AtIsRun(h, |h|);
    assert h[..|h|] == h;
  }

  /**
   Every log is one of these histories: the i-th reply of its n-th entry, batches opened, is the reply at
   the matching position, and comes from the matching command.  So what is shown here of histories holds
   of every log, command by command.
   */
  lemma LogIsHistory(es: seq<LogEntry>, n: nat, i: nat)
    requires n < |es| && Apply(ApplyLog(EMPTY, es[..n]), es[n]).1.Ok?
    requires i < |Opened(Apply(ApplyLog(EMPTY, es[..n]), es[n]).1.reply)|
    ensures
      var m, h, k := ApplyLog(EMPTY, es[..n]), HistoryOf(es), Begins(es, n) + i;
      && i < |Leaves(m, es[n])| && k < |h| && h[k] == Leaves(m, es[n])[i]
      && Ok(Opened(Apply(m, es[n]).1.reply)[i]) == ReplyAt(h, k)
  {
    var m := ApplyLog(EMPTY, es[..n]);
    var before, own := LogLeaves(EMPTY, es[..n]), Leaves(m, es[n]);
    EntryAnswers(m, es[n]);
    AnswersLength(m, own);
    assert |Oks(Opened(Apply(m, es[n]).1.reply))| == |own|;
    var h, after := HistoryOf(es), LogLeaves(Apply(m, es[n]).0, es[n + 1..]);
    LogSplits(es, n);
    LogIsFlat(EMPTY, es[..n]);
    AnswersSplit(before, own, after, m);
    AnswersLength(EMPTY, before);
    Middle(Answers(EMPTY, before), Answers(m, own), Answers(Run(m, own), after), i);
    Middle(before, own, after, i);
    AnswersAt(h, |before| + i);
  }

  /** After every log the tokens of locks and jobs are pairwise distinct. */
  lemma LogTokens(es: seq<LogEntry>)
    ensures TokensDistinct(ApplyLog(EMPTY, es))
  {
    LogMachine(es);
    HistoryTokens(HistoryOf(es), |HistoryOf(es)|);
  }
}
