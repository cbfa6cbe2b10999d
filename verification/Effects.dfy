/** Whether a sequence of commands can change anything besides the key-values. */
module Effects {
  import opened Wrappers
  import opened Models
  import opened StateMachine

  predicate IsKv(l: LogEntry) {
    l.command.Set? || l.command.Get? || l.command.Delete? || l.command.Cas? || l.command.Increment?
  }

  function Rest(m: Machine): Machine { m.(kv := map[]) }

  function RestRun(m: Machine, ls: seq<LogEntry>): Machine
    requires Flat(ls)
    decreases |ls|
  {
    if ls == [] then m else RestRun(if IsKv(ls[0]) then m else Step(m, ls[0]).0, ls[1..])
  }

  /** The command can change locks, jobs, members or the counter of some machine. */
  predicate Effective(l: LogEntry) {
    || l.command.LockAcquire? || l.command.LockRelease? || IsJobCommand(l)
    || (l.command.MembershipChange? && OrElse(l.key, "") != "" && (l.command.action == "ADD" || l.command.action == "REMOVE"))
  }

  function RestStep(m: Machine, l: LogEntry): Machine
    requires !l.command.Batch?
  {
    if IsKv(l) then m else Step(m, l).0
  }

  lemma {:induction false} NoEffect(m: Machine, ls: seq<LogEntry>)
    requires Flat(ls) && forall l :: l in ls ==> !Effective(l)
    ensures RestRun(m, ls) == m
    decreases |ls|
  {
    if ls != [] {
      assert ls[0] in ls && RestStep(m, ls[0]) == m;
      NoEffect(m, ls[1..]);
    }
  }

  // ----- What one command does to locks, jobs, members and the counter -----

  lemma CounterStep(m: Machine, l: LogEntry)
    requires !l.command.Batch?
    ensures m.counter <= RestStep(m, l).counter
    ensures l.command.LockAcquire? && m.locks == map[] ==> m.counter < RestStep(m, l).counter
    ensures l.command.JobAssign? && JobId(l) in m.jobs ==> m.counter < RestStep(m, l).counter
  {
  }

  lemma LocksStep(m: Machine, l: LogEntry)
    requires !l.command.Batch? && !l.command.LockAcquire?
    ensures RestStep(m, l).locks.Keys <= m.locks.Keys
    ensures !l.command.LockRelease? ==> RestStep(m, l).locks == m.locks
  {
  }

  lemma JobsStep(m: Machine, l: LogEntry)
    requires !l.command.Batch?
    ensures m.jobs.Keys <= RestStep(m, l).jobs.Keys
    ensures l.command.JobSubmit? ==> JobId(l) in RestStep(m, l).jobs
    ensures !IsJobCommand(l) ==> RestStep(m, l).jobs == m.jobs
  {
  }

  lemma MembersStep(m: Machine, l: LogEntry)
    requires !l.command.Batch?
    ensures !(Effective(l) && l.command.MembershipChange?) ==> RestStep(m, l).members == m.members
  {
  }

  // ----- Locks taken, jobs submitted or assigned: the counter or the jobs only grow -----

  lemma {:induction false} CounterGrows(m: Machine, ls: seq<LogEntry>)
    requires Flat(ls)
    ensures m.counter <= RestRun(m, ls).counter
    decreases |ls|
  {
    if ls != [] {
      CounterStep(m, ls[0]);
      CounterGrows(RestStep(m, ls[0]), ls[1..]);
    }
  }

  lemma {:induction false} AcquireShows(m: Machine, ls: seq<LogEntry>)
    requires Flat(ls) && m.locks == map[] && exists l :: l in ls && l.command.LockAcquire?
    ensures m.counter < RestRun(m, ls).counter
    decreases |ls|
  {
    CounterStep(m, ls[0]);
    var m' := RestStep(m, ls[0]);
    if ls[0].command.LockAcquire? {
      CounterGrows(m', ls[1..]);
    } else {
      LocksStep(m, ls[0]);
      assert m'.locks == map[];
      AcquireShows(m', ls[1..]);
    }
  }

  lemma {:induction false} JobsGrow(m: Machine, ls: seq<LogEntry>)
    requires Flat(ls)
    ensures m.jobs.Keys <= RestRun(m, ls).jobs.Keys
    decreases |ls|
  {
    if ls != [] {
      JobsStep(m, ls[0]);
      JobsGrow(RestStep(m, ls[0]), ls[1..]);
    }
  }

  lemma {:induction false} SubmitShows(m: Machine, ls: seq<LogEntry>, l: LogEntry)
    requires Flat(ls) && l in ls && l.command.JobSubmit?
    ensures JobId(l) in RestRun(m, ls).jobs
    decreases |ls|
  {
    JobsStep(m, ls[0]);
    if ls[0] == l {
      JobsGrow(RestStep(m, ls[0]), ls[1..]);
    } else {
      SubmitShows(RestStep(m, ls[0]), ls[1..], l);
    }
  }

  lemma {:induction false} AssignShows(m: Machine, ls: seq<LogEntry>, l: LogEntry)
    requires Flat(ls) && l in ls && l.command.JobAssign? && JobId(l) in m.jobs
    ensures m.counter < RestRun(m, ls).counter
    decreases |ls|
  {
    CounterStep(m, ls[0]);
    JobsStep(m, ls[0]);
    if ls[0] == l {
      CounterGrows(RestStep(m, ls[0]), ls[1..]);
    } else {
      AssignShows(RestStep(m, ls[0]), ls[1..], l);
    }
  }

  // ----- Jobs finished, failed or cancelled -----

  predicate Ends(l: LogEntry) { l.command.JobComplete? || l.command.JobFail? || l.command.JobCancel? }

  /** The job is no longer as it was submitted. */
  predicate Touched(j: Job) { 0 <= j.retryCount && (j.status != Submitted || j.retryCount > 0) }

  lemma TouchedStep(m: Machine, l: LogEntry, id: string)
    requires !l.command.Batch? && !l.command.JobSubmit? && !l.command.JobAssign?
    requires id in m.jobs && Touched(m.jobs[id])
    ensures id in RestStep(m, l).jobs && Touched(RestStep(m, l).jobs[id])
  {
  }

  lemma {:induction false} TouchedStays(m: Machine, ls: seq<LogEntry>, id: string)
    requires Flat(ls) && forall l :: l in ls ==> !l.command.JobSubmit? && !l.command.JobAssign?
    requires id in m.jobs && Touched(m.jobs[id])
    ensures id in RestRun(m, ls).jobs && Touched(RestRun(m, ls).jobs[id])
    decreases |ls|
  {
    if ls != [] {
      assert ls[0] in ls;
      TouchedStep(m, ls[0], id);
      TouchedStays(RestStep(m, ls[0]), ls[1..], id);
    }
  }

  /** A submitted job that the command, if a completion, presents the right token for. */
  function Waiting(l: LogEntry): Job
    requires Ends(l)
  {
    Job("", 0, Submitted, "", None, None, 0.0, 0, 0, if l.command.JobComplete? then PresentedToken(l) else None, None, None, 0.0, None)
  }

  lemma EndTouches(m: Machine, l: LogEntry)
    requires Ends(l) && JobId(l) in m.jobs && m.jobs[JobId(l)] == Waiting(l)
    ensures JobId(l) in RestStep(m, l).jobs && Touched(RestStep(m, l).jobs[JobId(l)])
  {
  }

  /** The first command that ends a job ends a waiting one, for good. */
  lemma {:induction false} EndShows(m: Machine, ls: seq<LogEntry>, i: nat)
    requires Flat(ls) && i < |ls| && Ends(ls[i]) && (forall j :: 0 <= j < i ==> !IsJobCommand(ls[j]))
    requires forall l :: l in ls ==> !l.command.JobSubmit? && !l.command.JobAssign?
    requires JobId(ls[i]) in m.jobs && m.jobs[JobId(ls[i])] == Waiting(ls[i])
    ensures JobId(ls[i]) in RestRun(m, ls).jobs && Touched(RestRun(m, ls).jobs[JobId(ls[i])])
    decreases |ls|
  {
    if i == 0 {
      EndTouches(m, ls[0]);
      TouchedStays(RestStep(m, ls[0]), ls[1..], JobId(ls[0]));
    } else {
      JobsStep(m, ls[0]);
      EndShows(RestStep(m, ls[0]), ls[1..], i - 1);
    }
  }

  // ----- Locks released -----

  function Releasable(l: LogEntry): Lock
    requires l.command.LockRelease?
  {
    Lock(l.clientId.GetOr(""), TokenOr(l.fencingToken, l.command.tokenInExtra).GetOr(0), 0.0, 0.0)
  }

  lemma {:induction false} LocksShrink(m: Machine, ls: seq<LogEntry>)
    requires Flat(ls) && forall l :: l in ls ==> !l.command.LockAcquire?
    ensures RestRun(m, ls).locks.Keys <= m.locks.Keys
    decreases |ls|
  {
    if ls != [] {
      assert ls[0] in ls;
      LocksStep(m, ls[0]);
      LocksShrink(RestStep(m, ls[0]), ls[1..]);
    }
  }

  lemma {:induction false} ReleaseShows(m: Machine, ls: seq<LogEntry>, i: nat)
    requires Flat(ls) && i < |ls| && ls[i].command.LockRelease? && (forall j :: 0 <= j < i ==> !ls[j].command.LockRelease?)
    requires forall l :: l in ls ==> !l.command.LockAcquire?
    requires Resource(ls[i]) in m.locks && m.locks[Resource(ls[i])] == Releasable(ls[i])
    ensures Resource(ls[i]) !in RestRun(m, ls).locks
    decreases |ls|
  {
    assert ls[0] in ls;
    if i == 0 {
      LocksShrink(RestStep(m, ls[0]), ls[1..]);
    } else {
      LocksStep(m, ls[0]);
      ReleaseShows(RestStep(m, ls[0]), ls[1..], i - 1);
    }
  }

  // ----- Members added or removed -----

  predicate Enrolls(l: LogEntry) { Effective(l) && l.command.MembershipChange? }

  /** Membership ends as the last effective change left it. */
  lemma {:induction false} MemberShows(m: Machine, ls: seq<LogEntry>) returns (l: LogEntry)
    requires Flat(ls) && exists l :: l in ls && Enrolls(l)
    ensures Enrolls(l) && (OrElse(l.key, "") in RestRun(m, ls).members <==> l.command.action == "ADD")
    ensures forall n :: OrElse(l.key, "") in RestRun(n, ls).members <==> l.command.action == "ADD"
    decreases |ls|
  {
    if exists x :: x in ls[1..] && Enrolls(x) {
      l := MemberShows(RestStep(m, ls[0]), ls[1..]);
      forall n ensures OrElse(l.key, "") in RestRun(n, ls).members <==> l.command.action == "ADD" {
        assert RestRun(n, ls) == RestRun(RestStep(n, ls[0]), ls[1..]);
      }
    } else {
      l := ls[0];
      forall n ensures OrElse(l.key, "") in RestRun(n, ls).members <==> l.command.action == "ADD" {
        MembersStay(RestStep(n, l), ls[1..]);
        AddIsNotRemove();
      }
    }
  }

  lemma AddIsNotRemove()
    ensures "ADD" != "REMOVE"
  {
    assert |"ADD"| == 3 && |"REMOVE"| == 6;
  }

  lemma {:induction false} MembersStay(m: Machine, ls: seq<LogEntry>)
    requires Flat(ls) && forall l :: l in ls ==> !Enrolls(l)
    ensures RestRun(m, ls).members == m.members
    decreases |ls|
  {
    if ls != [] {
      assert ls[0] in ls;
      MembersStep(m, ls[0]);
      MembersStay(RestStep(m, ls[0]), ls[1..]);
    }
  }

  // ----- Any effective command can be seen at the end -----

  function FirstEnd(ls: seq<LogEntry>): (i: nat)
    ensures i <= |ls| && (i < |ls| ==> IsJobCommand(ls[i])) && forall j :: 0 <= j < i ==> !IsJobCommand(ls[j])
  {
    if ls == [] || IsJobCommand(ls[0]) then 0 else 1 + FirstEnd(ls[1..])
  }

  function FirstRelease(ls: seq<LogEntry>): (i: nat)
    ensures i <= |ls| && (i < |ls| ==> ls[i].command.LockRelease?) && forall j :: 0 <= j < i ==> !ls[j].command.LockRelease?
  {
    if ls == [] || ls[0].command.LockRelease? then 0 else 1 + FirstRelease(ls[1..])
  }

  lemma EffectWitness(ls: seq<LogEntry>) returns (m: Machine)
    requires Flat(ls) && exists l :: l in ls && Effective(l)
    ensures RestRun(Rest(m), ls) != Rest(m)
  {
    m := EMPTY;
    if exists l :: l in ls && l.command.LockAcquire? {
      AcquireShows(EMPTY, ls);
    } else if l :| l in ls && l.command.JobSubmit? {
      SubmitShows(EMPTY, ls, l);
    } else if l :| l in ls && l.command.JobAssign? {
      m := EMPTY.(jobs := map[JobId(l) := NewJob(l.(command := JobSubmit(JobSpec("", "", 0, 0.0, 0))))]);
      AssignShows(m, ls, l);
    } else if l :| l in ls && IsJobCommand(l) {
      m := EndWitness(ls);
    } else if l :| l in ls && l.command.LockRelease? {
      m := ReleaseWitness(ls);
    } else {
      m := MemberWitness(ls);
    }
  }

  lemma EndWitness(ls: seq<LogEntry>) returns (m: Machine)
    requires Flat(ls) && (exists l :: l in ls && IsJobCommand(l))
    requires forall l :: l in ls ==> !l.command.JobSubmit? && !l.command.JobAssign?
    ensures RestRun(Rest(m), ls) != Rest(m)
  {
    var i := FirstEnd(ls);
    assert i < |ls| && ls[i] in ls;
    m := EMPTY.(jobs := map[JobId(ls[i]) := Waiting(ls[i])]);
    EndShows(m, ls, i);
  }

  lemma ReleaseWitness(ls: seq<LogEntry>) returns (m: Machine)
    requires Flat(ls) && (exists l :: l in ls && l.command.LockRelease?)
    requires forall l :: l in ls ==> !l.command.LockAcquire?
    ensures RestRun(Rest(m), ls) != Rest(m)
  {
    var i := FirstRelease(ls);
    m := EMPTY.(locks := map[Resource(ls[i]) := Releasable(ls[i])]);
    ReleaseShows(m, ls, i);
  }

  lemma MemberWitness(ls: seq<LogEntry>) returns (m: Machine)
    requires Flat(ls) && exists l :: l in ls && Enrolls(l)
    ensures RestRun(Rest(m), ls) != Rest(m)
  {
    var l := MemberShows(EMPTY, ls);
    m := if l.command.action == "ADD" then EMPTY else EMPTY.(members := {OrElse(l.key, "")});
  }
}
