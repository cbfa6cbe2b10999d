/** The replicated state machine: key-values, leased locks with fencing tokens, jobs and membership. */
module StateMachine {
  import opened Wrappers
  import opened Models

  datatype Machine = Machine(
    kv: map<string, Value>,
    locks: map<string, Lock>,
    jobs: map<string, Job>,
    members: set<string>,
    counter: int)

  const EMPTY := Machine(map[], map[], map[], {}, 0)

  datatype Reply =
    | Nothing
    | Got(value: Value)
    | Counted(n: int)
    | Flag(ok: bool)
    | Locked(resource: string, token: int, holder: string)
    | Busy(resource: string, holder: string)
    | JobState(id: string, job: Job)
    | MemberList(members: set<string>)
    | Ack
    | Batched(replies: seq<Reply>)

  /** What a command returns, or that it raised. */
  datatype Outcome = Ok(reply: Reply) | Raised

  function Resource(e: LogEntry): string { OrElse(e.key, "default_resource") }

  function Holder(e: LogEntry): string { OrElse(e.clientId, "anonymous") }

  function AcquireLock(m: Machine, e: LogEntry): (Machine, Reply)
    requires e.command.LockAcquire?
  {
    var r, h := Resource(e), Holder(e);
    if r in m.locks && !Expired(m.locks[r], e.timestamp) then
      var held := m.locks[r];
      if held.holder == h then
        (m.(locks := m.locks[r := held.(acquiredAt := e.timestamp, ttl := e.command.ttl)]), Locked(r, held.token, h))
      else (m, Busy(r, held.holder))
    else
      var token := m.counter + 1;
      (m.(locks := m.locks[r := Lock(h, token, e.timestamp, e.command.ttl)], counter := token), Locked(r, token, h))
  }

  function ReleaseLock(m: Machine, e: LogEntry): (Machine, Reply)
    requires e.command.LockRelease?
  {
    var r, token := Resource(e), TokenOr(e.fencingToken, e.command.tokenInExtra);
    if r !in m.locks then (m, Flag(true))
    else if token.Some? && m.locks[r].token != token.value then (m, Flag(false))
    else if e.clientId.Some? && m.locks[r].holder != e.clientId.value then (m, Flag(false))
    else (m.(locks := m.locks - {r}), Flag(true))
  }

  /** What a lock command falls back on: one shared resource, one anonymous client, and a token of zero is no token. */
  lemma LockDefaults(e: LogEntry)
    ensures Resource(e) == if e.key.GetOr("") == "" then "default_resource" else e.key.value
    ensures Holder(e) == if e.clientId.GetOr("") == "" then "anonymous" else e.clientId.value
    ensures forall extra :: TokenOr(e.fencingToken, extra) == if e.fencingToken.GetOr(0) == 0 then extra else e.fencingToken
  {
  }

  /** The job a job command is about: its key, or the id in its extra data. */
  function JobId(e: LogEntry): string
    requires IsJobCommand(e)
  {
    OrElse(e.key, if e.command.JobSubmit? then e.command.spec.idInExtra else e.command.idInExtra)
  }

  predicate IsJobCommand(e: LogEntry) {
    e.command.JobSubmit? || e.command.JobAssign? || e.command.JobComplete? || e.command.JobFail? || e.command.JobCancel?
  }

  lemma JobDefaults(e: LogEntry)
    requires IsJobCommand(e)
    ensures e.key.GetOr("") != "" ==> JobId(e) == e.key.value
    ensures e.key.GetOr("") == "" ==>
      JobId(e) == if e.command.JobSubmit? then e.command.spec.idInExtra else e.command.idInExtra
  {
  }

  function NewJob(e: LogEntry): Job
    requires e.command.JobSubmit?
  {
    var spec := e.command.spec;
    Job(spec.payload, spec.priority, Submitted, OrElse(e.clientId, ""), None, None, spec.timeout,
        0, spec.maxRetries, None, None, None, e.timestamp, None)
  }

  /** The token a completion presents, if any. */
  function PresentedToken(e: LogEntry): Option<int>
    requires e.command.JobComplete?
  {
    TokenOr(e.fencingToken, e.command.tokenInExtra)
  }

  function FailedJob(job: Job, e: LogEntry): Job
    requires e.command.JobFail?
  {
    var j := job.(retryCount := job.retryCount + 1, error := e.command.error);
    if j.retryCount >= j.maxRetries then j.(status := Failed, completedAt := Some(e.timestamp))
    else j.(status := Submitted, assignedTo := None, assignedAt := None)
  }

  function StepJob(m: Machine, e: LogEntry): (Machine, Reply)
    requires IsJobCommand(e)
  {
    var id := JobId(e);
    if e.command.JobSubmit? then (m.(jobs := m.jobs[id := NewJob(e)]), JobState(id, NewJob(e)))
    else if id !in m.jobs then (m, if e.command.JobAssign? || e.command.JobFail? then Nothing else Flag(false))
    else
      var job := m.jobs[id];
      match e.command
      case JobAssign(_, worker) =>
        var j := job.(status := Assigned, assignedTo := Some(worker), assignedAt := Some(e.timestamp),
                      token := Some(m.counter + 1));
        (m.(jobs := m.jobs[id := j], counter := m.counter + 1), JobState(id, j))
      case JobComplete(_, _, result) =>
        var token := PresentedToken(e);
        if token.Some? && job.token != token then (m, Flag(false))
        else
          var j := job.(status := Completed, result := result, completedAt := Some(e.timestamp));
          (m.(jobs := m.jobs[id := j]), Flag(true))
      case JobFail(_, _) =>
        var j := FailedJob(job, e);
        (m.(jobs := m.jobs[id := j]), JobState(id, j))
      case _ =>
        if job.status == Completed || job.status == Cancelled then (m, Flag(false))
        else (m.(jobs := m.jobs[id := job.(status := Cancelled, completedAt := Some(e.timestamp))]), Flag(true))
  }

  function StepKv(m: Machine, e: LogEntry): (Machine, Outcome)
    requires e.command.Set? || e.command.Get? || e.command.Delete? || e.command.Cas? || e.command.Increment?
  {
    match e.command
    case Set(v) => (if e.key.Some? then m.(kv := m.kv[e.key.value := v]) else m, Ok(Got(v)))
    case Get => (m, Ok(Got(if OrElse(e.key, "") == "" then Null else Lookup(m.kv, e.key.value, Null))))
    case Delete =>
      if e.key == None then (m, Ok(Got(Null)))
      else (m.(kv := m.kv - {e.key.value}), Ok(Got(Lookup(m.kv, e.key.value, Null))))
    case Cas(expected, v) =>
      if e.key.Some? && Lookup(m.kv, e.key.value, Null) == expected
      then (m.(kv := m.kv[e.key.value := v]), Ok(Flag(true)))
      else (m, Ok(Flag(false)))
    case Increment(delta) =>
      if e.key == None then (m, Ok(Counted(0)))
      else
        match ToInt(Lookup(m.kv, e.key.value, Int(0)))
        case None => (m, Raised)
        case Some(n) => (m.(kv := m.kv[e.key.value := Int(n + delta)]), Ok(Counted(n + delta)))
  }

  function ChangeMembers(m: Machine, e: LogEntry): Machine
    requires e.command.MembershipChange?
  {
    var peer := OrElse(e.key, "");
    if peer == "" then m
    else if e.command.action == "ADD" then m.(members := m.members + {peer})
    else if e.command.action == "REMOVE" then m.(members := m.members - {peer})
    else m
  }

  /** One command that is not a batch. */
  function Step(m: Machine, e: LogEntry): (Machine, Outcome)
    requires !e.command.Batch?
  {
    if e.command.LockAcquire? then (AcquireLock(m, e).0, Ok(AcquireLock(m, e).1))
    else if e.command.LockRelease? then (ReleaseLock(m, e).0, Ok(ReleaseLock(m, e).1))
    else if IsJobCommand(e) then (StepJob(m, e).0, Ok(StepJob(m, e).1))
    else if e.command.MembershipChange? then (ChangeMembers(m, e), Ok(MemberList(ChangeMembers(m, e).members)))
    else if e.command.Noop? then (m, Ok(Ack))
    else if e.command.Unhandled? then (m, Ok(Nothing))
    else StepKv(m, e)
  }

  /** A command, batches included: the machine afterwards (with the partial effects of a batch that raised) and the outcome. */
  function Apply(m: Machine, e: LogEntry): (Machine, Outcome)
    decreases e, 0
  {
    if e.command.Batch? then
      var (m', replies) := ApplyBatch(m, e.command.operations);
      (m', if replies.Some? then Ok(Batched(replies.value)) else Raised)
    else Step(m, e)
  }

  function ApplyBatch(m: Machine, ops: seq<LogEntry>): (Machine, Option<seq<Reply>>)
    decreases ops
  {
    if ops == [] then (m, Some([]))
    else
      var (m', o) := Apply(m, ops[0]);
      if o.Raised? then (m', None)
      else
        var (m'', rest) := ApplyBatch(m', ops[1..]);
        (m'', if rest.Some? then Some([o.reply] + rest.value) else None)
  }

  // ----- Batches flatten to the commands they execute -----

  /** The commands, batches expanded, that applying `e` completes, in order. */
  function Leaves(m: Machine, e: LogEntry): (r: seq<LogEntry>)
    ensures forall l :: l in r ==> !l.command.Batch?
    decreases e, 0
  {
    if e.command.Batch? then BatchLeaves(m, e.command.operations)
    else if Step(m, e).1.Raised? then []
    else [e]
  }

  function BatchLeaves(m: Machine, ops: seq<LogEntry>): (r: seq<LogEntry>)
    ensures forall l :: l in r ==> !l.command.Batch?
    decreases ops
  {
    if ops == [] then []
    else if Apply(m, ops[0]).1.Raised? then Leaves(m, ops[0])
    else Leaves(m, ops[0]) + BatchLeaves(Apply(m, ops[0]).0, ops[1..])
  }

  ghost predicate Flat(leaves: seq<LogEntry>) {
    forall l :: l in leaves ==> !l.command.Batch?
  }

  /** The machine after the given commands, none of them a batch. */
  function Run(m: Machine, leaves: seq<LogEntry>): Machine
    requires Flat(leaves)
    decreases |leaves|
  {
    if leaves == [] then m else Run(Step(m, leaves[0]).0, leaves[1..])
  }

  lemma {:induction false} RunConcat(m: Machine, a: seq<LogEntry>, b: seq<LogEntry>)
    requires Flat(a) && Flat(b)
    ensures Flat(a + b) && Run(m, a + b) == Run(Run(m, a), b)
    decreases |a|
  {
    if a == [] {
      assert a + b == b;
    } else {
      assert (a + b)[0] == a[0] && (a + b)[1..] == a[1..] + b;
      assert a[0] in a;
      RunConcat(Step(m, a[0]).0, a[1..], b);
    }
  }

  /** A command that raises outside a batch changes nothing. */
  lemma StepRaisesCleanly(m: Machine, e: LogEntry)
    requires !e.command.Batch?
    ensures Step(m, e).1.Raised? ==> Step(m, e).0 == m
  {
  }

  /** Applying any entry, nested batches included, runs exactly its leaves once each in order. */
  lemma {:induction false} ApplyIsFlat(m: Machine, e: LogEntry)
    ensures Apply(m, e).0 == Run(m, Leaves(m, e))
    decreases e, 0
  {
    if e.command.Batch? {
      BatchIsFlat(m, e.command.operations);
    } else {
      StepRaisesCleanly(m, e);
      assert Step(m, e).1.Ok? ==> Leaves(m, e)[1..] == [];
    }
  }

  lemma {:induction false} BatchIsFlat(m: Machine, ops: seq<LogEntry>)
    ensures ApplyBatch(m, ops).0 == Run(m, BatchLeaves(m, ops))
    decreases ops
  {
    if ops != [] {
      ApplyIsFlat(m, ops[0]);
      var m' := Apply(m, ops[0]).0;
      BatchIsFlat(m', ops[1..]);
      RunConcat(m, Leaves(m, ops[0]), BatchLeaves(m', ops[1..]));
    }
  }

  /** The machine after a log's entries, once each and in order. */
  function ApplyLog(m: Machine, es: seq<LogEntry>): Machine
    decreases |es|
  {
    if es == [] then m else ApplyLog(Apply(m, es[0]).0, es[1..])
  }

  lemma {:induction false} ApplyLogConcat(m: Machine, a: seq<LogEntry>, b: seq<LogEntry>)
    ensures ApplyLog(m, a + b) == ApplyLog(ApplyLog(m, a), b)
    decreases |a|
  {
    if a == [] {
      assert a + b == b;
    } else {
      assert (a + b)[0] == a[0] && (a + b)[1..] == a[1..] + b;
      ApplyLogConcat(Apply(m, a[0]).0, a[1..], b);
    }
  }

  /** A log's commands with all batches expanded. */
  function LogLeaves(m: Machine, es: seq<LogEntry>): (r: seq<LogEntry>)
    ensures forall l :: l in r ==> !l.command.Batch?
    decreases |es|
  {
    if es == [] then [] else Leaves(m, es[0]) + LogLeaves(Apply(m, es[0]).0, es[1..])
  }

  /** Every log is a history of single commands: what holds of all those histories holds of all logs. */
  lemma {:induction false} LogIsFlat(m: Machine, es: seq<LogEntry>)
    ensures ApplyLog(m, es) == Run(m, LogLeaves(m, es))
    decreases |es|
  {
    if es != [] {
      ApplyIsFlat(m, es[0]);
      var m' := Apply(m, es[0]).0;
      LogIsFlat(m', es[1..]);
      RunConcat(m, Leaves(m, es[0]), LogLeaves(m', es[1..]));
    }
  }

  // ----- Snapshots -----

  datatype Snapshot = Snapshot(
    kv: map<string, Value>,
    locks: map<string, Lock>,
    jobs: map<string, Job>,
    members: set<string>,
    counter: int)

  /** A snapshot leaves out the locks that have expired by `now`. */
  function Export(m: Machine, now: real): Snapshot {
    Snapshot(m.kv, map r | r in m.locks && !Expired(m.locks[r], now) :: m.locks[r], m.jobs, m.members, m.counter)
  }

  function Import(s: Snapshot): Machine {
    Machine(s.kv, s.locks, s.jobs, s.members, s.counter)
  }

  /** The state machine as the source keeps it: dictionaries updated in place. */
  class ReplicatedStateMachine {
    var kv: map<string, Value>
    var locks: map<string, Lock>
    var jobs: map<string, Job>
    var clusterMembers: set<string>
    var fencingTokenCounter: int

    function View(): Machine
      reads this
    {
      Machine(kv, locks, jobs, clusterMembers, fencingTokenCounter)
    }

    constructor ()
      ensures View() == EMPTY
    {
      kv, locks, jobs, clusterMembers, fencingTokenCounter := map[], map[], map[], {}, 0;
    }

    method ApplyCommand(e: LogEntry) returns (o: Outcome)
      modifies this
      ensures (View(), o) == Apply(old(View()), e)
      decreases e, 0
    {
      match e.command {
        case Set(v) =>
          if e.key.Some? { kv := kv[e.key.value := v]; }
          o := Ok(Got(v));
        case Get =>
          o := Ok(Got(if OrElse(e.key, "") == "" then Null else Lookup(kv, e.key.value, Null)));
        case Delete =>
          if e.key == None { return Ok(Got(Null)); }
          o := Ok(Got(Lookup(kv, e.key.value, Null)));
          kv := kv - {e.key.value};
        case Cas(expected, v) =>
          if e.key == None { return Ok(Flag(false)); }
          if Lookup(kv, e.key.value, Null) == expected {
            kv := kv[e.key.value := v];
            return Ok(Flag(true));
          }
          o := Ok(Flag(false));
        case Increment(delta) =>
          if e.key == None { return Ok(Counted(0)); }
          match ToInt(Lookup(kv, e.key.value, Int(0))) {
            case None => return Raised;
            case Some(n) =>
              kv := kv[e.key.value := Int(n + delta)];
              o := Ok(Counted(n + delta));
          }
        case LockAcquire(_) =>
          var r := ApplyLockAcquire(e);
          o := Ok(r);
        case LockRelease(_) =>
          var r := ApplyLockRelease(e);
          o := Ok(r);
        case Batch(_) => o := ApplyBatchEntry(e);
        case JobSubmit(_) =>
          jobs := jobs[JobId(e) := NewJob(e)];
          o := Ok(JobState(JobId(e), NewJob(e)));
        case JobAssign(_, _) =>
          var r := ApplyJobAssign(e);
          o := Ok(r);
        case JobComplete(_, _, _) =>
          var r := ApplyJobComplete(e);
          o := Ok(r);
        case JobFail(_, _) =>
          var id := JobId(e);
          if id !in jobs { return Ok(Nothing); }
          jobs := jobs[id := FailedJob(jobs[id], e)];
          o := Ok(JobState(id, jobs[id]));
        case JobCancel(_) =>
          var r := ApplyJobCancel(e);
          o := Ok(r);
        case MembershipChange(action) =>
          var peer := OrElse(e.key, "");
          if peer != "" {
            if action == "ADD" {
              clusterMembers := clusterMembers + {peer};
            } else if action == "REMOVE" {
              clusterMembers := clusterMembers - {peer};
            }
          }
          o := Ok(MemberList(clusterMembers));
        case Noop => o := Ok(Ack);
        case Unhandled => o := Ok(Nothing);
      }
    }

    method ApplyLockAcquire(e: LogEntry) returns (r: Reply)
      requires e.command.LockAcquire?
      modifies this
      ensures (View(), r) == AcquireLock(old(View()), e)
    {
      var resource, holder := Resource(e), Holder(e);
      if resource in locks && !Expired(locks[resource], e.timestamp) {
        var held := locks[resource];
        if held.holder == holder {
          locks := locks[resource := held.(acquiredAt := e.timestamp, ttl := e.command.ttl)];
          return Locked(resource, held.token, holder);
        }
        return Busy(resource, held.holder);
      }
      fencingTokenCounter := fencingTokenCounter + 1;
      locks := locks[resource := Lock(holder, fencingTokenCounter, e.timestamp, e.command.ttl)];
      r := Locked(resource, fencingTokenCounter, holder);
    }

    method ApplyLockRelease(e: LogEntry) returns (r: Reply)
      requires e.command.LockRelease?
      modifies this
      ensures (View(), r) == ReleaseLock(old(View()), e)
    {
      var resource, token := Resource(e), TokenOr(e.fencingToken, e.command.tokenInExtra);
      if resource !in locks { return Flag(true); }
      if token.Some? && locks[resource].token != token.value { return Flag(false); }
      if e.clientId.Some? && locks[resource].holder != e.clientId.value { return Flag(false); }
      locks := locks - {resource};
      r := Flag(true);
    }

    method ApplyJobAssign(e: LogEntry) returns (r: Reply)
      requires e.command.JobAssign?
      modifies this
      ensures (View(), r) == StepJob(old(View()), e)
    {
      var id := JobId(e);
      if id !in jobs { return Nothing; }
      fencingTokenCounter := fencingTokenCounter + 1;
      var j := jobs[id].(status := Assigned, assignedTo := Some(e.command.worker),
                         assignedAt := Some(e.timestamp), token := Some(fencingTokenCounter));
      jobs := jobs[id := j];
      r := JobState(id, j);
    }

    method ApplyJobComplete(e: LogEntry) returns (r: Reply)
      requires e.command.JobComplete?
      modifies this
      ensures (View(), r) == StepJob(old(View()), e)
    {
      var id, token := JobId(e), PresentedToken(e);
      if id !in jobs { return Flag(false); }
      if token.Some? && jobs[id].token != token { return Flag(false); }
      jobs := jobs[id := jobs[id].(status := Completed, result := e.command.result, completedAt := Some(e.timestamp))];
      r := Flag(true);
    }

    method ApplyJobCancel(e: LogEntry) returns (r: Reply)
      requires e.command.JobCancel?
      modifies this
      ensures (View(), r) == StepJob(old(View()), e)
    {
      var id := JobId(e);
      if id in jobs {
        if jobs[id].status != Completed && jobs[id].status != Cancelled {
          jobs := jobs[id := jobs[id].(status := Cancelled, completedAt := Some(e.timestamp))];
          return Flag(true);
        }
      }
      r := Flag(false);
    }

    method ApplyBatchEntry(e: LogEntry) returns (o: Outcome)
      requires e.command.Batch?
      modifies this
      ensures (View(), o) == Apply(old(View()), e)
      decreases e.command.operations, 1
    {
      var ops := e.command.operations;
      var replies: seq<Reply> := [];
      assert ops[0..] == ops && forall rest: seq<Reply> :: [] + rest == rest;
      for i := 0 to |ops|
        invariant
          var (m, rest) := ApplyBatch(View(), ops[i..]);
          ApplyBatch(old(View()), ops) == (m, if rest.Some? then Some(replies + rest.value) else None)
      {
        assert ops[i..][0] == ops[i] && ops[i..][1..] == ops[i + 1..];
        ghost var before := replies;
        var r := ApplyCommand(ops[i]);
        if r.Raised? { return Raised; }
        replies := replies + [r.reply];
        assert forall rest: seq<Reply> :: before + ([r.reply] + rest) == replies + rest;
      }
      assert ops[|ops|..] == [] && replies + [] == replies;
      o := Ok(Batched(replies));
    }

    method ImportState(snapshot: Snapshot)
      modifies this
      ensures View() == Import(snapshot)
    {
      kv := snapshot.kv;
      fencingTokenCounter := snapshot.counter;
      clusterMembers := snapshot.members;
      locks := snapshot.locks;
      jobs := snapshot.jobs;
    }
  }
}
