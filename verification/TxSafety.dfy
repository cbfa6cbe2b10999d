/**
 Concurrent transactions on one coordinator.  Each critical section is one step; between the prepare
 and the apply of a commit the steps of other transactions may come.  A transaction is closed once,
 through its context, and is not prepared again once it is prepared.
 */
module TxSafety {
  import opened Wrappers
  import opened Models
  import opened Transactions

  /** How far a transaction's context has come: still open, or inside commit or rollback, or done. */
  datatype Stage = Open | Preparing | Applying | RollingBack | Closed

  datatype Record = Record(id: string, ops: seq<TxOp>)

  /** The markers written to the write-ahead log. */
  datatype Marker = BeginMark(id: string) | PrepareMark(id: string) | CommitMark(id: string, ops: seq<TxOp>) | AbortMark(id: string)

  datatype Sys = Sys(
    coord: Coordinator,
    contexts: map<string, Context>,
    stages: map<string, Stage>,
    commits: seq<Record>,
    markers: seq<Marker>)

  const INITIAL := Sys(NEW_COORDINATOR, map[], map[], [], [])

  datatype Step =
    | BeginTx(id: string, now: real, timeout: real)
    | Write(id: string, op: TxOp)
    | Read(id: string, key: string)
    | PrepareNow(id: string, withContext: bool, now: real)
    | CallCommit(id: string)
    | PrepareInCommit(id: string, now: real)
    | ApplyInCommit(id: string)
    | CallRollback(id: string)
    | FinishRollback(id: string)

  ghost predicate Known(s: Sys, id: string) {
    id in s.contexts && id in s.stages && id in s.coord.txs
  }

  ghost predicate Enabled(s: Sys, step: Step) {
    match step
    case BeginTx(id, _, _) => id !in s.contexts && id !in s.stages && id !in s.coord.txs
    case Write(id, _) => Known(s, id) && s.stages[id] == Open
    case Read(id, _) => Known(s, id) && s.stages[id] == Open
    case PrepareNow(id, _, _) => Known(s, id) && s.stages[id] == Open && s.coord.txs[id].status != Prepared
    case CallCommit(id) => Known(s, id) && s.stages[id] == Open
    case PrepareInCommit(id, _) => Known(s, id) && s.stages[id] == Preparing
    case ApplyInCommit(id) => Known(s, id) && s.stages[id] == Applying
    case CallRollback(id) => Known(s, id) && s.stages[id] == Open
    case FinishRollback(id) => Known(s, id) && s.stages[id] == RollingBack
  }

  ghost function PrepareStep(s: Sys, id: string, context: Option<Context>, now: real): Sys {
    s.(coord := Prepare(s.coord, id, context, now),
       markers := s.markers + if VotesYes(s.coord, id, context, now) then [PrepareMark(id)] else [])
  }

  ghost function Do(s: Sys, step: Step): Sys
    requires Enabled(s, step)
  {
    match step
    case BeginTx(id, now, timeout) =>
      s.(coord := Begin(s.coord, id, now, timeout), contexts := s.contexts[id := NEW_CONTEXT],
         stages := s.stages[id := Open], markers := s.markers + [BeginMark(id)])
    case Write(id, op) => s.(contexts := s.contexts[id := Buffer(s.contexts[id], op)])
    case Read(id, key) =>
      s.(contexts := s.contexts[id := BufferRead(s.contexts[id], key, Lookup(s.coord.kv, key, Null))])
    case PrepareNow(id, withContext, now) => PrepareStep(s, id, if withContext then Some(s.contexts[id]) else None, now)
    case CallCommit(id) =>
      s.(stages := s.stages[id := if s.coord.txs[id].status == Prepared then Applying else Preparing])
    case PrepareInCommit(id, now) =>
      var yes := VotesYes(s.coord, id, Some(s.contexts[id]), now);
      PrepareStep(s, id, Some(s.contexts[id]), now).(stages := s.stages[id := if yes then Applying else RollingBack])
    case ApplyInCommit(id) =>
      var ops := s.coord.txs[id].ops;
      s.(coord := ApplyCommit(s.coord, id), stages := s.stages[id := Closed],
         commits := s.commits + [Record(id, ops)], markers := s.markers + [CommitMark(id, ops)])
    case CallRollback(id) => s.(stages := s.stages[id := RollingBack])
    case FinishRollback(id) =>
      s.(coord := Rollback(s.coord, id), stages := s.stages[id := Closed], markers := s.markers + [AbortMark(id)])
  }

  // ----- Counting operations -----

  function OpsOn(ops: seq<TxOp>, key: string): nat {
    if ops == [] then 0
    else OpsOn(ops[..|ops| - 1], key) + (if ops[|ops| - 1].key == key then 1 else 0)
  }

  function CommittedOn(commits: seq<Record>, key: string): nat {
    if commits == [] then 0
    else CommittedOn(commits[..|commits| - 1], key) + OpsOn(commits[|commits| - 1].ops, key)
  }

  lemma {:induction false} BumpCounts(versions: map<string, int>, ops: seq<TxOp>, key: string)
    ensures Version(BumpAll(versions, ops), key) == Version(versions, key) + OpsOn(ops, key)
    decreases |ops|
  {
    if ops != [] { BumpCounts(versions, ops[..|ops| - 1], key); }
  }

  lemma {:induction false} OnMeansSome(ops: seq<TxOp>, key: string)
    ensures OpsOn(ops, key) > 0 <==> exists op :: op in ops && op.key == key
    decreases |ops|
  {
    if ops != [] {
      var front, last := ops[..|ops| - 1], ops[|ops| - 1];
      assert ops == front + [last];
      OnMeansSome(front, key);
      assert last in ops;
    }
  }

  lemma {:induction false} CommittedGrows(commits: seq<Record>, i: nat, j: nat, key: string)
    requires i <= j <= |commits|
    ensures CommittedOn(commits[..i], key) <= CommittedOn(commits[..j], key)
    decreases j
  {
    if i < j {
      CommittedGrows(commits, i, j - 1, key);
      CommittedNext(commits, j - 1, key);
    }
  }

  lemma CommittedNext(commits: seq<Record>, i: nat, key: string)
    requires i < |commits|
    ensures CommittedOn(commits[..i + 1], key) == CommittedOn(commits[..i], key) + OpsOn(commits[i].ops, key)
  {
    assert commits[..i + 1][..i] == commits[..i];
  }

  // ----- The invariant -----

  ghost predicate KeysMatch(ops: seq<TxOp>, writes: map<string, Value>) {
    forall op :: op in ops ==> op.key in writes
  }

  /** A key is locked by t exactly when t is prepared and writes it. */
  ghost predicate LocksExact(c: Coordinator) {
    && (forall k :: k in c.locks ==>
          var t := c.locks[k]; t in c.txs && c.txs[t].status == Prepared && k in c.txs[t].writes)
    && (forall t, k :: t in c.txs && c.txs[t].status == Prepared && k in c.txs[t].writes ==>
          k in c.locks && c.locks[k] == t)
  }

  ghost predicate RecordsOk(s: Sys) {
    && (forall t :: t in s.contexts ==> KeysMatch(s.contexts[t].ops, s.contexts[t].writes))
    && (forall t :: t in s.coord.txs ==> KeysMatch(s.coord.txs[t].ops, s.coord.txs[t].writes))
    && s.contexts.Keys == s.stages.Keys == s.coord.txs.Keys
    && (forall t :: t in s.stages ==>
          && (s.stages[t] == Applying ==> s.coord.txs[t].status == Prepared)
          && (s.stages[t] == Preparing ==> s.coord.txs[t].status != Prepared))
  }

  /** The expected versions of every prepared transaction are still current. */
  ghost predicate ExpectedCurrent(c: Coordinator) {
    forall t :: t in c.txs && c.txs[t].status == Prepared ==> VersionsCurrent(c.versions, c.txs[t].ops)
  }

  /** Versions count committed operations, and each commit found the versions it expected. */
  ghost predicate VersionsCount(versions: map<string, int>, commits: seq<Record>) {
    && (forall k :: Version(versions, k) == CommittedOn(commits, k))
    && (forall i, op :: 0 <= i < |commits| && op in commits[i].ops && op.expected.Some? ==>
          op.expected.value == CommittedOn(commits[..i], op.key))
  }

  ghost predicate Inv(s: Sys) {
    LocksExact(s.coord) && RecordsOk(s) && ExpectedCurrent(s.coord) && VersionsCount(s.coord.versions, s.commits)
  }

  // ----- Each step keeps the invariant -----

  /** An unprepared transaction's record may change freely as long as it stays unprepared. */
  lemma UnpreparedKeeps(c: Coordinator, d: Coordinator, id: string)
    requires LocksExact(c) && ExpectedCurrent(c)
    requires id in c.txs ==> c.txs[id].status != Prepared
    requires id in d.txs && d.txs == c.txs[id := d.txs[id]] && d.txs[id].status != Prepared
    requires d.locks == c.locks && d.versions == c.versions
    ensures LocksExact(d) && ExpectedCurrent(d)
  {
  }

  lemma GrantKeepsLocks(c: Coordinator, d: Coordinator, id: string, tx: TxRecord)
    requires LocksExact(c) && id in c.txs && c.txs[id].status != Prepared && NoConflict(c, id, tx.writes)
    requires d.txs == c.txs[id := tx.(status := Prepared)] && d.locks == LockAll(c.locks, tx.writes.Keys, id)
    ensures LocksExact(d)
  {
    assert forall k :: k in tx.writes ==> k !in c.locks;
    forall k | k in d.locks
      ensures d.locks[k] in d.txs && d.txs[d.locks[k]].status == Prepared && k in d.txs[d.locks[k]].writes
    {
      if k !in tx.writes { assert k in c.locks && d.locks[k] == c.locks[k] != id; }
    }
  }

  lemma GrantKeepsExpected(c: Coordinator, d: Coordinator, id: string, tx: TxRecord)
    requires ExpectedCurrent(c) && id in c.txs && VersionsCurrent(c.versions, tx.ops)
    requires d.txs == c.txs[id := tx.(status := Prepared)] && d.versions == c.versions
    ensures ExpectedCurrent(d)
  {
  }

  lemma PrepareKeeps(c: Coordinator, id: string, context: Option<Context>, now: real)
    requires id in c.txs && c.txs[id].status != Prepared && LocksExact(c) && ExpectedCurrent(c)
    ensures LocksExact(Prepare(c, id, context, now)) && ExpectedCurrent(Prepare(c, id, context, now))
  {
    var d := Prepare(c, id, context, now);
    var tx := Loaded(c.txs[id], context);
    if VotesYes(c, id, context, now) {
      GrantKeepsLocks(c, d, id, tx);
      GrantKeepsExpected(c, d, id, tx);
    } else {
      UnpreparedKeeps(c, d, id);
    }
  }

  /** Leaving the prepared state releases exactly the transaction's own locks. */
  lemma CloseKeepsLocks(c: Coordinator, d: Coordinator, id: string, status: TxStatus)
    requires LocksExact(c) && id in c.txs && status != Prepared
    requires d.txs == c.txs[id := c.txs[id].(status := status)]
    requires d.locks == Unlock(c.locks, c.txs[id].writes.Keys, id)
    ensures LocksExact(d)
  {
    assert forall k :: k in d.locks ==> k in c.locks && d.locks[k] == c.locks[k] && d.locks[k] != id;
  }

  /** A commit touches no key of another prepared transaction, so the versions those expect stay current. */
  lemma CommitKeepsExpected(c: Coordinator, id: string)
    requires LocksExact(c) && ExpectedCurrent(c) && id in c.txs && c.txs[id].status == Prepared
    requires forall t :: t in c.txs ==> KeysMatch(c.txs[t].ops, c.txs[t].writes)
    ensures ExpectedCurrent(ApplyCommit(c, id))
  {
    var d := ApplyCommit(c, id);
    forall t, op | t in d.txs && d.txs[t].status == Prepared && op in d.txs[t].ops && op.expected.Some?
      ensures op.expected.value == Version(d.versions, op.key)
    {
      assert t != id && d.txs[t] == c.txs[t];
      assert op.key in c.txs[t].writes && c.locks[op.key] == t;
      BumpCounts(c.versions, c.txs[id].ops, op.key);
      OnMeansSome(c.txs[id].ops, op.key);
    }
  }

  lemma CommitKeepsCount(c: Coordinator, commits: seq<Record>, id: string)
    requires VersionsCount(c.versions, commits) && id in c.txs && VersionsCurrent(c.versions, c.txs[id].ops)
    ensures VersionsCount(ApplyCommit(c, id).versions, commits + [Record(id, c.txs[id].ops)])
  {
    var d, ops := ApplyCommit(c, id), c.txs[id].ops;
    var after := commits + [Record(id, ops)];
    var n := |commits|;
    assert after[..n] == commits;
    forall k ensures Version(d.versions, k) == CommittedOn(after, k) {
      BumpCounts(c.versions, ops, k);
    }
    forall i, op | 0 <= i < |after| && op in after[i].ops && op.expected.Some?
      ensures op.expected.value == CommittedOn(after[..i], op.key)
    {
      if i < n { assert after[..i] == commits[..i]; }
    }
  }

  lemma ApplyKeeps(s: Sys, id: string)
    requires Inv(s) && Enabled(s, ApplyInCommit(id))
    ensures Inv(Do(s, ApplyInCommit(id)))
  {
    CloseKeepsLocks(s.coord, ApplyCommit(s.coord, id), id, Committed);
    CommitKeepsExpected(s.coord, id);
    CommitKeepsCount(s.coord, s.commits, id);
    RecordsReplaced(s, Do(s, ApplyInCommit(id)), id);
  }

  lemma RollbackKeeps(s: Sys, id: string)
    requires Inv(s) && Enabled(s, FinishRollback(id))
    ensures Inv(Do(s, FinishRollback(id)))
  {
    CloseKeepsLocks(s.coord, Rollback(s.coord, id), id, Aborted);
    RecordsReplaced(s, Do(s, FinishRollback(id)), id);
  }

  /** One transaction's record and stage change together. */
  lemma RecordsReplaced(s: Sys, d: Sys, id: string)
    requires RecordsOk(s) && Known(s, id) && Known(d, id)
    requires d.contexts == s.contexts && d.stages == s.stages[id := d.stages[id]]
    requires d.coord.txs == s.coord.txs[id := d.coord.txs[id]] && KeysMatch(d.coord.txs[id].ops, d.coord.txs[id].writes)
    requires d.stages[id] == Applying ==> d.coord.txs[id].status == Prepared
    requires d.stages[id] == Preparing ==> d.coord.txs[id].status != Prepared
    ensures RecordsOk(d)
  {
  }

  lemma PrepareStepKeeps(s: Sys, id: string, context: Option<Context>, now: real, stage: Stage)
    requires Inv(s) && Known(s, id) && s.coord.txs[id].status != Prepared
    requires context.Some? ==> KeysMatch(context.value.ops, context.value.writes)
    requires stage == Open || stage == if VotesYes(s.coord, id, context, now) then Applying else RollingBack
    ensures Inv(PrepareStep(s, id, context, now).(stages := s.stages[id := stage]))
  {
    PrepareKeeps(s.coord, id, context, now);
    RecordsReplaced(s, PrepareStep(s, id, context, now).(stages := s.stages[id := stage]), id);
  }

  lemma CallKeeps(s: Sys, id: string, stage: Stage)
    requires Inv(s) && Known(s, id)
    requires stage == Applying ==> s.coord.txs[id].status == Prepared
    requires stage == Preparing ==> s.coord.txs[id].status != Prepared
    ensures Inv(s.(stages := s.stages[id := stage]))
  {
    RecordsReplaced(s, s.(stages := s.stages[id := stage]), id);
  }

  lemma BeginKeeps(s: Sys, id: string, now: real, timeout: real)
    requires Inv(s) && Enabled(s, BeginTx(id, now, timeout))
    ensures Inv(Do(s, BeginTx(id, now, timeout)))
  {
    var d := Do(s, BeginTx(id, now, timeout));
    UnpreparedKeeps(s.coord, d.coord, id);
    assert RecordsOk(d);
  }

  /** Buffering in the context touches nothing of the coordinator. */
  lemma BufferKeeps(s: Sys, id: string, context: Context)
    requires Inv(s) && Known(s, id) && KeysMatch(context.ops, context.writes)
    ensures Inv(s.(contexts := s.contexts[id := context]))
  {
    assert RecordsOk(s.(contexts := s.contexts[id := context]));
  }

  lemma PrepareNowKeeps(s: Sys, step: Step)
    requires Inv(s) && step.PrepareNow? && Enabled(s, step)
    ensures Inv(Do(s, step))
  {
    PrepareStepKeeps(s, step.id, if step.withContext then Some(s.contexts[step.id]) else None, step.now, Open);
    assert s.stages[step.id := Open] == s.stages;
  }

  lemma PrepareInCommitKeeps(s: Sys, step: Step)
    requires Inv(s) && step.PrepareInCommit? && Enabled(s, step)
    ensures Inv(Do(s, step))
  {
    var yes := VotesYes(s.coord, step.id, Some(s.contexts[step.id]), step.now);
    PrepareStepKeeps(s, step.id, Some(s.contexts[step.id]), step.now, if yes then Applying else RollingBack);
  }

  lemma CallCommitKeeps(s: Sys, step: Step)
    requires Inv(s) && step.CallCommit? && Enabled(s, step)
    ensures Inv(Do(s, step))
  {
    CallKeeps(s, step.id, if s.coord.txs[step.id].status == Prepared then Applying else Preparing);
  }

  lemma BufferingKeeps(s: Sys, step: Step)
    requires Inv(s) && (step.Write? || step.Read?) && Enabled(s, step)
    ensures Inv(Do(s, step))
  {
    if step.Write? {
      BufferKeeps(s, step.id, Buffer(s.contexts[step.id], step.op));
    } else {
      BufferKeeps(s, step.id, BufferRead(s.contexts[step.id], step.key, Lookup(s.coord.kv, step.key, Null)));
    }
  }

  lemma StepKeeps(s: Sys, step: Step)
    requires Inv(s) && Enabled(s, step)
    ensures Inv(Do(s, step))
  {
    match step {
      case PrepareNow(_, _, _) => PrepareNowKeeps(s, step);
      case PrepareInCommit(_, _) => PrepareInCommitKeeps(s, step);
      case ApplyInCommit(id) => ApplyKeeps(s, id);
      case FinishRollback(id) => RollbackKeeps(s, id);
      case BeginTx(id, now, timeout) => BeginKeeps(s, id, now, timeout);
      case Write(_, _) => BufferingKeeps(s, step);
      case Read(_, _) => BufferingKeeps(s, step);
      case CallCommit(_) => CallCommitKeeps(s, step);
      case CallRollback(id) => CallKeeps(s, id, RollingBack);
    }
  }

  // ----- Whole runs -----

  ghost predicate IsRun(run: seq<Sys>) {
    && 0 < |run| && run[0] == INITIAL
    && forall i :: 0 <= i < |run| - 1 ==> Next(run[i], run[i + 1])
  }

  ghost predicate Next(s: Sys, t: Sys) {
    exists step :: Enabled(s, step) && t == Do(s, step)
  }

  lemma {:induction false} RunKeeps(run: seq<Sys>, i: nat)
    requires IsRun(run) && i < |run|
    ensures Inv(run[i])
    decreases i
  {
    if i > 0 {
      RunKeeps(run, i - 1);
      assert Next(run[i - 1], run[i]);
      var step :| Enabled(run[i - 1], step) && run[i] == Do(run[i - 1], step);
      StepKeeps(run[i - 1], step);
    }
  }

  /** In every reachable state a key is locked by t exactly when t is prepared and writes it; prepared write sets are disjoint. */
  lemma LocksAreExact(run: seq<Sys>, i: nat)
    requires IsRun(run) && i < |run|
    ensures
      var c := run[i].coord;
      && (forall k, t :: (k in c.locks && c.locks[k] == t) <==>
                         (t in c.txs && c.txs[t].status == Prepared && k in c.txs[t].writes))
      && (forall t, u :: t in c.txs && u in c.txs && t != u && c.txs[t].status == Prepared && c.txs[u].status == Prepared
                         ==> c.txs[t].writes.Keys !! c.txs[u].writes.Keys)
  {
    RunKeeps(run, i);
    var c := run[i].coord;
    forall t, u | t in c.txs && u in c.txs && t != u && c.txs[t].status == Prepared && c.txs[u].status == Prepared
      ensures c.txs[t].writes.Keys !! c.txs[u].writes.Keys
    {
      forall k | k in c.txs[t].writes.Keys ensures k !in c.txs[u].writes.Keys {
        assert c.locks[k] == t;
      }
    }
  }

  /** A key's version is the number of operations committed on it. */
  lemma VersionIsCommitCount(run: seq<Sys>, i: nat, key: string)
    requires IsRun(run) && i < |run|
    ensures Version(run[i].coord.versions, key) == CommittedOn(run[i].commits, key)
  {
    RunKeeps(run, i);
  }

  /** However long the wait, what a transaction expected at prepare is still current when it applies. */
  lemma ExpectedStillCurrentAtApply(run: seq<Sys>, i: nat, id: string, op: TxOp)
    requires IsRun(run) && i < |run| && Enabled(run[i], ApplyInCommit(id))
    requires op in run[i].coord.txs[id].ops && op.expected.Some?
    ensures op.expected.value == Version(run[i].coord.versions, op.key)
  {
    RunKeeps(run, i);
  }

  /** Two commits never expected the same version of the same key. */
  lemma SameVersionNeverTwice(run: seq<Sys>, n: nat, i: nat, j: nat, a: TxOp, b: TxOp)
    requires IsRun(run) && n < |run| && i < j < |run[n].commits|
    requires a in run[n].commits[i].ops && b in run[n].commits[j].ops
    requires a.key == b.key && a.expected.Some?
    ensures a.expected != b.expected
  {
    RunKeeps(run, n);
    var commits := run[n].commits;
    OnMeansSome(commits[i].ops, a.key);
    CommittedNext(commits, i, a.key);
    CommittedGrows(commits, i + 1, j, a.key);
  }
}
