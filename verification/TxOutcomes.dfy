/** How a transaction ends: what commit and rollback answer and leave, alone and among others. */
module TxOutcomes {
  import opened Wrappers
  import opened Models
  import opened Transactions
  import opened TxSafety

  // ----- Commit with nothing interleaved -----

  /** The record a commit works on: the prepared one, or the one its context fills in. */
  function Judged(c: Coordinator, id: string, context: Option<Context>): TxRecord
    requires id in c.txs
  {
    if c.txs[id].status == Prepared || context == None then c.txs[id]
    else c.txs[id].(ops := context.value.ops, writes := context.value.writes)
  }

  /** Preparing stores nothing; it ends prepared, timed out or as it was, by the clock, the locks and the versions. */
  lemma PrepareMeans(c: Coordinator, id: string, context: Option<Context>, now: real)
    requires id in c.txs && c.txs[id].status != Prepared
    ensures
      var d, tx := Prepare(c, id, context, now), Judged(c, id, context);
      var late := tx.status != Committed && tx.status != Aborted && now > tx.createdAt + tx.timeout;
      && d.kv == c.kv && d.versions == c.versions
      && d.txs == c.txs[id := tx.(status := d.txs[id].status)]
      && d.txs[id].status == (if late then TimedOut else if CommitAtOnce(c, id, context, now).1 then Prepared else tx.status)
      && (d.txs[id].status != Prepared ==> d.locks == c.locks)
  {
  }

  /** Commit answers true exactly when the transaction is prepared, or in time, unopposed and up to date. */
  lemma CommitAnswers(c: Coordinator, id: string, context: Option<Context>, now: real)
    ensures CommitAtOnce(c, id, context, now).1 <==>
      && id in c.txs
      && var tx := Judged(c, id, context);
      || tx.status == Prepared
      || (&& (tx.status == Committed || tx.status == Aborted || now <= tx.createdAt + tx.timeout)
          && (forall k :: k in tx.writes ==> k !in c.locks || c.locks[k] == id)
          && (forall op :: op in tx.ops ==> op.expected == None || op.expected == Some(Version(c.versions, op.key))))
  {
  }

  /** A commit that answers true stored its operations in order, counted each in the version of its key, and closed. */
  lemma CommitDone(c: Coordinator, id: string, context: Option<Context>, now: real)
    requires CommitAtOnce(c, id, context, now).1
    ensures
      var d, tx := CommitAtOnce(c, id, context, now).0, Judged(c, id, context);
      && d.txs == c.txs[id := tx.(status := Committed)]
      && d.kv == ApplyOps(c.kv, tx.ops)
      && forall k :: Version(d.versions, k) == Version(c.versions, k) + OpsOn(tx.ops, k)
  {
    var tx := Judged(c, id, context);
    forall k ensures Version(BumpAll(c.versions, tx.ops), k) == Version(c.versions, k) + OpsOn(tx.ops, k) {
      BumpCounts(c.versions, tx.ops, k);
    }
  }

  /** A commit that answers false stored nothing and aborted the transaction, if it knew it. */
  lemma CommitRefused(c: Coordinator, id: string, context: Option<Context>, now: real)
    requires !CommitAtOnce(c, id, context, now).1
    ensures
      var d := CommitAtOnce(c, id, context, now).0;
      && d.kv == c.kv && d.versions == c.versions
      && (id !in c.txs ==> d == c)
      && (id in c.txs ==> d.txs == c.txs[id := Judged(c, id, context).(status := Aborted)])
  {
  }

  ghost predicate HeldBy(c: Coordinator, k: string, id: string) {
    k in c.locks && c.locks[k] == id
  }

  lemma CommitUnlocks(c: Coordinator, id: string, context: Option<Context>, now: real)
    requires id in c.txs
    ensures
      var tx := Judged(c, id, context);
      var granted := tx.status != Prepared && VotesYes(c, id, context, now);
      && CommitAtOnce(c, id, context, now).0.locks ==
           Unlock(if granted then LockAll(c.locks, tx.writes.Keys, id) else c.locks, tx.writes.Keys, id)
      && (granted ==> NoConflict(c, id, tx.writes))
  {
  }

  lemma UnlockMeans(locks: map<string, string>, keys: set<string>, id: string, granted: bool, k: string)
    requires granted && k in keys && k in locks ==> locks[k] == id
    ensures
      var left := Unlock(if granted then LockAll(locks, keys, id) else locks, keys, id);
      && (k in left <==> k in locks && !(k in keys && locks[k] == id))
      && (k in left ==> left[k] == locks[k])
  {
  }

  /** Whatever it answers, commit gives back the keys the transaction writes and leaves every other lock alone. */
  lemma CommitReleases(c: Coordinator, id: string, context: Option<Context>, now: real, k: string, holder: string)
    requires id in c.txs
    ensures
      var d := CommitAtOnce(c, id, context, now).0;
      HeldBy(d, k, holder) <==> HeldBy(c, k, holder) && !(holder == id && k in Judged(c, id, context).writes)
  {
    var tx := Judged(c, id, context);
    CommitUnlocks(c, id, context, now);
    UnlockMeans(c.locks, tx.writes.Keys, id, tx.status != Prepared && VotesYes(c, id, context, now), k);
  }

  /** So, where locks were exact, they stay so and the transaction holds none. */
  lemma CommitKeepsExact(c: Coordinator, id: string, context: Option<Context>, now: real)
    requires LocksExact(c) && id in c.txs
    ensures
      var d := CommitAtOnce(c, id, context, now).0;
      LocksExact(d) && forall k :: !HeldBy(d, k, id)
  {
    var (d, ok) := CommitAtOnce(c, id, context, now);
    var p := if c.txs[id].status == Prepared then c else Prepare(c, id, context, now);
    if c.txs[id].status != Prepared { PrepareKeepsLocks(c, id, context, now); }
    CloseKeepsLocks(p, d, id, if ok then Committed else Aborted);
  }

  lemma PrepareKeepsLocks(c: Coordinator, id: string, context: Option<Context>, now: real)
    requires LocksExact(c) && id in c.txs && c.txs[id].status != Prepared
    ensures LocksExact(Prepare(c, id, context, now))
  {
    var d := Prepare(c, id, context, now);
    if VotesYes(c, id, context, now) { GrantKeepsLocks(c, d, id, Loaded(c.txs[id], context)); }
  }

  /** Rollback stores nothing, aborts, and gives back exactly the transaction's own keys. */
  lemma RollbackMeans(c: Coordinator, id: string, k: string, holder: string)
    ensures
      var d := Rollback(c, id);
      && d.kv == c.kv && d.versions == c.versions
      && (id !in c.txs ==> d == c)
      && (id in c.txs ==>
           && d.txs == c.txs[id := c.txs[id].(status := Aborted)]
           && (HeldBy(d, k, holder) <==> HeldBy(c, k, holder) && !(holder == id && k in c.txs[id].writes)))
  {
  }

  // ----- It is the run of its critical sections -----

  ghost function Called(s: Sys, id: string, now: real): Sys
    requires Enabled(s, CallCommit(id))
  {
    var t := Do(s, CallCommit(id));
    if t.stages[id] == Preparing then Do(t, PrepareInCommit(id, now)) else t
  }

  ghost function Ended(s: Sys, id: string, now: real): Sys
    requires Enabled(s, CallCommit(id))
  {
    var t := Called(s, id, now);
    if t.stages[id] == Applying then Do(t, ApplyInCommit(id)) else Do(t, FinishRollback(id))
  }

  lemma CalledIsPrepared(s: Sys, id: string, now: real)
    requires Enabled(s, CallCommit(id))
    ensures
      var t, prepared, context := Called(s, id, now), s.coord.txs[id].status == Prepared, Some(s.contexts[id]);
      && t.coord == (if prepared then s.coord else Prepare(s.coord, id, context, now))
      && t.stages == s.stages[id := if prepared || VotesYes(s.coord, id, context, now) then Applying else RollingBack]
      && t.contexts == s.contexts && t.commits == s.commits
  {
    var stage := Called(s, id, now).stages[id];
    assert s.stages[id := Preparing][id := stage] == s.stages[id := stage];
  }

  /** Commit with nothing interleaved is its critical sections one after the other. */
  lemma CommitIsItsSteps(s: Sys, id: string, now: real)
    requires Enabled(s, CallCommit(id))
    ensures
      var t, (c, ok) := Ended(s, id, now), CommitAtOnce(s.coord, id, Some(s.contexts[id]), now);
      && t.coord == c && t.stages == s.stages[id := Closed] && t.contexts == s.contexts
      && t.commits == if ok then s.commits + [Record(id, c.txs[id].ops)] else s.commits
  {
    CalledIsPrepared(s, id, now);
    var stage := Called(s, id, now).stages[id];
    assert s.stages[id := stage][id := Closed] == s.stages[id := Closed];
  }

  lemma ExtendRun(run: seq<Sys>, step: Step)
    requires IsRun(run) && Enabled(run[|run| - 1], step)
    ensures IsRun(run + [Do(run[|run| - 1], step)])
  {
    assert Next(run[|run| - 1], Do(run[|run| - 1], step));
  }

  /** Any run may go on with such a commit, so what holds of every run holds after it. */
  lemma CommitContinuesRun(run: seq<Sys>, id: string, now: real) returns (longer: seq<Sys>)
    requires IsRun(run) && Enabled(run[|run| - 1], CallCommit(id))
    ensures IsRun(longer) && run <= longer
    ensures longer[|longer| - 1].coord ==
            CommitAtOnce(run[|run| - 1].coord, id, Some(run[|run| - 1].contexts[id]), now).0
  {
    var s := run[|run| - 1];
    CommitIsItsSteps(s, id, now);
    ExtendRun(run, CallCommit(id));
    longer := run + [Do(s, CallCommit(id))];
    var t := longer[|longer| - 1];
    if t.stages[id] == Preparing {
      ExtendRun(longer, PrepareInCommit(id, now));
      longer := longer + [Do(t, PrepareInCommit(id, now))];
    }
    var u := longer[|longer| - 1];
    assert u == Called(s, id, now);
    var last := if u.stages[id] == Applying then ApplyInCommit(id) else FinishRollback(id);
    ExtendRun(longer, last);
    longer := longer + [Do(u, last)];
  }

  // ----- Outcomes over whole runs -----

  /** A transaction that is in the commit order is closed, and is there once. */
  ghost predicate Once(s: Sys) {
    && (forall i :: 0 <= i < |s.commits| ==> s.commits[i].id in s.stages && s.stages[s.commits[i].id] == Closed)
    && (forall i, j :: 0 <= i < j < |s.commits| ==> s.commits[i].id != s.commits[j].id)
  }

  lemma {:induction false} RunOnce(run: seq<Sys>, i: nat)
    requires IsRun(run) && i < |run|
    ensures Once(run[i])
    decreases i
  {
    if i > 0 {
      var h := i - 1;
      RunOnce(run, h);
      assert Next(run[h], run[h + 1]);
      var step :| Enabled(run[h], step) && run[i] == Do(run[h], step);
      StepOnce(run[h], step);
    }
  }

  lemma StepOnce(s: Sys, step: Step)
    requires Once(s) && Enabled(s, step)
    ensures Once(Do(s, step))
  {
    assert forall i :: 0 <= i < |s.commits| ==> s.stages[s.commits[i].id] == Closed;
  }

  /** However transactions interleave, each is applied at most once. */
  lemma AppliedAtMostOnce(run: seq<Sys>, n: nat, i: nat, j: nat)
    requires IsRun(run) && n < |run| && i < j < |run[n].commits|
    ensures run[n].commits[i].id != run[n].commits[j].id
  {
    RunOnce(run, n);
  }

  /** The transaction is on its way out without having been applied. */
  ghost predicate Doomed(s: Sys, id: string) {
    && id in s.stages && (s.stages[id] == RollingBack || s.stages[id] == Closed)
    && forall i :: 0 <= i < |s.commits| ==> s.commits[i].id != id
  }

  lemma StepDooms(s: Sys, step: Step, id: string)
    requires Doomed(s, id) && Enabled(s, step)
    ensures Doomed(Do(s, step), id)
  {
  }

  lemma {:induction false} StaysDoomed(run: seq<Sys>, i: nat, j: nat, id: string)
    requires IsRun(run) && i <= j < |run| && Doomed(run[i], id)
    ensures Doomed(run[j], id)
    decreases j
  {
    if i < j {
      var h := j - 1;
      StaysDoomed(run, i, h, id);
      assert Next(run[h], run[h + 1]);
      var step :| Enabled(run[h], step) && run[j] == Do(run[h], step);
      StepDooms(run[h], step, id);
    }
  }

  /** A transaction whose commit finds its time run out, a key held or a version moved is never applied. */
  lemma RefusedNeverApplies(run: seq<Sys>, i: nat, j: nat, id: string, now: real, n: nat)
    requires IsRun(run) && i + 1 <= j < |run| && n < |run[j].commits|
    requires Enabled(run[i], PrepareInCommit(id, now)) && run[i + 1] == Do(run[i], PrepareInCommit(id, now))
    requires
      var c, tx, context := run[i].coord, run[i].coord.txs[id], run[i].contexts[id];
      || (tx.status != Committed && tx.status != Aborted && now > tx.createdAt + tx.timeout)
      || (exists k :: k in context.writes && k in c.locks && c.locks[k] != id)
      || (exists op :: op in context.ops && op.expected.Some? && op.expected.value != Version(c.versions, op.key))
    ensures run[j].commits[n].id != id
  {
    RunOnce(run, i);
    assert Doomed(run[i + 1], id);
    StaysDoomed(run, i + 1, j, id);
  }
}
