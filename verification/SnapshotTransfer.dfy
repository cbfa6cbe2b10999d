/**
 A restored snapshot behaves like the machine it was taken from, and a follower brought up by a
 snapshot and AppendEntries agrees with one that replayed the whole log.
 */
module SnapshotTransfer {
  import opened Wrappers
  import opened Models
  import opened RaftLog
  import opened StateMachine
  import opened LogRefinement
  import opened LogMatching
  import opened Engine
  import Applied

  predicate Live(m: Machine, r: string, now: real) {
    r in m.locks && !Expired(m.locks[r], now)
  }

  /** Same key-values, jobs, members and counter, and the same lock wherever one is live at t. */
  ghost predicate Agree(m: Machine, n: Machine, t: real) {
    && m.kv == n.kv && m.jobs == n.jobs && m.members == n.members && m.counter == n.counter
    && forall r :: Live(m, r, t) || Live(n, r, t) ==> r in m.locks && r in n.locks && m.locks[r] == n.locks[r]
  }

  /** Agreement from t on covers every lock that is unexpired at any later time. */
  lemma AgreeLater(m: Machine, n: Machine, t: real, now: real, r: string)
    requires Agree(m, n, t) && t <= now
    ensures Live(m, r, now) <==> Live(n, r, now)
    ensures Live(m, r, now) ==> m.locks[r] == n.locks[r]
  {
    assert Live(m, r, now) ==> Live(m, r, t);
    assert Live(n, r, now) ==> Live(n, r, t);
  }

  /** The machines are equal but for locks, dead at t, that only m still holds. */
  ghost predicate Restores(m: Machine, n: Machine, t: real) {
    && m.(locks := n.locks) == n
    && (forall r :: r in n.locks ==> r in m.locks && m.locks[r] == n.locks[r])
    && (forall r :: Stale(m, n, r) ==> Expired(m.locks[r], t))
  }

  predicate Stale(m: Machine, n: Machine, r: string) { r in m.locks && r !in n.locks }

  lemma RestoresAgree(m: Machine, n: Machine, t: real)
    requires Restores(m, n, t)
    ensures Agree(m, n, t)
  {
    forall r | Live(m, r, t) || Live(n, r, t) ensures r in m.locks && r in n.locks && m.locks[r] == n.locks[r] {
      assert !Stale(m, n, r);
    }
  }

  lemma ImportRestores(m: Machine, now: real)
    ensures Restores(m, Import(Export(m, now)), now)
    ensures forall r :: Stale(m, Import(Export(m, now)), r) <==> r in m.locks && Expired(m.locks[r], now)
  {
  }

  /** Every command, batch items included, is time-stamped no earlier than t. */
  predicate NotBefore(e: LogEntry, t: real)
    decreases e, 0
  {
    if e.command.Batch? then AllNotBefore(e.command.operations, t) else t <= e.timestamp
  }

  predicate AllNotBefore(es: seq<LogEntry>, t: real)
    decreases es
  {
    es != [] ==> NotBefore(es[0], t) && AllNotBefore(es[1..], t)
  }

  /** No stale lock arises. */
  ghost predicate NoNewStale(m: Machine, n: Machine, m': Machine, n': Machine) {
    forall r :: Stale(m', n', r) ==> Stale(m, n, r)
  }

  lemma AcquireAgrees(m: Machine, n: Machine, e: LogEntry, t: real)
    requires Restores(m, n, t) && e.command.LockAcquire? && t <= e.timestamp
    ensures Restores(AcquireLock(m, e).0, AcquireLock(n, e).0, t)
    ensures NoNewStale(m, n, AcquireLock(m, e).0, AcquireLock(n, e).0)
    ensures AcquireLock(m, e).1 == AcquireLock(n, e).1
  {
    var r := Resource(e);
    assert Stale(m, n, r) ==> Expired(m.locks[r], e.timestamp);
    var m', n' := AcquireLock(m, e).0, AcquireLock(n, e).0;
    assert forall q :: q != r ==> (Stale(m', n', q) <==> Stale(m, n, q));
  }

  /** A release is answered differently exactly when m refuses it on a stale lock. */
  lemma ReleaseAgrees(m: Machine, n: Machine, e: LogEntry, t: real)
    requires Restores(m, n, t) && e.command.LockRelease?
    ensures Restores(ReleaseLock(m, e).0, ReleaseLock(n, e).0, t)
    ensures NoNewStale(m, n, ReleaseLock(m, e).0, ReleaseLock(n, e).0)
    ensures ReleaseLock(m, e).1 != ReleaseLock(n, e).1 <==> Stale(m, n, Resource(e)) && ReleaseLock(m, e).1 == Flag(false)
  {
    var m', n' := ReleaseLock(m, e).0, ReleaseLock(n, e).0;
    assert forall q :: Stale(m', n', q) ==> Stale(m, n, q) && m'.locks[q] == m.locks[q];
  }

  /** The command, or one in the batch, is a release that m refuses on a stale lock, and the batch completes. */
  predicate Betrays(m: Machine, n: Machine, e: LogEntry)
    decreases e, 0
  {
    if e.command.Batch? then Apply(m, e).1.Ok? && BatchBetrays(m, n, e.command.operations)
    else e.command.LockRelease? && Stale(m, n, Resource(e)) && ReleaseLock(m, e).1 == Flag(false)
  }

  predicate BatchBetrays(m: Machine, n: Machine, ops: seq<LogEntry>)
    decreases ops
  {
    ops != [] && (Betrays(m, n, ops[0]) || BatchBetrays(Apply(m, ops[0]).0, Apply(n, ops[0]).0, ops[1..]))
  }

  lemma StepAgrees(m: Machine, n: Machine, e: LogEntry, t: real)
    requires Restores(m, n, t) && !e.command.Batch? && t <= e.timestamp
    ensures Restores(Step(m, e).0, Step(n, e).0, t) && NoNewStale(m, n, Step(m, e).0, Step(n, e).0)
    ensures Step(m, e).1.Raised? <==> Step(n, e).1.Raised?
    ensures Step(m, e).1 == Step(n, e).1 <==> !Betrays(m, n, e)
  {
    if e.command.LockAcquire? {
      AcquireAgrees(m, n, e, t);
    } else if e.command.LockRelease? {
      ReleaseAgrees(m, n, e, t);
    } else {
      OthersAgree(m, n, e, t);
    }
  }

  lemma OthersAgree(m: Machine, n: Machine, e: LogEntry, t: real)
    requires Restores(m, n, t) && !e.command.Batch? && !e.command.LockAcquire? && !e.command.LockRelease?
    ensures Restores(Step(m, e).0, Step(n, e).0, t) && NoNewStale(m, n, Step(m, e).0, Step(n, e).0)
    ensures Step(m, e).1 == Step(n, e).1
  {
    SameElsewhere(m, n, e);
    assert forall r :: Stale(Step(m, e).0, Step(n, e).0, r) <==> Stale(m, n, r);
  }

  /** Other commands neither see nor change locks. */
  lemma SameElsewhere(m: Machine, n: Machine, e: LogEntry)
    requires !e.command.Batch? && !e.command.LockAcquire? && !e.command.LockRelease?
    requires m.(locks := n.locks) == n
    ensures Step(m, e).1 == Step(n, e).1
    ensures Step(m, e).0.locks == m.locks && Step(n, e).0.locks == n.locks
    ensures Step(m, e).0.(locks := n.locks) == Step(n, e).0
  {
    if IsJobCommand(e) { JobsElsewhere(m, n, e); }
  }

  lemma JobsElsewhere(m: Machine, n: Machine, e: LogEntry)
    requires IsJobCommand(e) && m.(locks := n.locks) == n
    ensures StepJob(m, e).1 == StepJob(n, e).1
    ensures StepJob(m, e).0.locks == m.locks && StepJob(n, e).0.locks == n.locks
    ensures StepJob(m, e).0.(locks := n.locks) == StepJob(n, e).0
  {
  }

  /** Under any command from t on, nested batches included, the machines stay so related, and answer alike unless it betrays them. */
  lemma {:induction false} ApplyAgrees(m: Machine, n: Machine, e: LogEntry, t: real)
    requires Restores(m, n, t) && NotBefore(e, t)
    ensures Restores(Apply(m, e).0, Apply(n, e).0, t) && NoNewStale(m, n, Apply(m, e).0, Apply(n, e).0)
    ensures Apply(m, e).1.Raised? <==> Apply(n, e).1.Raised?
    ensures Apply(m, e).1 == Apply(n, e).1 <==> !Betrays(m, n, e)
    decreases e, 0
  {
    if e.command.Batch? {
      BatchAgrees(m, n, e.command.operations, t);
    } else {
      StepAgrees(m, n, e, t);
    }
  }

  lemma {:induction false} BatchAgrees(m: Machine, n: Machine, ops: seq<LogEntry>, t: real)
    requires Restores(m, n, t) && AllNotBefore(ops, t)
    ensures Restores(ApplyBatch(m, ops).0, ApplyBatch(n, ops).0, t)
    ensures NoNewStale(m, n, ApplyBatch(m, ops).0, ApplyBatch(n, ops).0)
    ensures ApplyBatch(m, ops).1.None? <==> ApplyBatch(n, ops).1.None?
    ensures ApplyBatch(m, ops).1.Some? ==> (ApplyBatch(m, ops).1 == ApplyBatch(n, ops).1 <==> !BatchBetrays(m, n, ops))
    decreases ops
  {
    if ops != [] {
      ApplyAgrees(m, n, ops[0], t);
      if !Apply(m, ops[0]).1.Raised? {
        BatchAgrees(Apply(m, ops[0]).0, Apply(n, ops[0]).0, ops[1..], t);
        if ApplyBatch(m, ops).1.Some? {
          RepliesSplit(Apply(m, ops[0]).1.reply, ApplyBatch(Apply(m, ops[0]).0, ops[1..]).1.value,
                       Apply(n, ops[0]).1.reply, ApplyBatch(Apply(n, ops[0]).0, ops[1..]).1.value);
        }
      }
    }
  }

  lemma RepliesSplit<T>(x: T, xs: seq<T>, y: T, ys: seq<T>)
    ensures [x] + xs == [y] + ys <==> x == y && xs == ys
  {
    if [x] + xs == [y] + ys {
      assert ([x] + xs)[0] == ([y] + ys)[0] && ([x] + xs)[1..] == ([y] + ys)[1..];
    }
  }

  /** What each entry of a log answers. */
  function Outcomes(m: Machine, es: seq<LogEntry>): seq<Outcome>
    decreases |es|
  {
    if es == [] then [] else [Apply(m, es[0]).1] + Outcomes(Apply(m, es[0]).0, es[1..])
  }

  predicate LogBetrays(m: Machine, n: Machine, es: seq<LogEntry>)
    decreases |es|
  {
    es != [] && (Betrays(m, n, es[0]) || LogBetrays(Apply(m, es[0]).0, Apply(n, es[0]).0, es[1..]))
  }

  lemma {:induction false} LogAgrees(m: Machine, n: Machine, es: seq<LogEntry>, t: real)
    requires Restores(m, n, t) && AllNotBefore(es, t)
    ensures Restores(ApplyLog(m, es), ApplyLog(n, es), t)
    ensures Outcomes(m, es) == Outcomes(n, es) <==> !LogBetrays(m, n, es)
    decreases |es|
  {
    if es != [] {
      ApplyAgrees(m, n, es[0], t);
      var m', n' := Apply(m, es[0]).0, Apply(n, es[0]).0;
      LogAgrees(m', n', es[1..], t);
      RepliesSplit(Apply(m, es[0]).1, Outcomes(m', es[1..]), Apply(n, es[0]).1, Outcomes(n', es[1..]));
    }
  }

  /**
   Export then import is a bisimulation: under commands time-stamped from the export on the machines
   keep agreeing, and they answer alike exactly unless the original refuses a release of a lock that had
   expired by the export.
   */
  lemma SnapshotIsBisimulation(m: Machine, now: real, es: seq<LogEntry>)
    requires AllNotBefore(es, now)
    ensures Agree(ApplyLog(m, es), ApplyLog(Import(Export(m, now)), es), now)
    ensures Outcomes(m, es) == Outcomes(Import(Export(m, now)), es) <==> !LogBetrays(m, Import(Export(m, now)), es)
  {
    var n := Import(Export(m, now));
    ImportRestores(m, now);
    LogAgrees(m, n, es, now);
    RestoresAgree(ApplyLog(m, es), ApplyLog(n, es), now);
  }

  /** The first release that tells them apart, in terms of the original alone. */
  lemma ReleaseTellsApart(m: Machine, now: real, e: LogEntry)
    requires e.command.LockRelease?
    ensures ReleaseLock(m, e).1 != ReleaseLock(Import(Export(m, now)), e).1 <==>
            Resource(e) in m.locks && Expired(m.locks[Resource(e)], now) && ReleaseLock(m, e).1 == Flag(false)
  {
    ImportRestores(m, now);
    ReleaseAgrees(m, Import(Export(m, now)), e, now);
  }

  /** No command of the entry releases one of the resources. */
  predicate Spares(e: LogEntry, rs: set<string>)
    decreases e, 0
  {
    if e.command.Batch? then AllSpare(e.command.operations, rs)
    else e.command.LockRelease? ==> Resource(e) !in rs
  }

  predicate AllSpare(es: seq<LogEntry>, rs: set<string>)
    decreases es
  {
    es != [] ==> Spares(es[0], rs) && AllSpare(es[1..], rs)
  }

  ghost predicate StaleIn(m: Machine, n: Machine, rs: set<string>) {
    forall r :: Stale(m, n, r) ==> r in rs
  }

  lemma {:induction false} SparedKeeps(m: Machine, n: Machine, e: LogEntry, t: real, rs: set<string>)
    requires Restores(m, n, t) && NotBefore(e, t) && StaleIn(m, n, rs) && Spares(e, rs)
    ensures !Betrays(m, n, e)
    decreases e, 0
  {
    if e.command.Batch? { SparedBatchKeeps(m, n, e.command.operations, t, rs); }
  }

  lemma {:induction false} SparedBatchKeeps(m: Machine, n: Machine, ops: seq<LogEntry>, t: real, rs: set<string>)
    requires Restores(m, n, t) && AllNotBefore(ops, t) && StaleIn(m, n, rs) && AllSpare(ops, rs)
    ensures !BatchBetrays(m, n, ops)
    decreases ops
  {
    if ops != [] {
      SparedKeeps(m, n, ops[0], t, rs);
      ApplyAgrees(m, n, ops[0], t);
      SparedBatchKeeps(Apply(m, ops[0]).0, Apply(n, ops[0]).0, ops[1..], t, rs);
    }
  }

  lemma {:induction false} SparedLogKeeps(m: Machine, n: Machine, es: seq<LogEntry>, t: real, rs: set<string>)
    requires Restores(m, n, t) && AllNotBefore(es, t) && StaleIn(m, n, rs) && AllSpare(es, rs)
    ensures !LogBetrays(m, n, es)
    decreases |es|
  {
    if es != [] {
      SparedKeeps(m, n, es[0], t, rs);
      ApplyAgrees(m, n, es[0], t);
      SparedLogKeeps(Apply(m, es[0]).0, Apply(n, es[0]).0, es[1..], t, rs);
    }
  }

  /** A log that releases none of the locks expired at the export is answered alike, entry by entry. */
  lemma RepliesAlike(m: Machine, now: real, es: seq<LogEntry>)
    requires AllNotBefore(es, now) && AllSpare(es, set r | r in m.locks && Expired(m.locks[r], now))
    ensures Outcomes(m, es) == Outcomes(Import(Export(m, now)), es)
  {
    var n := Import(Export(m, now));
    ImportRestores(m, now);
    SparedLogKeeps(m, n, es, now, set r | r in m.locks && Expired(m.locks[r], now));
    LogAgrees(m, n, es, now);
  }

  // ----- Bringing up a follower -----

  /** No entry raises when they are applied in order. */
  predicate NoneRaises(m: Machine, es: seq<LogEntry>)
    decreases |es|
  {
    es != [] ==> Apply(m, es[0]).1.Ok? && NoneRaises(Apply(m, es[0]).0, es[1..])
  }

  lemma {:induction false} ApplyEntriesOk(n: Node, es: seq<LogEntry>)
    ensures ApplyEntries(n, es).1 <==> NoneRaises(n.machine, es)
    ensures ApplyEntries(n, es).1 ==> ApplyEntries(n, es).0.machine == ApplyLog(n.machine, es)
    decreases |es|
  {
    if es != [] && Apply(n.machine, es[0]).1.Ok? {
      ApplyEntriesOk(Node(MarkApplied(n.log, es[0].index), Apply(n.machine, es[0]).0), es[1..]);
    }
  }

  lemma {:induction false} RaisesAgree(m: Machine, n: Machine, es: seq<LogEntry>, t: real)
    requires Restores(m, n, t) && AllNotBefore(es, t)
    ensures NoneRaises(m, es) <==> NoneRaises(n, es)
    decreases |es|
  {
    if es != [] {
      ApplyAgrees(m, n, es[0], t);
      RaisesAgree(Apply(m, es[0]).0, Apply(n, es[0]).0, es[1..], t);
    }
  }

  /** A follower whose log ends at or below the snapshot holds nothing but the snapshot afterwards. */
  lemma InstallEmpties(f: Node, full: seq<LogEntry>, req: InstallSnapshot)
    requires Indexed(f.log) && f.log.applied <= f.log.commit <= LastIndex(f.log) <= req.lastIndex <= |full|
    requires IsLog(full) && 0 < req.lastIndex && req.lastTerm == TermAt(full, req.lastIndex)
    ensures Install(f, req).log == Log([], req.lastIndex, req.lastIndex, req.lastIndex, req.lastTerm)
    ensures Refines(Install(f, req).log, full[..req.lastIndex])
  {
    IndexedLast(f.log);
    AboveIsSuffix(f.log.entries, f.log.snapIndex + 1, req.lastIndex);
  }

  /** A log that ends at its snapshot index takes over the rest of the history. */
  lemma ReconcileFills(s: Log, full: seq<LogEntry>, k: int, term: int)
    requires IsLog(full) && 0 < k <= |full| && s == Log([], k, k, k, term) && term == TermAt(full, k)
    ensures Indexed(s)
    ensures Reconcile(s, k, term, full[k..]).1 == Replied(true, |full|)
    ensures Refines(Reconcile(s, k, term, full[k..]).0, full)
    ensures Reconcile(s, k, term, full[k..]).0.commit == k == Reconcile(s, k, term, full[k..]).0.applied
  {
    assert Refines(s, full[..k]);
    assert Match(full[..k], full) by {
      forall i | 0 <= i < k && full[..k][i].term == full[i].term ensures full[..k][..i + 1] == full[..i + 1] {}
    }
    var history := ReconcileHistory(s, full[..k], full, k);
    assert history == full;
    RefinesIndexed(Reconcile(s, k, term, full[k..]).0, full);
    AbsorbKeepsCommit(s, full[k..], k);
  }

  /** The next AppendEntries fills the follower's log and commits as far as the leader has. */
  lemma AppendFills(s: Log, leader: Log, full: seq<LogEntry>)
    requires Refines(leader, full) && 0 < leader.snapIndex <= leader.commit <= |full|
    requires s == Log([], leader.snapIndex, leader.snapIndex, leader.snapIndex, leader.snapTerm)
    ensures Indexed(leader) && Indexed(s)
    ensures
      var req := AppendFor(leader, leader.snapIndex + 1);
      var t := ReceiveAppend(s, req).0;
      && ReceiveAppend(s, req).1 == Some((true, |full|))
      && Refines(t, full) && t.applied == leader.snapIndex && t.commit == leader.commit
      && (CommitMoves(s, req) <==> leader.snapIndex < leader.commit)
  {
    var k := leader.snapIndex;
    AppendForIsTrue(leader, full, k + 1);
    ReconcileFills(s, full, k, leader.snapTerm);
    RefinesIndexed(Reconcile(s, k, leader.snapTerm, full[k..]).0, full);
  }

  lemma {:induction false} AbsorbKeepsCommit(s: Log, es: seq<LogEntry>, k: int)
    requires Indexed(s) && s.commit <= k && s.snapIndex <= k <= LastIndex(s)
    requires forall e :: e in es ==> k < e.index
    ensures AbsorbAll(s, es).0.commit == s.commit
    decreases |es|
  {
    if es != [] {
      assert es[0] in es;
      IndexedLast(s);
      match Absorb(s, es[0]) {
        case None =>
        case Some(t) =>
          IndexedLast(t);
          AbsorbKeepsCommit(t, es[1..], k);
      }
    }
  }

  /**
   `sent` is the leader's log when it sent the snapshot, `later` its log when it sends the entries after
   it, with the same boundary.  The follower's log ends at or below that boundary.
   */
  ghost predicate Lagging(sent: Log, later: Log, full: seq<LogEntry>, f: Log) {
    && Refines(later, full) && 0 < later.snapIndex <= later.commit <= |full|
    && sent.snapIndex == later.snapIndex && sent.snapTerm == later.snapTerm
    && Indexed(f) && f.applied <= f.commit <= LastIndex(f) <= later.snapIndex
  }

  lemma LaggingIndexed(sent: Node, later: Log, full: seq<LogEntry>, f: Node, now: real)
    requires Lagging(sent.log, later, full, f.log)
    ensures Indexed(later) && Indexed(Install(f, SnapshotFor(sent, now)).log)
  {
    RefinesIndexed(later, full);
    InstallEmpties(f, full, SnapshotFor(sent, now));
  }

  /** The follower after installing the snapshot and answering the next AppendEntries. */
  ghost function BroughtUp(sent: Node, later: Log, full: seq<LogEntry>, f: Node, now: real, current: int, term: int)
    : (Node, Option<AppendResponse>)
    requires Lagging(sent.log, later, full, f.log)
  {
    LaggingIndexed(sent, later, full, f, now);
    OnAppendRequest(Install(f, SnapshotFor(sent, now)), current, term, AppendFor(later, later.snapIndex + 1))
  }

  /**
   What a snapshot and a later AppendEntries do to a lagging follower, exactly: its machine agrees with
   the leader's machine when it sent the snapshot, run on through the entries from the boundary to the
   commit index of the later request.
   */
  lemma FollowerAfterSnapshot(sent: Node, later: Log, full: seq<LogEntry>, f: Node, now: real, current: int, term: int)
    requires Lagging(sent.log, later, full, f.log) && current <= term
    requires AllNotBefore(full[later.snapIndex..later.commit], now)
    ensures
      var (f', resp) := BroughtUp(sent, later, full, f, now, current, term);
      && (resp.Some? <==> NoneRaises(sent.machine, full[later.snapIndex..later.commit]))
      && (resp.Some? ==>
        && resp.value.success && f'.log.applied == f'.log.commit == later.commit && Refines(f'.log, full)
        && Restores(ApplyLog(sent.machine, full[later.snapIndex..later.commit]), f'.machine, now))
  {
    var n := BeforeApplying(sent, later, full, f, now, current, term);
    RunOn(sent.machine, n, full, now);
    var (f', resp) := BroughtUp(sent, later, full, f, now, current, term);
    if resp.Some? { assert f'.log == n.log.(applied := n.log.commit); }
  }

  /** The follower with its log filled and committed; what is left is to apply. */
  lemma BeforeApplying(sent: Node, later: Log, full: seq<LogEntry>, f: Node, now: real, current: int, term: int) returns (n: Node)
    requires Lagging(sent.log, later, full, f.log) && current <= term
    ensures Refines(n.log, full) && n.log.snapIndex <= n.log.applied == later.snapIndex && n.log.commit == later.commit
    ensures n.machine == Import(Export(sent.machine, now))
    ensures
      var (f', resp) := BroughtUp(sent, later, full, f, now, current, term);
      && f' == ApplyCommitted(n).0
      && (resp.Some? <==> ApplyCommitted(n).1)
      && (resp.Some? ==> resp.value.success)
  {
    LaggingIndexed(sent, later, full, f, now);
    InstallEmpties(f, full, SnapshotFor(sent, now));
    var installed := Install(f, SnapshotFor(sent, now));
    AppendFills(installed.log, later, full);
    n := installed.(log := ReceiveAppend(installed.log, AppendFor(later, later.snapIndex + 1)).0);
    if n.log.applied == n.log.commit { assert Unapplied(n.log) == []; }
  }

  /** Applying the committed entries on an imported machine follows the exporting machine. */
  lemma RunOn(m: Machine, n: Node, full: seq<LogEntry>, now: real)
    requires Refines(n.log, full) && n.log.snapIndex <= n.log.applied <= n.log.commit <= |full|
    requires n.machine == Import(Export(m, now)) && AllNotBefore(full[n.log.applied..n.log.commit], now)
    ensures ApplyCommitted(n).1 <==> NoneRaises(m, full[n.log.applied..n.log.commit])
    ensures ApplyCommitted(n).1 ==>
      && ApplyCommitted(n).0.log == n.log.(applied := n.log.commit)
      && Restores(ApplyLog(m, full[n.log.applied..n.log.commit]), ApplyCommitted(n).0.machine, now)
  {
    var a, c := n.log.applied, n.log.commit;
    CollectIsSlice(n.log, full, a + 1, c + 1);
    ApplyEntriesOk(n, full[a..c]);
    ImportRestores(m, now);
    RaisesAgree(m, n.machine, full[a..c], now);
    if ApplyCommitted(n).1 {
      AppliedTo(n, full, a, c);
      LogAgrees(m, n.machine, full[a..c], now);
    }
  }

  lemma {:induction false} AppliedTo(n: Node, full: seq<LogEntry>, a: int, c: int)
    requires IsLog(full) && n.log.applied == a <= c == n.log.commit <= |full| && 0 <= a
    requires ApplyEntries(n, full[a..c]).1
    ensures ApplyEntries(n, full[a..c]).0.log == n.log.(applied := c)
    decreases c - a
  {
    if a < c {
      assert full[a..c][0] == full[a] && full[a..c][1..] == full[a + 1..c];
      AppliedTo(Node(MarkApplied(n.log, full[a].index), Apply(n.machine, full[a]).0), full, a + 1, c);
    }
  }

  /** `sent` had applied `before`, which the later history extends. */
  ghost predicate Extended(sent: Node, before: seq<LogEntry>, full: seq<LogEntry>) {
    Applied.Good(sent, before) && before <= full
  }

  /**
   A snapshot sent by a leader that had applied exactly up to its boundary, followed by any entries the
   leader appended and committed since, makes the follower agree with a full replay.
   */
  lemma SnapshotEqualsReplay(
      sent: Node, before: seq<LogEntry>, later: Log, full: seq<LogEntry>, f: Node, now: real, current: int, term: int)
    requires Lagging(sent.log, later, full, f.log) && current <= term
    requires Extended(sent, before, full) && sent.log.snapIndex == sent.log.applied
    requires AllNotBefore(full[later.snapIndex..later.commit], now)
    ensures
      var (f', resp) := BroughtUp(sent, later, full, f, now, current, term);
      resp.Some? ==> Restores(ApplyLog(StateMachine.EMPTY, full[..later.commit]), f'.machine, now)
  {
    FollowerAfterSnapshot(sent, later, full, f, now, current, term);
    var k, c := later.snapIndex, later.commit;
    assert before[..k] == full[..k];
    assert full[..c] == full[..k] + full[k..c];
    ApplyLogConcat(StateMachine.EMPTY, full[..k], full[k..c]);
  }

  // ----- A snapshot sent after the leader applied past its boundary -----

  /** A leader with boundary s that had applied a when it sent the snapshot and has committed c when it sends the entries. */
  ghost predicate Situation(
      s: int, a: int, c: int, sent: Node, before: seq<LogEntry>, later: Log, full: seq<LogEntry>, f: Node, now: real, current: int, term: int)
  {
    && Lagging(sent.log, later, full, f.log) && current <= term && Extended(sent, before, full)
    && later.snapIndex == s && sent.log.applied == a && later.commit == c
    && AllNotBefore(full[s..c], now)
  }

  /** In every such situation a follower that answers agrees with a full replay. */
  ghost predicate AlwaysAgrees(s: int, a: int, c: int) {
    forall sent, before, later, full, f, now, current, term ::
      Situation(s, a, c, sent, before, later, full, f, now, current, term) ==>
        var (f', resp) := BroughtUp(sent, later, full, f, now, current, term);
        resp.Some? ==> Agree(ApplyLog(StateMachine.EMPTY, full[..c]), f'.machine, now)
  }

  /** Snapshots lead to agreement exactly when they are sent at the boundary; sent later, entries count twice. */
  lemma SnapshotExactly(s: int, a: int, c: int)
    requires 0 < s <= a <= c
    ensures AlwaysAgrees(s, a, c) <==> a == s
  {
    if a == s {
      forall sent, before, later, full, f, now, current, term |
        Situation(s, a, c, sent, before, later, full, f, now, current, term)
        ensures
          var (f', resp) := BroughtUp(sent, later, full, f, now, current, term);
          resp.Some? ==> Agree(ApplyLog(StateMachine.EMPTY, full[..c]), f'.machine, now)
      {
        SnapshotEqualsReplay(sent, before, later, full, f, now, current, term);
        var (f', resp) := BroughtUp(sent, later, full, f, now, current, term);
        if resp.Some? { RestoresAgree(ApplyLog(StateMachine.EMPTY, full[..c]), f'.machine, now); }
      }
    } else {
      LateSnapshotCountsTwice(s, a, c);
    }
  }

  lemma {:induction false} TicksTimely(es: seq<LogEntry>, now: real)
    requires forall e :: e in es ==> !e.command.Batch? && now <= e.timestamp
    ensures AllNotBefore(es, now)
    decreases |es|
  {
    if es != [] {
      assert es[0] in es;
      TicksTimely(es[1..], now);
    }
  }

  /** From any count, the ticks run to the end. */
  lemma {:induction false} TicksFrom(a: nat, es: seq<LogEntry>)
    requires forall e :: e in es ==> e.command == Increment(1) && e.key == Some("x")
    ensures NoneRaises(Applied.Ticked(a), es) && ApplyLog(Applied.Ticked(a), es) == Applied.Ticked(a + |es|)
    decreases |es|
  {
    if es != [] {
      assert es[0] in es;
      Applied.Tick(a, es[0]);
      TicksFrom(a + 1, es[1..]);
    }
  }

  /** A log of ticks from boundary s on. */
  function TickLog(s: nat, n: nat, commit: nat, applied: nat): Log
    requires s <= n
  {
    Log(Applied.Ticks(n)[s..], commit, applied, s, 1)
  }

  lemma TickLeader(s: nat, a: nat)
    requires 0 < s <= a
    ensures Applied.Good(Node(TickLog(s, a, a, a), Applied.Ticked(a)), Applied.Ticks(a))
  {
    var full := Applied.Ticks(a);
    Applied.TicksFold(a);
    assert |full| == a;
    assert full[..a] == full;
  }

  lemma TickSituation(s: nat, a: nat, c: nat)
    requires 0 < s <= a <= c
    ensures Situation(s, a, c, Node(TickLog(s, a, a, a), Applied.Ticked(a)), Applied.Ticks(a), TickLog(s, c, c, a),
                      Applied.Ticks(c), Applied.NEW.node, 0.0, 0, 0)
  {
    TickLeader(s, a);
    Applied.TicksFold(c);
    assert Applied.Ticks(a) == Applied.Ticks(c)[..a];
    TicksTimely(Applied.Ticks(c)[s..c], 0.0);
  }

  lemma LateFollower(s: nat, a: nat, c: nat)
    requires 0 < s < a <= c
    ensures
      var sent, later := Node(TickLog(s, a, a, a), Applied.Ticked(a)), TickLog(s, c, c, a);
      && Lagging(sent.log, later, Applied.Ticks(c), Applied.NEW.node.log)
      && var (f', resp) := BroughtUp(sent, later, Applied.Ticks(c), Applied.NEW.node, 0.0, 0, 0);
         resp.Some? && f'.machine.kv == Applied.Ticked(a + (c - s)).kv
  {
    var sent, later, es := Node(TickLog(s, a, a, a), Applied.Ticked(a)), TickLog(s, c, c, a), Applied.Ticks(c)[s..c];
    TickSituation(s, a, c);
    assert NoneRaises(sent.machine, es) && ApplyLog(sent.machine, es).kv == Applied.Ticked(a + (c - s)).kv by {
      TicksFrom(a, es);
    }
    FollowerAfterSnapshot(sent, later, Applied.Ticks(c), Applied.NEW.node, 0.0, 0, 0);
  }

  /** Of c increments, the a - s applied past the boundary count twice: the follower ends at a + (c - s). */
  lemma LateSnapshotCountsTwice(s: nat, a: nat, c: nat)
    requires 0 < s < a <= c
    ensures !AlwaysAgrees(s, a, c)
  {
    TickSituation(s, a, c);
    LateFollower(s, a, c);
    Applied.TicksFold(c);
    assert |Applied.Ticks(c)| == c;
    assert Applied.Ticks(c)[..c] == Applied.Ticks(c);
    assert Applied.Ticked(a + (c - s)).kv["x"] != Applied.Ticked(c).kv["x"];
  }
}
