/**
 Over any interleaving of appends, reconciliations, commit advances, applications, compactions and
 installed snapshots, a node's state machine is the fold of the entries it has applied.
 */
module Applied {
  import opened Wrappers
  import opened Models
  import opened RaftLog
  import opened StateMachine
  import opened LogRefinement
  import opened Engine
  import opened Batches

  datatype Op =
    | Append(entry: LogEntry)
    | Receive(prevIndex: int, prevTerm: int, entries: seq<LogEntry>)
    | Commit(index: int)
    | ApplyAll
    | CompactTo(index: int)
    | InstallFrom(history: seq<LogEntry>, now: real)

  /** The snapshot of a node that has applied exactly the given history, taken at `now`. */
  function SnapshotOf(history: seq<LogEntry>, now: real): InstallSnapshot {
    InstallSnapshot(|history|, TermAt(history, |history|), Export(ApplyLog(StateMachine.EMPTY, history), now))
  }

  function Exec(n: Node, op: Op): Node
    requires Indexed(n.log)
  {
    match op
    case Append(e) => n.(log := RaftLog.Append(n.log, e).GetOr(n.log))
    case Receive(p, t, es) => n.(log := Reconcile(n.log, p, t, es).0)
    case Commit(i) => n.(log := AdvanceCommit(n.log, i))
    case ApplyAll => ApplyCommitted(n).0
    case CompactTo(i) => n.(log := Compact(n.log, i))
    case InstallFrom(history, now) => Install(n, SnapshotOf(history, now))
  }

  /** Indices in order, and the machine equal to entries 1..applied run once each. */
  ghost predicate Good(n: Node, full: seq<LogEntry>) {
    && Refines(n.log, full)
    && n.log.snapIndex <= n.log.applied <= n.log.commit <= |full|
    && n.machine == ApplyLog(StateMachine.EMPTY, full[..n.log.applied])
  }

  /** No received entry contradicts an applied one. */
  ghost predicate KeepsApplied(s: Log, es: seq<LogEntry>) {
    forall e :: e in es && e.index <= s.applied && GetEntry(s, e.index).Some? ==> GetEntry(s, e.index).value.term == e.term
  }

  /** Of the entries to apply, the one that raises, if any, is clean. */
  ghost predicate RaisesClean(m: Machine, es: seq<LogEntry>)
    decreases |es|
  {
    es != [] ==>
      if Apply(m, es[0]).1.Raised? then Clean(es[0])
      else RaisesClean(Apply(m, es[0]).0, es[1..])
  }

  predicate NoneExpired(m: Machine, now: real) {
    forall r :: r in m.locks ==> !Expired(m.locks[r], now)
  }

  /** The snapshot's history continues what this node has applied, and nothing was left out of the export. */
  ghost predicate Continued(n: Node, full: seq<LogEntry>, history: seq<LogEntry>, now: real) {
    && IsLog(history) && n.log.applied <= |history| && n.log.applied <= |full|
    && 0 <= n.log.applied && history[..n.log.applied] == full[..n.log.applied]
    && NoneExpired(ApplyLog(StateMachine.EMPTY, history), now)
  }

  /** Truncation does not reach what is applied, a command that raises is clean, and snapshots are of this history. */
  ghost predicate Safe(n: Node, full: seq<LogEntry>, op: Op) {
    match op
    case Receive(_, _, es) => KeepsApplied(n.log, es)
    case ApplyAll => RaisesClean(n.machine, Unapplied(n.log))
    case InstallFrom(history, now) => Continued(n, full, history, now)
    case _ => true
  }

  // ----- Reconciliation -----

  /** One absorbed entry keeps the applied part of the history. */
  lemma AbsorbOneKeeps(s: Log, full: seq<LogEntry>, e: LogEntry) returns (full': seq<LogEntry>)
    requires Refines(s, full) && s.snapIndex <= s.applied <= s.commit <= |full|
    requires e.index <= s.applied && GetEntry(s, e.index).Some? ==> GetEntry(s, e.index).value.term == e.term
    ensures Indexed(s)
    ensures Absorb(s, e).Some? ==>
      var t := Absorb(s, e).value;
      Refines(t, full') && t.applied <= t.commit <= |full'| && full'[..s.applied] == full[..s.applied]
  {
    RefinesIndexed(s, full);
    LookupAgrees(s, full, e.index);
    full' := full;
    match GetEntry(s, e.index) {
      case None =>
        AppendAgrees(s, full, e);
        full' := full + [Numbered(s, e)];
      case Some(x) =>
        if x.term != e.term { full' := ReplaceKeeps(s, full, e); }
    }
  }

  /** A conflict above the applied entries is cut and replaced. */
  lemma ReplaceKeeps(s: Log, full: seq<LogEntry>, e: LogEntry) returns (full': seq<LogEntry>)
    requires Refines(s, full) && s.snapIndex <= s.applied <= s.commit <= |full|
    requires s.applied < e.index <= |full|
    ensures Indexed(s) && Truncate(s, e.index).Some?
    ensures
      var t := RaftLog.Append(Truncate(s, e.index).value, e);
      && t.Some? && Refines(t.value, full') && t.value.applied <= t.value.commit <= |full'|
      && full'[..s.applied] == full[..s.applied]
  {
    var cut := full[..e.index - 1];
    CutKeeps(s, full, e.index);
    var t := Truncate(s, e.index).value;
    AppendAgrees(t, cut, e);
    full' := cut + [e];
    assert full'[..s.applied] == cut[..s.applied] == full[..s.applied];
  }

  lemma CutKeeps(s: Log, full: seq<LogEntry>, from: int)
    requires Refines(s, full) && s.snapIndex <= s.applied <= s.commit <= |full|
    requires s.applied < from <= |full|
    ensures Indexed(s) && Truncate(s, from).Some?
    ensures
      var t := Truncate(s, from).value;
      Refines(t, full[..from - 1]) && LastIndex(t) == from - 1 && t.applied == s.applied <= t.commit <= from - 1
  {
    RefinesIndexed(s, full);
    TruncateAgrees(s, full, from);
    RefinesIndexed(Truncate(s, from).value, full[..from - 1]);
  }

  lemma AppliedLookups(s: Log, full: seq<LogEntry>, t: Log, full': seq<LogEntry>, es: seq<LogEntry>)
    requires Refines(s, full) && Refines(t, full') && s.snapIndex == t.snapIndex && s.applied == t.applied
    requires s.snapIndex <= s.applied <= |full| && s.applied <= |full'| && full'[..s.applied] == full[..s.applied]
    requires KeepsApplied(s, es)
    ensures KeepsApplied(t, es)
  {
    forall e | e in es && e.index <= t.applied && GetEntry(t, e.index).Some?
      ensures GetEntry(t, e.index).value.term == e.term
    {
      LookupAgrees(s, full, e.index);
      LookupAgrees(t, full', e.index);
      assert full'[..s.applied][e.index - 1] == full[..s.applied][e.index - 1];
    }
  }

  lemma {:induction false} AbsorbAllKeeps(s: Log, full: seq<LogEntry>, es: seq<LogEntry>) returns (full': seq<LogEntry>)
    requires Refines(s, full) && s.snapIndex <= s.applied <= s.commit <= |full| && KeepsApplied(s, es)
    ensures Indexed(s)
    ensures
      var t := AbsorbAll(s, es).0;
      && Refines(t, full') && t.applied <= t.commit <= |full'|
      && full'[..s.applied] == full[..s.applied]
    decreases |es|
  {
    RefinesIndexed(s, full);
    full' := full;
    if es != [] {
      assert forall e :: e in es[1..] ==> e in es;
      var next := AbsorbOneKeeps(s, full, es[0]);
      match Absorb(s, es[0]) {
        case None =>
        case Some(t) =>
          AppliedLookups(s, full, t, next, es[1..]);
          full' := AbsorbAllKeeps(t, next, es[1..]);
      }
    }
  }

  // ----- Application -----

  /** Applying the committed entries from position a on. */
  lemma {:induction false} ApplyKeeps(n: Node, full: seq<LogEntry>)
    requires Good(n, full) && RaisesClean(n.machine, full[n.log.applied..n.log.commit])
    ensures
      var n' := ApplyEntries(n, full[n.log.applied..n.log.commit]).0;
      Good(n', full) && n'.log == n.log.(applied := n'.log.applied) && n.log.applied <= n'.log.applied
    decreases n.log.commit - n.log.applied
  {
    var a, c := n.log.applied, n.log.commit;
    if a < c {
      var es := full[a..c];
      assert es[0] == full[a] && es[1..] == full[a + 1..c];
      var (m, o) := Apply(n.machine, es[0]);
      if o.Raised? {
        CleanRaises(n.machine, es[0]);
      } else {
        var n' := Node(MarkApplied(n.log, es[0].index), m);
        assert n'.log == n.log.(applied := a + 1);
        assert full[..a + 1] == full[..a] + [full[a]];
        ApplyLogConcat(StateMachine.EMPTY, full[..a], [full[a]]);
        assert ApplyLog(n.machine, [full[a]]) == m;
        ApplyKeeps(n', full);
      }
    }
  }

  // ----- Whole runs -----

  lemma AppendKeeps(n: Node, full: seq<LogEntry>, e: LogEntry)
    requires Good(n, full)
    ensures RaftLog.Append(n.log, e).Some? ==>
      Good(n.(log := RaftLog.Append(n.log, e).value), full + [Numbered(n.log, e)])
  {
    AppendAgrees(n.log, full, e);
    assert (full + [Numbered(n.log, e)])[..n.log.applied] == full[..n.log.applied];
  }

  lemma CommitKeeps(n: Node, full: seq<LogEntry>, i: int)
    requires Good(n, full)
    ensures Good(n.(log := AdvanceCommit(n.log, i)), full)
  {
    RefinesIndexed(n.log, full);
  }

  /** The history after a step: what compaction has dropped so far, and then the entries the log shows. */
  function Grown(n: Node, full: seq<LogEntry>, op: Op): seq<LogEntry>
    requires Indexed(n.log) && n.log.snapIndex <= |full|
  {
    match op
    case CompactTo(_) => full
    case InstallFrom(history, _) => history + Exec(n, op).log.entries
    case _ => full[..n.log.snapIndex] + Exec(n, op).log.entries
  }

  lemma GrownIs(n: Node, full: seq<LogEntry>, op: Op, full': seq<LogEntry>)
    requires Good(n, full) && Indexed(n.log) && !op.CompactTo? && !op.InstallFrom?
    requires Refines(Exec(n, op).log, full') && Exec(n, op).log.snapIndex == n.log.snapIndex
    requires n.log.applied <= |full'| && full'[..n.log.applied] == full[..n.log.applied]
    ensures Grown(n, full, op) == full'
  {
    var k := n.log.snapIndex;
    assert full'[..k] == full'[..n.log.applied][..k] == full[..n.log.applied][..k] == full[..k];
  }

  /** After the step the invariant holds of the grown history, in which what was applied is unchanged. */
  ghost predicate Continues(n: Node, full: seq<LogEntry>, op: Op)
    requires Indexed(n.log) && n.log.snapIndex <= |full|
  {
    Good(Exec(n, op), Grown(n, full, op)) && Kept(full, n.log.applied, Grown(n, full, op), Exec(n, op).log.applied)
  }

  /** The first a entries are also the first of the b entries of the other history. */
  ghost predicate Kept(full: seq<LogEntry>, a: int, full': seq<LogEntry>, b: int) {
    0 <= a <= b <= |full'| && a <= |full| && full'[..a] == full[..a]
  }

  lemma KeptTwice(full: seq<LogEntry>, a: int, mid: seq<LogEntry>, b: int, full': seq<LogEntry>, c: int)
    requires Kept(full, a, mid, b) && Kept(mid, b, full', c)
    ensures Kept(full, a, full', c)
  {
    assert full'[..b][..a] == mid[..b][..a];
    assert full'[..a] == full'[..b][..a] && mid[..a] == mid[..b][..a];
  }

  lemma GrownSame(n: Node, full: seq<LogEntry>, op: Op)
    requires Good(n, full) && Indexed(n.log) && !op.InstallFrom? && Exec(n, op).log.entries == n.log.entries
    ensures Grown(n, full, op) == full
  {
    assert full == full[..n.log.snapIndex] + full[n.log.snapIndex..];
  }

  /** A step that leaves the entries alone continues the same history. */
  lemma SameContinues(n: Node, full: seq<LogEntry>, op: Op, n': Node)
    requires Good(n, full) && Indexed(n.log) && !op.InstallFrom? && n' == Exec(n, op)
    requires Good(n', full) && n'.log.entries == n.log.entries && n.log.applied <= n'.log.applied
    ensures Continues(n, full, op)
  {
    GrownSame(n, full, op);
  }

  lemma AppendContinues(n: Node, full: seq<LogEntry>, op: Op)
    requires Good(n, full) && op.Append?
    ensures Indexed(n.log) && Continues(n, full, op)
  {
    RefinesIndexed(n.log, full);
    AppendKeeps(n, full, op.entry);
    if RaftLog.Append(n.log, op.entry).Some? {
      GrownIs(n, full, op, full + [Numbered(n.log, op.entry)]);
    } else {
      GrownSame(n, full, op);
    }
  }

  lemma ReceiveContinues(n: Node, full: seq<LogEntry>, op: Op)
    requires Good(n, full) && op.Receive? && Safe(n, full, op)
    ensures Indexed(n.log) && Continues(n, full, op)
  {
    RefinesIndexed(n.log, full);
    if CheckConsistency(n.log, op.prevIndex, op.prevTerm) {
      var full' := AbsorbAllKeeps(n.log, full, op.entries);
      GrownIs(n, full, op, full');
    } else {
      GrownSame(n, full, op);
    }
  }

  lemma CommitContinues(n: Node, full: seq<LogEntry>, op: Op)
    requires Good(n, full) && op.Commit?
    ensures Indexed(n.log) && Continues(n, full, op)
  {
    RefinesIndexed(n.log, full);
    CommitKeeps(n, full, op.index);
    SameContinues(n, full, op, n.(log := AdvanceCommit(n.log, op.index)));
  }

  lemma UnappliedIs(n: Node, full: seq<LogEntry>)
    requires Good(n, full)
    ensures Unapplied(n.log) == full[n.log.applied..n.log.commit]
  {
    CollectIsSlice(n.log, full, n.log.applied + 1, n.log.commit + 1);
  }

  lemma ApplyContinues(n: Node, full: seq<LogEntry>)
    requires Good(n, full) && Safe(n, full, ApplyAll)
    ensures Indexed(n.log) && Continues(n, full, ApplyAll)
  {
    RefinesIndexed(n.log, full);
    UnappliedIs(n, full);
    ApplyKeeps(n, full);
    SameContinues(n, full, ApplyAll, ApplyEntries(n, Unapplied(n.log)).0);
  }

  lemma ExecKeeps(n: Node, full: seq<LogEntry>, op: Op)
    requires Good(n, full) && Safe(n, full, op)
    ensures Indexed(n.log) && Continues(n, full, op)
  {
    match op {
      case Append(_) => AppendContinues(n, full, op);
      case Receive(_, _, _) => ReceiveContinues(n, full, op);
      case Commit(_) => CommitContinues(n, full, op);
      case ApplyAll => ApplyContinues(n, full);
      case CompactTo(i) =>
        RefinesIndexed(n.log, full);
        CompactAgrees(n.log, full, i);
      case InstallFrom(_, _) => InstallContinues(n, full, op);
    }
  }

  lemma RestoredWhole(m: Machine, now: real)
    ensures Import(Export(m, now)) == m <==> NoneExpired(m, now)
  {
    if NoneExpired(m, now) {
      assert Export(m, now).locks == m.locks;
    } else {
      var r :| r in m.locks && Expired(m.locks[r], now);
      assert r !in Export(m, now).locks;
    }
  }

  lemma AboveKept(s: Log, full: seq<LogEntry>, i: nat)
    requires Refines(s, full) && s.snapIndex <= i
    ensures Above(s.entries, i) == if i <= |full| then full[i..] else []
  {
    if i <= |full| {
      AboveHistory(full, s.snapIndex, i);
    } else {
      AboveIsSuffix(s.entries, s.snapIndex + 1, i);
    }
  }

  lemma Spliced(h: seq<LogEntry>, full: seq<LogEntry>, tail: seq<LogEntry>)
    requires IsLog(h) && IsLog(full) && tail == if |h| <= |full| then full[|h|..] else []
    ensures IsLog(h + tail) && (h + tail)[..|h|] == h && (h + tail)[|h|..] == tail
  {
  }

  /** A restored log stands for the snapshot's history and then the entries it kept. */
  lemma RestoreOnto(s: Log, full: seq<LogEntry>, h: seq<LogEntry>)
    requires Refines(s, full) && IsLog(h) && s.snapIndex <= |h|
    ensures
      var grown := h + Above(s.entries, |h|);
      && Refines(Restore(s, |h|, TermAt(h, |h|)), grown) && grown[..|h|] == h
      && |grown| == if |full| < |h| then |h| else |full|
  {
    AboveKept(s, full, |h|);
    Spliced(h, full, Above(s.entries, |h|));
  }

  lemma InstallContinues(n: Node, full: seq<LogEntry>, op: Op)
    requires Good(n, full) && op.InstallFrom? && Safe(n, full, op)
    ensures Indexed(n.log) && Continues(n, full, op)
  {
    var h, a := op.history, n.log.applied;
    RefinesIndexed(n.log, full);
    RestoreOnto(n.log, full, h);
    RestoredWhole(ApplyLog(StateMachine.EMPTY, h), op.now);
    var grown := h + Above(n.log.entries, |h|);
    assert Grown(n, full, op) == grown;
    assert grown[..a] == h[..a];
  }

  /** A node and the history its log stands for. */
  datatype Tracked = Tracked(node: Node, full: seq<LogEntry>)

  const NEW := Tracked(Node(RaftLog.EMPTY, StateMachine.EMPTY), [])

  ghost predicate Steps(t: Tracked, u: Tracked, op: Op) {
    && Indexed(t.node.log) && t.node.log.snapIndex <= |t.full|
    && u == Tracked(Exec(t.node, op), Grown(t.node, t.full, op))
  }

  ghost predicate Next(t: Tracked, u: Tracked) {
    exists op :: Safe(t.node, t.full, op) && Steps(t, u, op)
  }

  ghost predicate IsRun(run: seq<Tracked>) {
    && 0 < |run| && run[0] == NEW
    && forall i :: 0 <= i < |run| - 1 ==> Next(run[i], run[i + 1])
  }

  lemma NextKeeps(t: Tracked, u: Tracked)
    requires Good(t.node, t.full) && Next(t, u)
    ensures Good(u.node, u.full) && Kept(t.full, t.node.log.applied, u.full, u.node.log.applied)
  {
    var op :| Safe(t.node, t.full, op) && Steps(t, u, op);
    ExecKeeps(t.node, t.full, op);
  }

  /** Over any run the invariant holds, and what was applied stays applied, unchanged. */
  lemma {:induction false} RunKeeps(run: seq<Tracked>, i: nat, j: nat)
    requires IsRun(run) && i <= j < |run|
    ensures Good(run[i].node, run[i].full) && Good(run[j].node, run[j].full)
    ensures Kept(run[i].full, run[i].node.log.applied, run[j].full, run[j].node.log.applied)
    decreases j
  {
    if i < j {
      var h := j - 1;
      RunKeeps(run, i, h);
      assert Next(run[h], run[h + 1]);
      NextKeeps(run[h], run[j]);
      KeptTwice(run[i].full, run[i].node.log.applied, run[h].full, run[h].node.log.applied, run[j].full, run[j].node.log.applied);
    } else if j > 0 {
      var h := j - 1;
      RunKeeps(run, h, h);
      assert Next(run[h], run[h + 1]);
      NextKeeps(run[h], run[j]);
    }
  }

  /**
   From a new node, in every state of a run that never truncates applied entries and in which only clean
   commands raise: snapshot <= applied <= commit <= last index, and the machine is entries 1..applied,
   once each in order.
   */
  lemma AppliedStateIsFold(run: seq<Tracked>, i: nat)
    requires IsRun(run) && i < |run|
    ensures
      var n, full := run[i].node, run[i].full;
      && Refines(n.log, full)
      && n.log.snapIndex <= n.log.applied <= n.log.commit <= LastIndex(n.log) == |full|
      && n.machine == ApplyLog(StateMachine.EMPTY, full[..n.log.applied])
  {
    RunKeeps(run, i, i);
    RefinesIndexed(run[i].node.log, run[i].full);
  }

  // ----- Clean entries -----

  ghost predicate AllClean(es: seq<LogEntry>) {
    forall e :: e in es ==> Clean(e)
  }

  /** What can be said of an operation without looking at the machine: the entries it offers are clean. */
  ghost predicate Offers(n: Node, full: seq<LogEntry>, op: Op) {
    match op
    case Append(e) => Clean(e)
    case Receive(_, _, es) => KeepsApplied(n.log, es) && AllClean(es)
    case InstallFrom(history, now) => Continued(n, full, history, now)
    case _ => true
  }

  lemma {:induction false} CleanEntriesRaiseClean(m: Machine, es: seq<LogEntry>)
    requires AllClean(es)
    ensures RaisesClean(m, es)
    decreases |es|
  {
    if es != [] { CleanEntriesRaiseClean(Apply(m, es[0]).0, es[1..]); }
  }

  lemma {:induction false} CollectFrom(s: Log, lo: int, hi: int)
    ensures forall e :: e in Collect(s, lo, hi) ==> e in s.entries
    decreases hi - lo
  {
    if lo < hi { CollectFrom(s, lo + 1, hi); }
  }

  /** Numbering an entry does not change what it does. */
  lemma NumberedClean(s: Log, e: LogEntry)
    requires Clean(e)
    ensures Clean(Numbered(s, e))
  {
    if e.command.Batch? {
      assert Parts(Numbered(s, e)) == Parts(e);
    } else {
      SingleIsClean(Numbered(s, e));
    }
  }

  lemma {:induction false} AbsorbClean(s: Log, es: seq<LogEntry>)
    requires Indexed(s) && AllClean(s.entries) && AllClean(es)
    ensures AllClean(AbsorbAll(s, es).0.entries)
    decreases |es|
  {
    if es != [] {
      assert es[0] in es;
      match Absorb(s, es[0]) {
        case None =>
        case Some(t) =>
          AbsorbOneClean(s, es[0]);
          AbsorbClean(t, es[1..]);
      }
    }
  }

  lemma AbsorbOneClean(s: Log, e: LogEntry)
    requires Indexed(s) && AllClean(s.entries) && Clean(e) && Absorb(s, e).Some?
    ensures AllClean(Absorb(s, e).value.entries)
  {
    match GetEntry(s, e.index) {
      case None => NumberedClean(s, e);
      case Some(x) =>
        if x.term != e.term { NumberedClean(Truncate(s, e.index).value, e); }
    }
  }

  lemma {:induction false} AboveFrom(es: seq<LogEntry>, index: int)
    ensures forall e :: e in Above(es, index) ==> e in es
    decreases |es|
  {
    if es != [] { AboveFrom(es[1..], index); }
  }

  /** Clean entries in, clean entries in the log: then no application can lose the fold. */
  lemma OffersAreSafe(n: Node, full: seq<LogEntry>, op: Op)
    requires Indexed(n.log) && AllClean(n.log.entries) && Offers(n, full, op)
    ensures Safe(n, full, op) && AllClean(Exec(n, op).log.entries)
  {
    match op {
      case Append(e) => NumberedClean(n.log, e);
      case Receive(p, t, es) => AbsorbClean(n.log, es);
      case Commit(_) =>
      case ApplyAll =>
        CollectFrom(n.log, n.log.applied + 1, n.log.commit + 1);
        CleanEntriesRaiseClean(n.machine, Unapplied(n.log));
        ApplyLeavesEntries(n, Unapplied(n.log));
      case CompactTo(i) =>
        AboveFrom(n.log.entries, if i < n.log.applied then i else n.log.applied);
      case InstallFrom(history, _) => AboveFrom(n.log.entries, |history|);
    }
  }

  lemma {:induction false} ApplyLeavesEntries(n: Node, es: seq<LogEntry>)
    ensures ApplyEntries(n, es).0.log == n.log.(applied := ApplyEntries(n, es).0.log.applied)
    decreases |es|
  {
    if es != [] {
      var (m, o) := Apply(n.machine, es[0]);
      if !o.Raised? { ApplyLeavesEntries(Node(MarkApplied(n.log, es[0].index), m), es[1..]); }
    }
  }

  ghost predicate OfferedNext(t: Tracked, u: Tracked) {
    exists op :: Offers(t.node, t.full, op) && Steps(t, u, op)
  }

  ghost predicate IsOfferedRun(run: seq<Tracked>) {
    && 0 < |run| && run[0] == NEW
    && forall i :: 0 <= i < |run| - 1 ==> OfferedNext(run[i], run[i + 1])
  }

  /** A node that is only ever offered clean entries always equals the fold, however often commands raise. */
  lemma {:induction false} CleanEntriesFold(run: seq<Tracked>, i: nat)
    requires IsOfferedRun(run) && i < |run|
    ensures Good(run[i].node, run[i].full) && AllClean(run[i].node.log.entries)
    decreases i
  {
    if i > 0 {
      var h := i - 1;
      CleanEntriesFold(run, h);
      assert OfferedNext(run[h], run[h + 1]);
      var op :| Offers(run[h].node, run[h].full, op) && Steps(run[h], run[i], op);
      OffersAreSafe(run[h].node, run[h].full, op);
      NextKeeps(run[h], run[i]);
    }
  }

  // ----- Snapshots that come late -----

  /** A log of n increments of one key. */
  function Ticks(n: nat): seq<LogEntry> {
    seq(n, i => LogEntry(i + 1, 1, 0.0, Some("x"), None, None, Increment(1)))
  }

  function Ticked(n: nat): Machine {
    StateMachine.EMPTY.(kv := if n == 0 then map[] else map["x" := Int(n)])
  }

  lemma Tick(a: nat, e: LogEntry)
    requires e.command == Increment(1) && e.key == Some("x")
    ensures Apply(Ticked(a), e).0 == Ticked(a + 1) && Apply(Ticked(a), e).1.Ok?
  {
    assert Apply(Ticked(a), e).0.kv == Ticked(a + 1).kv;
  }

  lemma {:induction false} TicksRun(a: nat, n: nat)
    ensures ApplyLog(Ticked(a), Ticks(a + n)[a..]) == Ticked(a + n)
    decreases n
  {
    var es := Ticks(a + n)[a..];
    if n > 0 {
      assert es[0] == Ticks(a + n)[a] && es[1..] == Ticks(a + 1 + (n - 1))[a + 1..];
      Tick(a, es[0]);
      TicksRun(a + 1, n - 1);
    }
  }

  lemma TicksFold(n: nat)
    ensures IsLog(Ticks(n)) && ApplyLog(StateMachine.EMPTY, Ticks(n)) == Ticked(n)
  {
    assert Ticks(n)[0..] == Ticks(n) && Ticked(0) == StateMachine.EMPTY;
    TicksRun(0, n);
  }

  /** Installing the snapshot of the first i entries on any node that has applied a entries keeps the fold. */
  ghost predicate InstallKeeps(i: nat, a: nat) {
    forall n, full, now ::
      Good(n, full) && n.log.applied == a && n.log.snapIndex <= i <= |full|
      && NoneExpired(ApplyLog(StateMachine.EMPTY, full[..i]), now) ==>
        Good(Install(n, SnapshotOf(full[..i], now)), full)
  }

  /** A snapshot of the same history keeps the fold exactly when it is not older than what is applied. */
  lemma InstallExactly(i: nat, a: nat)
    ensures InstallKeeps(i, a) <==> a <= i
  {
    if a <= i {
      forall n, full, now | Good(n, full) && n.log.applied == a && n.log.snapIndex <= i <= |full|
                            && NoneExpired(ApplyLog(StateMachine.EMPTY, full[..i]), now)
        ensures Good(Install(n, SnapshotOf(full[..i], now)), full)
      {
        InstallForward(n, full, i, now);
      }
    } else {
      OldInstall(i, a);
    }
  }

  lemma InstallForward(n: Node, full: seq<LogEntry>, i: nat, now: real)
    requires Good(n, full) && n.log.applied <= i <= |full| && NoneExpired(ApplyLog(StateMachine.EMPTY, full[..i]), now)
    ensures Good(Install(n, SnapshotOf(full[..i], now)), full)
  {
    RestoredWhole(ApplyLog(StateMachine.EMPTY, full[..i]), now);
    assert TermAt(full[..i], i) == TermAt(full, i);
    RestoreAgrees(n.log, full, i);
  }

  /** An old snapshot takes the counter back while the applied index stays. */
  lemma OldInstall(i: nat, a: nat)
    requires i < a
    ensures !InstallKeeps(i, a)
  {
    var full := Ticks(a);
    var n := Node(Log(full, a, a, 0, 0), Ticked(a));
    TicksFold(a);
    TicksFold(i);
    assert full[..a] == full && full[0..] == full && full[..i] == Ticks(i);
    assert Good(n, full) && NoneExpired(Ticked(i), 0.0);
    RestoredWhole(Ticked(i), 0.0);
    var after := Install(n, SnapshotOf(full[..i], 0.0));
    assert after.log.applied == a && after.machine == Ticked(i) && Ticked(i) != Ticked(a);
    assert !Good(after, full);
  }

  // ----- A batch that raises half way -----

  function Add(key: string): LogEntry {
    LogEntry(0, 1, 1.0, Some(key), None, None, Increment(1))
  }

  /** A batch whose second command raises keeps its first command's effect and is not marked applied, so it is run again. */
  lemma RaisingBatchRepeats(n: Node, batch: LogEntry, rest: seq<LogEntry>)
    requires Unapplied(n.log) == [batch] + rest && batch.command == Batch([Add("a"), Add("b")])
    requires "b" in n.machine.kv && n.machine.kv["b"] == Opaque("text")
    requires "a" in n.machine.kv && n.machine.kv["a"].Int?
    ensures
      var once := ApplyCommitted(n).0;
      var twice := ApplyCommitted(once).0;
      && once.log == twice.log == n.log
      && once.machine.kv == n.machine.kv["a" := Int(n.machine.kv["a"].n + 1)]
      && twice.machine.kv == n.machine.kv["a" := Int(n.machine.kv["a"].n + 2)]
  {
    BatchOnce(n.machine, batch);
    var once := ApplyCommitted(n).0;
    BatchOnce(once.machine, batch);
    assert once == Node(n.log, Apply(n.machine, batch).0);
    assert ApplyCommitted(once).0 == Node(n.log, Apply(once.machine, batch).0);
  }

  lemma BatchOnce(m: Machine, batch: LogEntry)
    requires batch.command == Batch([Add("a"), Add("b")])
    requires "b" in m.kv && m.kv["b"] == Opaque("text") && "a" in m.kv && m.kv["a"].Int?
    ensures Apply(m, batch) == (m.(kv := m.kv["a" := Int(m.kv["a"].n + 1)]), Outcome.Raised)
  {
    var ops := [Add("a"), Add("b")];
    assert ops[1..] == [Add("b")];
    assert "a" != "b";
  }
}
