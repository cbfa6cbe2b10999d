/**
 Replay of logged entries and commit markers, in any mixture: what it makes of the log, of the commit and
 applied indices, and of the state machine, said of the records themselves.
 */
module EntryReplay {
  import opened Wrappers
  import opened Models
  import RaftLog
  import opened StateMachine
  import opened Engine
  import Wal
  import opened Recovery

  /** The entries that the first n records add to the log: each the next by number. */
  function Logged(ps: seq<Wal.Payload>, n: nat): (es: seq<LogEntry>)
    requires n <= |ps|
    ensures forall i :: 0 <= i < |es| ==> es[i].index == i + 1
  {
    if n == 0 then []
    else
      var front := Logged(ps, n - 1);
      if ps[n - 1].Entry? && ps[n - 1].entry.index == |front| + 1 then front + [ps[n - 1].entry] else front
  }

  /** Record j is an entry beyond a gap, which the log refuses. */
  predicate Gap(ps: seq<Wal.Payload>, j: nat)
    requires j < |ps|
  {
    ps[j].Entry? && ps[j].entry.index > |Logged(ps, j)| + 1
  }

  /** Record j is an entry to be executed: marked committed, new or repeated. */
  predicate Counts(ps: seq<Wal.Payload>, j: nat)
    requires j < |ps|
  {
    ps[j].Entry? && ps[j].committed && !Gap(ps, j)
  }

  function Executed(ps: seq<Wal.Payload>, n: nat): seq<LogEntry>
    requires n <= |ps|
  {
    if n == 0 then [] else Executed(ps, n - 1) + if Counts(ps, n - 1) then [ps[n - 1].entry] else []
  }

  /** How far record j says that the log is committed: an executed entry its own number, a marker what it names of the log so far. */
  function CommitSaid(ps: seq<Wal.Payload>, j: nat): int
    requires j < |ps|
  {
    if Counts(ps, j) then ps[j].entry.index
    else if ps[j].CommitMarker? then (if ps[j].index < |Logged(ps, j)| then ps[j].index else |Logged(ps, j)|)
    else 0
  }

  function AppliedSaid(ps: seq<Wal.Payload>, j: nat): int
    requires j < |ps|
  {
    if Counts(ps, j) then ps[j].entry.index else 0
  }

  /** c is the furthest that any of the first n records says, 0 if none says more. */
  ghost predicate FurthestCommit(ps: seq<Wal.Payload>, n: nat, c: int)
    requires n <= |ps|
  {
    && 0 <= c && (c == 0 || exists j :: 0 <= j < n && CommitSaid(ps, j) == c)
    && forall j :: 0 <= j < n ==> CommitSaid(ps, j) <= c
  }

  ghost predicate FurthestApplied(ps: seq<Wal.Payload>, n: nat, a: int)
    requires n <= |ps|
  {
    && 0 <= a && (a == 0 || exists j :: 0 <= j < n && AppliedSaid(ps, j) == a)
    && forall j :: 0 <= j < n ==> AppliedSaid(ps, j) <= a
  }

  ghost predicate NoTransactions(ps: seq<Wal.Payload>) {
    forall i :: 0 <= i < |ps| ==> !SaysCommitted(ps[i])
  }

  /** The node after n records, as the records say. */
  ghost predicate AsSaid(ps: seq<Wal.Payload>, n: nat, node: Node)
    requires n <= |ps|
  {
    && node.log == RaftLog.Log(Logged(ps, n), node.log.commit, node.log.applied, 0, 0)
    && node.log.applied <= node.log.commit <= |node.log.entries|
    && FurthestCommit(ps, n, node.log.commit) && FurthestApplied(ps, n, node.log.applied)
    && node.machine == ApplyLog(EMPTY, Executed(ps, n))
  }

  function Max(x: int, y: int): int { if x < y then y else x }

  /** What one more record does, in the same words. */
  lemma RecordReplays(ps: seq<Wal.Payload>, n: nat, node: Node)
    requires n < |ps| && !SaysCommitted(ps[n])
    requires node.log == RaftLog.Log(Logged(ps, n), node.log.commit, node.log.applied, 0, 0)
    requires 0 <= node.log.applied <= node.log.commit <= |node.log.entries|
    ensures
      var (after, ok) := RecoverOne(node, ps[n]);
      && after.log == RaftLog.Log(Logged(ps, n + 1), Max(node.log.commit, CommitSaid(ps, n)), Max(node.log.applied, AppliedSaid(ps, n)), 0, 0)
      && after.log.commit <= |after.log.entries|
      && after.machine == (if Counts(ps, n) then Apply(node.machine, ps[n].entry).0 else node.machine)
      && (ok <==> !Gap(ps, n) && (Counts(ps, n) ==> Apply(node.machine, ps[n].entry).1.Ok?))
  {
    var es := Logged(ps, n);
    assert RaftLog.LastIndex(node.log) == |es|;
  }

  lemma FurthestNext(ps: seq<Wal.Payload>, n: nat, c: int, a: int)
    requires n < |ps| && FurthestCommit(ps, n, c) && FurthestApplied(ps, n, a)
    ensures FurthestCommit(ps, n + 1, Max(c, CommitSaid(ps, n))) && FurthestApplied(ps, n + 1, Max(a, AppliedSaid(ps, n)))
  {
  }

  lemma ExecutedNext(ps: seq<Wal.Payload>, n: nat)
    requires n < |ps|
    ensures ApplyLog(EMPTY, Executed(ps, n + 1)) ==
            var m := ApplyLog(EMPTY, Executed(ps, n)); if Counts(ps, n) then Apply(m, ps[n].entry).0 else m
  {
    if Counts(ps, n) {
      var m := ApplyLog(EMPTY, Executed(ps, n));
      ApplyLogConcat(EMPTY, Executed(ps, n), [ps[n].entry]);
      assert ApplyLog(m, [ps[n].entry]) == Apply(m, ps[n].entry).0;
    } else {
      assert Executed(ps, n) + [] == Executed(ps, n);
    }
  }

  /**
   Replay rebuilds exactly the log that the entry records number without a gap, commits and applies as far as
   the records say and no further, and executes, in order, just the entries marked committed.
   */
  lemma {:induction false} ReplayIsAsSaid(ps: seq<Wal.Payload>, n: nat)
    requires n <= |ps| && NoTransactions(ps)
    ensures AsSaid(ps, n, RecoverAll(BLANK, ps[..n]))
    decreases n
  {
    if n > 0 {
      var h := n - 1;
      ReplayIsAsSaid(ps, h);
      var before := RecoverAll(BLANK, ps[..h]);
      assert ps[..n][..h] == ps[..h];
      RecordReplays(ps, h, before);
      FurthestNext(ps, h, before.log.commit, before.log.applied);
      ExecutedNext(ps, h);
    } else {
      assert ps[..0] == [];
    }
  }

  /** A record counts as an error exactly when the log refuses it or its execution raises. */
  lemma FailsExactly(ps: seq<Wal.Payload>, n: nat)
    requires n < |ps| && NoTransactions(ps)
    ensures RecoverOne(RecoverAll(BLANK, ps[..n]), ps[n]).1 <==>
            !Gap(ps, n) && (Counts(ps, n) ==> Apply(ApplyLog(EMPTY, Executed(ps, n)), ps[n].entry).1.Ok?)
  {
    ReplayIsAsSaid(ps, n);
    RecordReplays(ps, n, RecoverAll(BLANK, ps[..n]));
  }

  // ----- A log whose entries are all recorded as committed -----

  function EntryRecords(es: seq<LogEntry>): seq<Wal.Payload> {
    seq(|es|, i requires 0 <= i < |es| => Wal.Entry(es[i], true))
  }

  lemma {:induction false} AllExecuted(es: seq<LogEntry>, n: nat)
    requires n <= |es| && forall i :: 0 <= i < |es| ==> es[i].index == i + 1
    ensures Logged(EntryRecords(es), n) == Executed(EntryRecords(es), n) == es[..n]
    decreases n
  {
    if n > 0 {
      AllExecuted(es, n - 1);
      assert es[..n - 1] + [es[n - 1]] == es[..n];
    }
  }

  /** Replaying a log's committed entries rebuilds the log, applied to its end, and the state its entries lead to. */
  lemma {:induction false} EntriesReplay(es: seq<LogEntry>)
    requires forall i :: 0 <= i < |es| ==> es[i].index == i + 1
    ensures RecoverAll(BLANK, EntryRecords(es)) ==
            Node(RaftLog.EMPTY.(entries := es, commit := |es|, applied := |es|), ApplyLog(EMPTY, es))
  {
    var ps, n := EntryRecords(es), |es|;
    ReplayIsAsSaid(ps, n);
    assert ps[..n] == ps && es[..n] == es;
    AllExecuted(es, n);
    if n > 0 {
      AllExecuted(es, n - 1);
      assert CommitSaid(ps, n - 1) == AppliedSaid(ps, n - 1) == n;
    }
  }
}
