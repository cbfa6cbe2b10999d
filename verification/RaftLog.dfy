/** The compacted Raft log: a window of entries above a snapshot boundary. */
module RaftLog {
  import opened Wrappers
  import opened Models

  datatype Log = Log(entries: seq<LogEntry>, commit: int, applied: int, snapIndex: int, snapTerm: int)

  const EMPTY := Log([], 0, 0, 0, 0)

  /** Entries are numbered consecutively from just above the boundary. */
  ghost predicate Indexed(s: Log) {
    && 0 <= s.snapIndex
    && forall i :: 0 <= i < |s.entries| ==> s.entries[i].index == s.snapIndex + i + 1
  }

  function LastIndex(s: Log): int {
    if s.entries == [] then s.snapIndex else s.entries[|s.entries| - 1].index
  }

  function Numbered(s: Log, e: LogEntry): LogEntry {
    if e.index <= 0 then e.(index := LastIndex(s) + 1) else e
  }

  /** `None` is the ValueError of an index gap. */
  function Append(s: Log, e: LogEntry): Option<Log> {
    if Numbered(s, e).index != LastIndex(s) + 1 then None
    else Some(s.(entries := s.entries + [Numbered(s, e)]))
  }

  function GetEntry(s: Log, index: int): Option<LogEntry> {
    var offset := index - s.snapIndex - 1;
    if 0 <= offset < |s.entries| then Some(s.entries[offset]) else None
  }

  function GetTerm(s: Log, index: int): int {
    if index == 0 then 0
    else if index == s.snapIndex then s.snapTerm
    else match GetEntry(s, index) case Some(e) => e.term case None => 0
  }

  function SliceFrom(s: Log, start: int): seq<LogEntry>
    requires Indexed(s)
  {
    if start > LastIndex(s) then []
    else if start - s.snapIndex - 1 <= 0 then s.entries
    else s.entries[start - s.snapIndex - 1..]
  }

  predicate CheckConsistency(s: Log, prevIndex: int, prevTerm: int) {
    if prevIndex == 0 then true
    else if prevIndex == s.snapIndex then s.snapTerm == prevTerm
    else match GetEntry(s, prevIndex) case Some(e) => e.term == prevTerm case None => false
  }

  /** `None` is the ValueError for truncating into the snapshot. */
  function Truncate(s: Log, from: int): Option<Log>
    requires Indexed(s)
  {
    if from <= s.snapIndex then None
    else if from > LastIndex(s) then Some(s)
    else
      var t := s.(entries := s.entries[..from - s.snapIndex - 1]);
      Some(t.(commit := if t.commit > LastIndex(t) then LastIndex(t) else t.commit))
  }

  /** One step of reconciliation: keep, replace from here on, or append. */
  function Absorb(s: Log, e: LogEntry): (r: Option<Log>)
    requires Indexed(s)
    ensures r.Some? ==> Indexed(r.value) && r.value.snapIndex == s.snapIndex && r.value.applied == s.applied
  {
    match GetEntry(s, e.index)
    case Some(x) => if x.term != e.term then Append(Truncate(s, e.index).value, e) else Some(s)
    case None => Append(s, e)
  }

  /** The log after absorbing the entries, and whether all were absorbed without an exception. */
  function AbsorbAll(s: Log, es: seq<LogEntry>): (r: (Log, bool))
    requires Indexed(s)
    ensures Indexed(r.0) && r.0.snapIndex == s.snapIndex && r.0.applied == s.applied
    decreases |es|
  {
    if es == [] then (s, true)
    else
      match Absorb(s, es[0])
      case None => (s, false)
      case Some(t) => AbsorbAll(t, es[1..])
  }

  datatype Reply = Replied(success: bool, matchIndex: int) | Raised

  function Reconcile(s: Log, prevIndex: int, prevTerm: int, es: seq<LogEntry>): (Log, Reply)
    requires Indexed(s)
  {
    if !CheckConsistency(s, prevIndex, prevTerm) then (s, Replied(false, LastIndex(s)))
    else
      var (t, ok) := AbsorbAll(s, es);
      (t, if ok then Replied(true, LastIndex(t)) else Raised)
  }

  function AdvanceCommit(s: Log, n: int): Log {
    var valid := if n < LastIndex(s) then n else LastIndex(s);
    if valid > s.commit then s.(commit := valid) else s
  }

  /** The entries with indices in [lo, hi) that the log still holds. */
  function Collect(s: Log, lo: int, hi: int): seq<LogEntry>
    decreases hi - lo
  {
    if lo >= hi then []
    else
      (match GetEntry(s, lo) case Some(e) => [e] case None => []) + Collect(s, lo + 1, hi)
  }

  function Unapplied(s: Log): seq<LogEntry> {
    Collect(s, s.applied + 1, s.commit + 1)
  }

  function MarkApplied(s: Log, index: int): Log {
    if index > s.applied then s.(applied := if index < s.commit then index else s.commit) else s
  }

  /** The entries numbered above `index`, as a list comprehension selects them. */
  function Above(es: seq<LogEntry>, index: int): seq<LogEntry> {
    if es == [] then []
    else (if es[0].index > index then [es[0]] else []) + Above(es[1..], index)
  }

  function Compact(s: Log, index: int): Log {
    if index <= s.snapIndex then s
    else
      var target := if index < s.applied then index else s.applied;
      match GetEntry(s, target)
      case None => s
      case Some(e) => s.(snapIndex := e.index, snapTerm := e.term, entries := Above(s.entries, target))
  }

  function Restore(s: Log, index: int, term: int): Log {
    Log(Above(s.entries, index),
        if s.commit < index then index else s.commit,
        if s.applied < index then index else s.applied,
        index, term)
  }

  lemma IndexedLast(s: Log)
    requires Indexed(s)
    ensures LastIndex(s) == s.snapIndex + |s.entries|
  {
  }

  /** On consecutively numbered entries the comprehension is a suffix. */
  lemma {:induction false} AboveIsSuffix(es: seq<LogEntry>, first: int, index: int)
    requires forall i :: 0 <= i < |es| ==> es[i].index == first + i
    ensures Above(es, index) ==
      if index < first then es else if index - first + 1 >= |es| then [] else es[index - first + 1..]
  {
    if es != [] {
      AboveIsSuffix(es[1..], first + 1, index);
    }
  }

  lemma CompactIndexed(s: Log, index: int)
    requires Indexed(s)
    ensures Indexed(Compact(s, index))
  {
    AboveIsSuffix(s.entries, s.snapIndex + 1, if index < s.applied then index else s.applied);
  }

  /** Restoring a snapshot keeps the numbering exactly when the boundary does not move back under entries. */
  lemma RestoreIndexed(s: Log, index: int, term: int)
    requires Indexed(s) && 0 <= index
    ensures Indexed(Restore(s, index, term)) <==> s.snapIndex <= index || s.entries == []
  {
    AboveIsSuffix(s.entries, s.snapIndex + 1, index);
    if index < s.snapIndex && s.entries != [] {
      assert Restore(s, index, term).entries[0].index == s.snapIndex + 1;
    }
  }

  /** The log as the source keeps it, updated in place. */
  class RaftLogStore {
    var entries: seq<LogEntry>
    var commitIndex: int
    var lastApplied: int
    var snapshotLastIndex: int
    var snapshotLastTerm: int

    function View(): Log
      reads this
    {
      Log(entries, commitIndex, lastApplied, snapshotLastIndex, snapshotLastTerm)
    }

    constructor ()
      ensures View() == EMPTY && Indexed(View())
    {
      entries, commitIndex, lastApplied, snapshotLastIndex, snapshotLastTerm := [], 0, 0, 0, 0;
    }

    /** `ok` is false when the source raises ValueError, and then nothing changes. */
    method AppendEntry(e: LogEntry) returns (ok: bool, index: int)
      requires Indexed(View())
      modifies this
      ensures Indexed(View())
      ensures ok == Append(old(View()), e).Some?
      ensures View() == if ok then Append(old(View()), e).value else old(View())
      ensures ok ==> index == LastIndex(View()) == LastIndex(old(View())) + 1
    {
      var expected := LastIndex(View()) + 1;
      var entry := e;
      if entry.index <= 0 {
        entry := entry.(index := expected);
      } else if entry.index != expected {
        return false, 0;
      }
      entries := entries + [entry];
      return true, entry.index;
    }

    method TruncateFrom(from: int) returns (ok: bool, removed: int)
      requires Indexed(View())
      modifies this
      ensures Indexed(View())
      ensures ok == Truncate(old(View()), from).Some?
      ensures View() == if ok then Truncate(old(View()), from).value else old(View())
      ensures ok ==> removed == |old(entries)| - |entries|
    {
      if from <= snapshotLastIndex { return false, 0; }
      if from > LastIndex(View()) { return true, 0; }
      var offset := from - snapshotLastIndex - 1;
      removed := |entries| - offset;
      entries := entries[..offset];
      if commitIndex > LastIndex(View()) { commitIndex := LastIndex(View()); }
      ok := true;
    }

    method ReconcileFollowerEntries(prevIndex: int, prevTerm: int, newEntries: seq<LogEntry>) returns (reply: Reply)
      requires Indexed(View())
      modifies this
      ensures Indexed(View())
      ensures (View(), reply) == Reconcile(old(View()), prevIndex, prevTerm, newEntries)
    {
      if !CheckConsistency(View(), prevIndex, prevTerm) {
        return Replied(false, LastIndex(View()));
      }
      for i := 0 to |newEntries|
        invariant Indexed(View())
        invariant AbsorbAll(old(View()), newEntries) == AbsorbAll(View(), newEntries[i..])
      {
        var e := newEntries[i];
        assert newEntries[i..][0] == e && newEntries[i..][1..] == newEntries[i + 1..];
        var ok, index := true, 0;
        match GetEntry(View(), e.index) {
          case Some(x) =>
            if x.term != e.term {
              var _, _ := TruncateFrom(e.index);
              ok, index := AppendEntry(e);
            }
          case None =>
            ok, index := AppendEntry(e);
        }
        if !ok { return Raised; }
      }
      return Replied(true, LastIndex(View()));
    }

    method AdvanceCommitIndex(n: int) returns (now: int)
      modifies this
      ensures View() == AdvanceCommit(old(View()), n) && now == commitIndex
      ensures old(commitIndex) <= commitIndex && (commitIndex > old(commitIndex) ==> commitIndex <= LastIndex(View()))
    {
      var valid := if n < LastIndex(View()) then n else LastIndex(View());
      if valid > commitIndex { commitIndex := valid; }
      now := commitIndex;
    }

    method GetUnappliedEntries() returns (es: seq<LogEntry>)
      ensures es == Unapplied(View())
    {
      es := [];
      if commitIndex <= lastApplied { return; }
      var idx := lastApplied + 1;
      while idx < commitIndex + 1
        invariant lastApplied + 1 <= idx <= commitIndex + 1
        invariant es + Collect(View(), idx, commitIndex + 1) == Unapplied(View())
      {
        ghost var before, rest := es, Collect(View(), idx + 1, commitIndex + 1);
        match GetEntry(View(), idx) {
          case Some(e) =>
            es := es + [e];
            assert before + ([e] + rest) == es + rest;
          case None =>
            assert before + ([] + rest) == es + rest;
        }
        idx := idx + 1;
      }
    }

    method DoMarkApplied(index: int)
      modifies this
      ensures View() == MarkApplied(old(View()), index)
      ensures old(lastApplied) <= old(commitIndex) ==> old(lastApplied) <= lastApplied <= commitIndex
    {
      if index > lastApplied {
        lastApplied := if index < commitIndex then index else commitIndex;
      }
    }

    /** Answers how many entries are left, or 0 when nothing is compacted; never drops what is not applied. */
    method CompactLogBefore(index: int) returns (left: int)
      requires Indexed(View())
      modifies this
      ensures View() == Compact(old(View()), index) && Indexed(View())
      ensures old(snapshotLastIndex) <= snapshotLastIndex
      ensures snapshotLastIndex > old(snapshotLastIndex) ==> snapshotLastIndex <= lastApplied && snapshotLastIndex <= index
      ensures left == if snapshotLastIndex > old(snapshotLastIndex) then |entries| else 0
    {
      CompactIndexed(View(), index);
      if index <= snapshotLastIndex { return 0; }
      var target := if index < lastApplied then index else lastApplied;
      match GetEntry(View(), target) {
        case None => return 0;
        case Some(e) =>
          snapshotLastIndex := e.index;
          snapshotLastTerm := e.term;
          entries := Above(entries, target);
          left := |entries|;
      }
    }

    method RestoreSnapshot(index: int, term: int)
      modifies this
      ensures View() == Restore(old(View()), index, term)
    {
      snapshotLastIndex := index;
      snapshotLastTerm := term;
      if commitIndex < index { commitIndex := index; }
      if lastApplied < index { lastApplied := index; }
      entries := Above(entries, index);
    }
  }
}
