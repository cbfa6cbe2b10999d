/**
 The compacted log refines the unbounded log it was compacted from: `full` is the whole history of
 entries 1, 2, ..., of which the compacted log keeps only those above its boundary.
 */
module LogRefinement {
  import opened Wrappers
  import opened Models
  import opened RaftLog

  /** An unbounded log: entry i is stored at position i - 1. */
  ghost predicate IsLog(full: seq<LogEntry>) {
    forall i :: 0 <= i < |full| ==> full[i].index == i + 1
  }

  function TermAt(full: seq<LogEntry>, index: int): int {
    if 0 < index <= |full| then full[index - 1].term else 0
  }

  ghost predicate Refines(s: Log, full: seq<LogEntry>) {
    && IsLog(full)
    && 0 <= s.snapIndex <= |full|
    && s.entries == full[s.snapIndex..]
    && s.snapTerm == TermAt(full, s.snapIndex)
  }

  /** The same log, never compacted. */
  function Uncompacted(s: Log, full: seq<LogEntry>): Log {
    s.(entries := full, snapIndex := 0, snapTerm := 0)
  }

  lemma RefinesIndexed(s: Log, full: seq<LogEntry>)
    requires Refines(s, full)
    ensures Indexed(s) && Indexed(Uncompacted(s, full)) && Refines(Uncompacted(s, full), full)
    ensures LastIndex(s) == LastIndex(Uncompacted(s, full)) == |full|
  {
    var u := Uncompacted(s, full);
    assert full[0..] == full;
  }

  /** Lookups agree with the unbounded log exactly outside the compacted range. */
  lemma LookupAgrees(s: Log, full: seq<LogEntry>, index: int)
    requires Refines(s, full)
    ensures GetEntry(s, index) == GetEntry(Uncompacted(s, full), index) <==> index < 1 || s.snapIndex < index
    ensures s.snapIndex < index <= |full| ==> GetEntry(s, index) == Some(full[index - 1])
    ensures index <= s.snapIndex || |full| < index ==> GetEntry(s, index) == None
  {
  }

  /** Collecting above the boundary gives the slice of the history. */
  lemma {:induction false} CollectIsSlice(s: Log, full: seq<LogEntry>, lo: int, hi: int)
    requires Refines(s, full) && s.snapIndex < lo <= hi <= |full| + 1
    ensures Collect(s, lo, hi) == full[lo - 1..hi - 1]
    decreases hi - lo
  {
    if lo < hi {
      LookupAgrees(s, full, lo);
      CollectIsSlice(s, full, lo + 1, hi);
      assert full[lo - 1..hi - 1] == [full[lo - 1]] + full[lo..hi - 1];
    }
  }

  lemma TermAgrees(s: Log, full: seq<LogEntry>, index: int)
    requires Refines(s, full)
    ensures s.snapIndex <= index ==> GetTerm(s, index) == GetTerm(Uncompacted(s, full), index) == TermAt(full, index)
    ensures 0 < index < s.snapIndex ==> GetTerm(s, index) == 0
  {
  }

  /** Slices agree exactly when they start above the boundary or nothing was compacted. */
  lemma SliceAgrees(s: Log, full: seq<LogEntry>, start: int)
    requires Refines(s, full)
    ensures Indexed(s) && Indexed(Uncompacted(s, full))
    ensures SliceFrom(s, start) == SliceFrom(Uncompacted(s, full), start) <==> s.snapIndex < start || s.snapIndex == 0
    ensures s.snapIndex < start <= |full| + 1 ==> SliceFrom(s, start) == full[start - 1..]
  {
    RefinesIndexed(s, full);
    var u := Uncompacted(s, full);
    if s.snapIndex < start <= |full| {
      assert s.entries[start - s.snapIndex - 1..] == full[start - 1..];
      assert full == full[0..];
    } else if start <= s.snapIndex {
      assert SliceFrom(s, start) == full[s.snapIndex..];
      assert |SliceFrom(u, start)| >= |full| - s.snapIndex + (if s.snapIndex == 0 then 0 else 1);
    }
  }

  /** Consistency checks agree at and above the boundary; below it a compacted log refuses all but index 0. */
  lemma ConsistencyAgrees(s: Log, full: seq<LogEntry>, prevIndex: int, prevTerm: int)
    requires Refines(s, full)
    ensures s.snapIndex <= prevIndex ==>
      CheckConsistency(s, prevIndex, prevTerm) == CheckConsistency(Uncompacted(s, full), prevIndex, prevTerm)
    ensures 0 < prevIndex < s.snapIndex ==> !CheckConsistency(s, prevIndex, prevTerm)
    ensures s.snapIndex <= prevIndex ==>
      (CheckConsistency(s, prevIndex, prevTerm) <==>
        prevIndex == 0 || (prevIndex <= |full| && full[prevIndex - 1].term == prevTerm))
  {
  }

  lemma Extended(full: seq<LogEntry>, from: nat, e: LogEntry)
    requires IsLog(full) && from <= |full| && e.index == |full| + 1
    ensures IsLog(full + [e])
    ensures (full + [e])[from..] == full[from..] + [e]
    ensures TermAt(full + [e], from) == TermAt(full, from)
  {
  }

  /** Appending succeeds on both logs or on neither, with the same history afterwards. */
  lemma AppendAgrees(s: Log, full: seq<LogEntry>, e: LogEntry)
    requires Refines(s, full)
    ensures Append(s, e).Some? <==> Append(Uncompacted(s, full), e).Some?
    ensures Append(s, e).Some? ==>
      && Append(Uncompacted(s, full), e) == Some(Uncompacted(Append(s, e).value, full + [Numbered(s, e)]))
      && Refines(Append(s, e).value, full + [Numbered(s, e)])
  {
    RefinesIndexed(s, full);
    assert Numbered(s, e) == Numbered(Uncompacted(s, full), e);
    if Append(s, e).Some? {
      Extended(full, s.snapIndex, Numbered(s, e));
    }
  }

  lemma TruncateAgrees(s: Log, full: seq<LogEntry>, from: int)
    requires Refines(s, full) && s.snapIndex < from
    ensures Indexed(s) && Indexed(Uncompacted(s, full))
    ensures
      var cut := if from > |full| then full else full[..from - 1];
      && Truncate(s, from).Some?
      && Truncate(Uncompacted(s, full), from) == Some(Uncompacted(Truncate(s, from).value, cut))
      && Refines(Truncate(s, from).value, cut)
  {
    RefinesIndexed(s, full);
    if from <= |full| {
      assert full[s.snapIndex..][..from - s.snapIndex - 1] == full[..from - 1][s.snapIndex..];
      assert full[0..][..from - 1] == full[..from - 1];
    }
  }

  /** One reconciled entry above the boundary does the same to the history with and without compaction. */
  lemma AbsorbOneAgrees(s: Log, full: seq<LogEntry>, e: LogEntry) returns (full': seq<LogEntry>)
    requires Refines(s, full) && s.snapIndex < e.index
    ensures Indexed(s) && Indexed(Uncompacted(s, full))
    ensures Absorb(s, e).Some? <==> Absorb(Uncompacted(s, full), e).Some?
    ensures Absorb(s, e).Some? ==>
      && Absorb(Uncompacted(s, full), e) == Some(Uncompacted(Absorb(s, e).value, full'))
      && Refines(Absorb(s, e).value, full')
  {
    RefinesIndexed(s, full);
    LookupAgrees(s, full, e.index);
    full' := full;
    match GetEntry(s, e.index) {
      case None =>
        AppendAgrees(s, full, e);
        full' := full + [Numbered(s, e)];
      case Some(x) =>
        if x.term != e.term {
          TruncateAgrees(s, full, e.index);
          var t, cut := Truncate(s, e.index).value, full[..e.index - 1];
          AppendAgrees(t, cut, e);
          full' := cut + [Numbered(t, e)];
        }
    }
  }

  /** Reconciling entries above the boundary does the same to the history with and without compaction. */
  lemma {:induction false} AbsorbAgrees(s: Log, full: seq<LogEntry>, es: seq<LogEntry>) returns (full': seq<LogEntry>)
    requires Refines(s, full)
    requires forall e :: e in es ==> s.snapIndex < e.index
    ensures Indexed(s) && Indexed(Uncompacted(s, full))
    ensures Refines(AbsorbAll(s, es).0, full')
    ensures AbsorbAll(Uncompacted(s, full), es) == (Uncompacted(AbsorbAll(s, es).0, full'), AbsorbAll(s, es).1)
    decreases |es|
  {
    RefinesIndexed(s, full);
    full' := full;
    if es != [] {
      var e := es[0];
      assert e in es;
      var next := AbsorbOneAgrees(s, full, e);
      match Absorb(s, e) {
        case None =>
        case Some(t) => full' := AbsorbAgrees(t, next, es[1..]);
      }
    }
  }

  /** At or above its boundary a follower's whole answer is unaffected by its own compaction. */
  lemma ReconcileAbove(s: Log, full: seq<LogEntry>, prevIndex: int, prevTerm: int, es: seq<LogEntry>)
    returns (full': seq<LogEntry>)
    requires Refines(s, full) && s.snapIndex <= prevIndex
    requires forall e :: e in es ==> prevIndex < e.index
    ensures Indexed(s) && Indexed(Uncompacted(s, full))
    ensures
      var (t, reply) := Reconcile(s, prevIndex, prevTerm, es);
      && Refines(t, full')
      && Reconcile(Uncompacted(s, full), prevIndex, prevTerm, es) == (Uncompacted(t, full'), reply)
  {
    RefinesIndexed(s, full);
    ConsistencyAgrees(s, full, prevIndex, prevTerm);
    if CheckConsistency(s, prevIndex, prevTerm) {
      full' := AbsorbAgrees(s, full, es);
      RefinesIndexed(AbsorbAll(s, es).0, full');
    } else {
      full' := full;
    }
  }

  /** Below its boundary a compacted follower changes nothing: it refuses, or from the very start raises. */
  lemma ReconcileBelow(s: Log, full: seq<LogEntry>, prevIndex: int, prevTerm: int, es: seq<LogEntry>)
    requires Refines(s, full) && prevIndex < s.snapIndex && (es != [] ==> es[0].index == prevIndex + 1)
    ensures Indexed(s)
    ensures Reconcile(s, prevIndex, prevTerm, es) ==
      (s, if prevIndex != 0 then Replied(false, |full|) else if es == [] then Replied(true, |full|) else Raised)
  {
    RefinesIndexed(s, full);
    LookupAgrees(s, full, prevIndex);
  }

  /**
   What a follower's compaction changes about its answer to consecutive entries: nothing at or above its
   boundary, and below it a log that was never compacted would have looked at the message.
   */
  lemma ReconcileAgrees(s: Log, full: seq<LogEntry>, prevIndex: int, prevTerm: int, es: seq<LogEntry>)
    returns (full': seq<LogEntry>)
    requires Refines(s, full) && forall i :: 0 <= i < |es| ==> es[i].index == prevIndex + 1 + i
    ensures Indexed(s) && Indexed(Uncompacted(s, full))
    ensures Refines(Reconcile(s, prevIndex, prevTerm, es).0, full')
    ensures
      var (t, reply) := Reconcile(s, prevIndex, prevTerm, es);
      if s.snapIndex <= prevIndex then
        Reconcile(Uncompacted(s, full), prevIndex, prevTerm, es) == (Uncompacted(t, full'), reply)
      else
        && t == s && full' == full
        && reply == if prevIndex != 0 then Replied(false, |full|) else if es == [] then Replied(true, |full|) else Raised
  {
    RefinesIndexed(s, full);
    if s.snapIndex <= prevIndex {
      full' := ReconcileAbove(s, full, prevIndex, prevTerm, es);
    } else {
      ReconcileBelow(s, full, prevIndex, prevTerm, es);
      full' := full;
    }
  }

  /** Compaction moves the boundary to the capped target, where it can. */
  lemma CompactMoves(s: Log, full: seq<LogEntry>, index: int)
    requires Refines(s, full)
    ensures
      var target := if index < s.applied then index else s.applied;
      Compact(s, index) ==
      if s.snapIndex < index && s.snapIndex < target <= |full|
      then s.(snapIndex := target, snapTerm := full[target - 1].term, entries := full[target..])
      else s
  {
    var target := if index < s.applied then index else s.applied;
    LookupAgrees(s, full, target);
    if s.snapIndex < index && s.snapIndex < target <= |full| {
      AboveHistory(full, s.snapIndex, target);
    }
  }

  /** Compaction forgets entries, never history. */
  lemma CompactAgrees(s: Log, full: seq<LogEntry>, index: int)
    requires Refines(s, full)
    ensures Refines(Compact(s, index), full)
    ensures Uncompacted(Compact(s, index), full) == Uncompacted(s, full)
    ensures Compact(s, index).snapIndex ==
      (var target := if index < s.applied then index else s.applied;
       if s.snapIndex < index && s.snapIndex < target <= |full| then target else s.snapIndex)
  {
    CompactMoves(s, full, index);
  }

  lemma AboveHistory(full: seq<LogEntry>, from: nat, index: nat)
    requires IsLog(full) && from <= index <= |full|
    ensures Above(full[from..], index) == full[index..]
  {
    AboveIsSuffix(full[from..], from + 1, index);
    if from < index {
      assert full[from..][index - from..] == full[index..];
    }
  }

  /** Restoring a snapshot of the same history refines that history. */
  lemma RestoreAgrees(s: Log, full: seq<LogEntry>, index: int)
    requires Refines(s, full) && s.snapIndex <= index <= |full|
    ensures Refines(Restore(s, index, TermAt(full, index)), full)
  {
    AboveHistory(full, s.snapIndex, index);
  }

  /** What the leader puts in an AppendEntries request for a follower at `nextIndex`. */
  datatype AppendRequest = AppendRequest(prevIndex: int, prevTerm: int, entries: seq<LogEntry>, leaderCommit: int)

  function AppendFor(s: Log, nextIndex: int): AppendRequest
    requires Indexed(s)
  {
    AppendRequest(nextIndex - 1, GetTerm(s, nextIndex - 1), SliceFrom(s, nextIndex), s.commit)
  }

  /** Above the boundary a request carries the true previous term and the true suffix of the history. */
  lemma AppendForIsTrue(s: Log, full: seq<LogEntry>, nextIndex: int)
    requires Refines(s, full) && s.snapIndex < nextIndex <= |full| + 1
    ensures Indexed(s)
    ensures AppendFor(s, nextIndex) ==
      AppendRequest(nextIndex - 1, TermAt(full, nextIndex - 1), full[nextIndex - 1..], s.commit)
  {
    RefinesIndexed(s, full);
    TermAgrees(s, full, nextIndex - 1);
    SliceAgrees(s, full, nextIndex);
  }
}
