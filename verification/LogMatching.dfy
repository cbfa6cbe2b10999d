/** Log Matching is kept by reconciliation, and the reject-and-back-off exchange converges. */
module LogMatching {
  import opened Wrappers
  import opened Models
  import opened RaftLog
  import opened LogRefinement

  /** Entries with the same index and term sit on top of identical histories. */
  ghost predicate Match(a: seq<LogEntry>, b: seq<LogEntry>) {
    forall i :: 0 <= i < |a| && i < |b| && a[i].term == b[i].term ==> a[..i + 1] == b[..i + 1]
  }

  ghost predicate AllMatch(logs: map<string, seq<LogEntry>>) {
    forall m, n :: m in logs && n in logs ==> Match(logs[m], logs[n])
  }

  ghost predicate Plain(s: Log) {
    s.snapIndex == 0 && s.snapTerm == 0 && IsLog(s.entries)
  }

  /** Absorbing the sender's entries from position q on, when the first q entries already agree. */
  lemma {:induction false} AbsorbSlice(s: Log, sender: seq<LogEntry>, q: nat)
    requires Plain(s) && Indexed(s) && IsLog(sender) && Match(s.entries, sender)
    requires q <= |sender| && q <= |s.entries| && s.entries[..q] == sender[..q]
    ensures AbsorbAll(s, sender[q..]).1
    ensures AbsorbAll(s, sender[q..]).0.entries == if sender <= s.entries then s.entries else sender
    decreases |sender| - q
  {
    if q == |sender| {
      assert sender[q..] == [] && sender == s.entries[..q];
    } else {
      var e, rest := sender[q], sender[q + 1..];
      assert sender[q..][0] == e && sender[q..][1..] == rest;
      if q < |s.entries| && s.entries[q].term == e.term {
        AbsorbSlice(s, sender, q + 1);
      } else {
        var t := Absorb(s, e).value;
        assert t.entries == sender[..q + 1];
        assert !(sender <= s.entries) by {
          if q < |s.entries| { assert s.entries[q] != sender[q]; }
        }
        AbsorbSlice(t, sender, q + 1);
      }
    }
  }

  /** Matching logs agree up to p exactly when they agree on the term at p. */
  lemma TermMeansPrefix(f: seq<LogEntry>, sender: seq<LogEntry>, p: nat)
    requires Match(f, sender) && p <= |sender|
    ensures p == 0 || (p <= |f| && f[p - 1].term == sender[p - 1].term) <==> p <= |f| && f[..p] == sender[..p]
  {
    if 0 < p <= |f| && f[..p] == sender[..p] {
      assert f[p - 1] == f[..p][p - 1] == sender[..p][p - 1];
    }
  }

  lemma PlainConsistency(s: Log, p: nat, term: int)
    requires Plain(s)
    ensures CheckConsistency(s, p, term) <==> p == 0 || (p <= |s.entries| && s.entries[p - 1].term == term)
  {
  }

  /** A request that is a true slice of the sender's log: accepted, it leaves the follower unchanged or equal to the sender. */
  lemma ReconcileSlice(s: Log, sender: seq<LogEntry>, p: nat)
    requires Plain(s) && Indexed(s) && IsLog(sender) && Match(s.entries, sender) && p <= |sender|
    ensures CheckConsistency(s, p, TermAt(sender, p)) <==> p <= |s.entries| && s.entries[..p] == sender[..p]
    ensures
      var (t, reply) := Reconcile(s, p, TermAt(sender, p), sender[p..]);
      if CheckConsistency(s, p, TermAt(sender, p)) then
        && t.entries == (if sender <= s.entries then s.entries else sender)
        && reply == Replied(true, |t.entries|)
      else (t, reply) == (s, Replied(false, |s.entries|))
  {
    TermMeansPrefix(s.entries, sender, p);
    PlainConsistency(s, p, TermAt(sender, p));
    if CheckConsistency(s, p, TermAt(sender, p)) {
      AbsorbSlice(s, sender, p);
      IndexedLast(AbsorbAll(s, sender[p..]).0);
    } else {
      IndexedLast(s);
    }
  }

  /**
   What a compacted follower makes of a message, wherever it starts: it raises exactly on a message from
   the very start that carries entries, accepts a shared prefix it can still check, and refuses the rest.
   */
  lemma ReconcileHistory(s: Log, full: seq<LogEntry>, sender: seq<LogEntry>, p: nat) returns (history: seq<LogEntry>)
    requires Refines(s, full) && IsLog(sender) && Match(full, sender) && p <= |sender|
    ensures Indexed(s)
    ensures
      var (t, reply) := Reconcile(s, p, TermAt(sender, p), sender[p..]);
      && Refines(t, history)
      && (reply.Raised? <==> p == 0 && 0 < s.snapIndex && sender != [])
      && (reply.Replied? ==>
           reply == if (p == 0 || s.snapIndex <= p) && p <= |full| && full[..p] == sender[..p]
                    then Replied(true, |history|) else Replied(false, |full|))
      && history == (if reply.Replied? && reply.success && !(sender <= full) then sender else full)
      && (reply.Replied? && reply.success ==> sender <= history)
      && (reply.Raised? || !reply.success ==> t == s)
  {
    RefinesIndexed(s, full);
    if s.snapIndex <= p {
      var u := Uncompacted(s, full);
      assert forall e :: e in sender[p..] ==> p < e.index;
      history := ReconcileAbove(s, full, p, TermAt(sender, p), sender[p..]);
      ReconcileSlice(u, sender, p);
      ConsistencyAgrees(s, full, p, TermAt(sender, p));
    } else {
      ReconcileBelow(s, full, p, TermAt(sender, p), sender[p..]);
      history := full;
    }
  }

  lemma SentPresent(t: Log, history: seq<LogEntry>, sender: seq<LogEntry>, p: nat, e: LogEntry)
    requires Refines(t, history) && IsLog(sender) && sender <= history
    requires t.snapIndex <= p <= |sender| && e in sender[p..]
    ensures GetEntry(t, e.index) == Some(e)
  {
    var i :| 0 <= i < |sender[p..]| && sender[p..][i] == e;
    assert sender[p + i] == e && history[p + i] == e;
    LookupAgrees(t, history, e.index);
  }

  /**
   Log Matching survives every reconcile, compacted follower or not: accepted, the follower's history is
   unchanged or becomes the sender's and every sent entry is in it; refused or raised, nothing changes;
   and all logs still match pairwise.
   */
  lemma LogMatchingKept(logs: map<string, seq<LogEntry>>, follower: string, s: Log, sender: seq<LogEntry>, p: nat)
    returns (history: seq<LogEntry>)
    requires follower in logs && Refines(s, logs[follower]) && IsLog(sender)
    requires AllMatch(logs) && forall n :: n in logs ==> Match(logs[n], sender)
    requires p <= |sender|
    ensures Indexed(s)
    ensures
      var (t, reply) := Reconcile(s, p, TermAt(sender, p), sender[p..]);
      && Refines(t, history)
      && (reply.Raised? <==> p == 0 && 0 < s.snapIndex && sender != [])
      && (reply.Replied? && reply.success ==>
           && (history == logs[follower] || history == sender)
           && sender <= history
           && (forall e :: e in sender[p..] ==> GetEntry(t, e.index) == Some(e)))
      && (reply.Raised? || !reply.success ==> t == s && history == logs[follower])
    ensures AllMatch(logs[follower := history])
    ensures forall n :: n in logs ==> Match(logs[follower := history][n], sender)
  {
    history := ReconcileHistory(s, logs[follower], sender, p);
    var (t, reply) := Reconcile(s, p, TermAt(sender, p), sender[p..]);
    if reply.Replied? && reply.success && sender[p..] != [] {
      forall e | e in sender[p..] ensures GetEntry(t, e.index) == Some(e) {
        SentPresent(t, history, sender, p, e);
      }
    }
    ReplaceKeepsMatch(logs, follower, sender, history);
  }

  /** A family of matching logs stays one when a member becomes the sender's log. */
  lemma ReplaceKeepsMatch(logs: map<string, seq<LogEntry>>, follower: string, sender: seq<LogEntry>, history: seq<LogEntry>)
    requires follower in logs && (history == logs[follower] || history == sender)
    requires AllMatch(logs) && forall n :: n in logs ==> Match(logs[n], sender)
    ensures AllMatch(logs[follower := history])
    ensures forall n :: n in logs ==> Match(logs[follower := history][n], sender)
  {
    MatchSymmetric(logs, sender);
  }

  lemma MatchSymmetric(logs: map<string, seq<LogEntry>>, sender: seq<LogEntry>)
    requires forall n :: n in logs ==> Match(logs[n], sender)
    ensures forall n :: n in logs ==> Match(sender, logs[n])
    ensures Match(sender, sender)
  {
  }

  // ----- Catch-up -----

  /** The leader's next index after a rejection reporting `last`. */
  function Backoff(nextIndex: int, last: int): int {
    var n := if nextIndex - 1 < last + 1 then nextIndex - 1 else last + 1;
    if n < 1 then 1 else n
  }

  /** The follower's log when the exchange ends, and the number of rejections on the way. */
  function CatchUp(leader: Log, follower: Log, nextIndex: int): (Log, nat)
    requires Indexed(leader) && Indexed(follower)
    decreases nextIndex
  {
    var req := AppendFor(leader, nextIndex);
    var (t, reply) := Reconcile(follower, req.prevIndex, req.prevTerm, req.entries);
    if reply.Replied? && !reply.success && nextIndex > 1 then
      var (final, n) := CatchUp(leader, follower, Backoff(nextIndex, reply.matchIndex));
      (final, n + 1)
    else (t, 0)
  }

  /** A request for a peer at `nextIndex`: past the leader's end it carries term 0 and nothing. */
  lemma RequestShape(leader: Log, nextIndex: int)
    requires Plain(leader) && Indexed(leader) && 1 <= nextIndex
    ensures
      var req := AppendFor(leader, nextIndex);
      && req.prevIndex == nextIndex - 1
      && req.prevTerm == TermAt(leader.entries, nextIndex - 1)
      && req.entries == if nextIndex <= |leader.entries| + 1 then leader.entries[nextIndex - 1..] else []
  {
    IndexedLast(leader);
  }

  /** What an exchange leaves: accepted, the follower has the leader's log; the first index is always accepted. */
  ghost predicate ExchangeOk(leader: Log, follower: Log, req: AppendRequest)
    requires Indexed(follower)
  {
    var (t, reply) := Reconcile(follower, req.prevIndex, req.prevTerm, req.entries);
    && reply.Replied?
    && (req.prevIndex == 0 ==> reply.success)
    && (reply.success ==> leader.entries <= t.entries)
  }

  lemma ExchangeWithin(leader: Log, follower: Log, req: AppendRequest)
    requires Plain(leader) && Plain(follower) && Indexed(follower) && Match(follower.entries, leader.entries)
    requires 0 <= req.prevIndex <= |leader.entries|
    requires req.prevTerm == TermAt(leader.entries, req.prevIndex) && req.entries == leader.entries[req.prevIndex..]
    ensures ExchangeOk(leader, follower, req)
  {
    ReconcileSlice(follower, leader.entries, req.prevIndex);
  }

  /** Past the leader's end the request carries term 0, which no entry has. */
  lemma ExchangePast(leader: Log, follower: Log, req: AppendRequest)
    requires Plain(follower) && Indexed(follower) && 0 < req.prevIndex && req.prevTerm == 0
    requires forall e :: e in follower.entries ==> e.term > 0
    ensures ExchangeOk(leader, follower, req)
  {
    PlainConsistency(follower, req.prevIndex, 0);
    if req.prevIndex <= |follower.entries| { assert follower.entries[req.prevIndex - 1] in follower.entries; }
  }

  /** From any starting index the exchange rejects at most `nextIndex - 1` times and leaves the leader's log a prefix of the follower's. */
  lemma {:induction false} CatchUpConverges(leader: Log, follower: Log, nextIndex: int)
    requires Plain(leader) && Plain(follower) && Indexed(leader) && Indexed(follower)
    requires Match(follower.entries, leader.entries)
    requires nextIndex > |leader.entries| + 1 ==> forall e :: e in follower.entries ==> e.term > 0
    requires 1 <= nextIndex
    ensures leader.entries <= CatchUp(leader, follower, nextIndex).0.entries
    ensures CatchUp(leader, follower, nextIndex).1 <= nextIndex - 1
    decreases nextIndex
  {
    var req := AppendFor(leader, nextIndex);
    RequestShape(leader, nextIndex);
    if nextIndex <= |leader.entries| + 1 {
      ExchangeWithin(leader, follower, req);
    } else {
      ExchangePast(leader, follower, req);
    }
    var (t, reply) := Reconcile(follower, req.prevIndex, req.prevTerm, req.entries);
    if reply.Replied? && !reply.success && nextIndex > 1 {
      CatchUpConverges(leader, follower, Backoff(nextIndex, reply.matchIndex));
    }
  }
}
