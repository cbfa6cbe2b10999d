/**
 What a leader commits.  Over every run the commit index is exactly the highest entry of the leader's own
 term that a majority has acknowledged; entries of older terms are committed only along with one.
 */
module QuorumCommit {
  import opened Wrappers
  import opened Models
  import opened RaftLog
  import opened LogRefinement
  import opened LogMatching
  import opened Engine
  import opened Replication
  import StateMachine

  // ----- Counting -----

  /** The peers, by position, whose recorded match index reaches n. */
  ghost function Backers(fs: map<string, Progress>, peers: seq<string>, n: int): set<int> {
    set i | 0 <= i < |peers| && peers[i] in fs && fs[peers[i]].matchIndex >= n
  }

  lemma {:induction false} PeersAtCounts(fs: map<string, Progress>, peers: seq<string>, n: int)
    ensures PeersAt(fs, peers, n) == |Backers(fs, peers, n)|
    decreases |peers|
  {
    if peers != [] {
      var last := |peers| - 1;
      var front := peers[..last];
      PeersAtCounts(fs, front, n);
      var small, big := Backers(fs, front, n), Backers(fs, peers, n);
      if peers[last] in fs && fs[peers[last]].matchIndex >= n {
        assert big == small + {last};
      } else {
        assert big == small;
      }
    }
  }

  /** An entry of this term that the leader and enough of its peers make a majority for. */
  ghost predicate Committable(full: seq<LogEntry>, term: int, fs: map<string, Progress>, peers: seq<string>, n: int) {
    && 0 < n <= |full| && full[n - 1].term == term
    && 2 * (|Backers(fs, peers, n)| + 1) > |peers| + 1
  }

  /** c is the highest committable index above the old commit index, or that index if there is none. */
  ghost predicate IsCommit(full: seq<LogEntry>, term: int, fs: map<string, Progress>, peers: seq<string>, old_: int, c: int) {
    && (c == old_ || (c > old_ && Committable(full, term, fs, peers, c)))
    && forall n :: n > c ==> !Committable(full, term, fs, peers, n)
  }

  lemma DecidedIsCommittable(s: Log, full: seq<LogEntry>, term: int, fs: map<string, Progress>, peers: seq<string>, n: int)
    requires Refines(s, full) && s.snapIndex < n <= |full|
    ensures Decided(s, term, fs, peers, n) <==> Committable(full, term, fs, peers, n)
  {
    RefinesIndexed(s, full);
    TermAgrees(s, full, n);
    PeersAtCounts(fs, peers, n);
  }

  /** Counting on the leader, compacted or not: it finds that index. */
  lemma CountingIsExact(s: Log, full: seq<LogEntry>, term: int, fs: map<string, Progress>, peers: seq<string>)
    requires Refines(s, full) && s.snapIndex <= s.commit <= |full|
    ensures
      var c := QuorumIndex(s, term, fs, peers, LastIndex(s));
      s.commit <= c <= |full| && IsCommit(full, term, fs, peers, s.commit, c)
  {
    RefinesIndexed(s, full);
    var c := QuorumIndex(s, term, fs, peers, LastIndex(s));
    if c != s.commit { DecidedIsCommittable(s, full, term, fs, peers, c); }
    forall n | c < n <= |full| ensures !Committable(full, term, fs, peers, n) {
      DecidedIsCommittable(s, full, term, fs, peers, n);
    }
  }

  lemma {:induction false} ApplyingKeepsLog(n: Node, es: seq<LogEntry>)
    ensures ApplyEntries(n, es).0.log == n.log.(applied := ApplyEntries(n, es).0.log.applied)
    decreases |es|
  {
    if es != [] && StateMachine.Apply(n.machine, es[0]).1.Ok? {
      ApplyingKeepsLog(Node(MarkApplied(n.log, es[0].index), StateMachine.Apply(n.machine, es[0]).0), es[1..]);
    }
  }

  /** The engine after a counted response: its commit index is that index, and its history is untouched. */
  lemma EngineCommitsExactly(n: Node, full: seq<LogEntry>, term: int, fs: map<string, Progress>, peers: seq<string>)
    requires Refines(n.log, full) && n.log.snapIndex <= n.log.commit <= |full|
    ensures
      var after := QuorumCommitted(n, term, fs, peers).0.log;
      IsCommit(full, term, fs, peers, n.log.commit, after.commit) && Refines(after, full)
  {
    CountingIsExact(n.log, full, term, fs, peers);
    RefinesIndexed(n.log, full);
    var c := QuorumIndex(n.log, term, fs, peers, LastIndex(n.log));
    var moved := n.(log := AdvanceCommit(n.log, c));
    ApplyingKeepsLog(moved, Unapplied(moved.log));
  }

  // ----- The engine's handlers are the model's steps -----

  /** A follower's handler takes a request as the model does, and answers what it answers; a stale one changes nothing. */
  lemma EngineReceives(n: Node, done: seq<LogEntry>, currentTerm: int, term: int, req: AppendRequest) returns (k: nat)
    requires Indexed(n.log)
    ensures
      var (after, resp) := OnAppendRequest(n, currentTerm, term, req);
      if term < currentTerm then
        after == n && resp.Some? && !resp.value.success && resp.value.term == currentTerm
      else
        var model, reply := Received(Replica(n.log, done), req, k), ReceiveAppend(n.log, req).1;
        && after.log == model.log
        && (reply == None ==> resp == None)
        && (resp.Some? ==> reply.Some? && resp.value == AppendResponse(term, reply.value.0, reply.value.1, LastIndex(model.log)))
  {
    k := 0;
    if term >= currentTerm && CommitMoves(n.log, req) {
      var moved := n.(log := ReceiveAppend(n.log, req).0);
      var es := Unapplied(moved.log);
      k := EngineApplies(moved, es);
      assert es[..|es|] == es;
    }
  }

  /** A leader's handler moves and applies as the model's leader does. */
  lemma EngineResponds(n: Node, done: seq<LogEntry>, term: int, fs: map<string, Progress>, peers: seq<string>) returns (k: nat)
    ensures
      var c := QuorumIndex(n.log, term, fs, peers, LastIndex(n.log));
      QuorumCommitted(n, term, fs, peers).0.log ==
        if c == n.log.commit then n.log else ApplyUpTo(Replica(AdvanceCommit(n.log, c), done), k).log
  {
    var moved := n.(log := AdvanceCommit(n.log, QuorumIndex(n.log, term, fs, peers, LastIndex(n.log))));
    var es := Unapplied(moved.log);
    k := EngineApplies(moved, es);
    assert es[..|es|] == es;
  }

  lemma ReconcileTaken(s: Log, full: seq<LogEntry>, req: AppendRequest)
    requires Plain(s) && Indexed(s) && IsLog(full) && s.entries <= full && RequestOk(full, req)
    ensures
      var (t, reply) := Reconcile(s, req.prevIndex, req.prevTerm, req.entries);
      var end := req.prevIndex + |req.entries|;
      && t == s.(entries := t.entries) && LastIndex(t) == |t.entries|
      && reply == Replied(req.prevIndex <= |s.entries|, |t.entries|)
      && t.entries == if req.prevIndex <= |s.entries| && end > |s.entries| then full[..end] else s.entries
  {
    IndexedLast(s);
    assert CheckConsistency(s, req.prevIndex, req.prevTerm) <==> req.prevIndex <= |s.entries|;
    if req.prevIndex <= |s.entries| {
      AbsorbExtends(s, full, req.prevIndex, req.prevIndex + |req.entries|);
      IndexedLast(AbsorbAll(s, req.entries).0);
    }
  }

  /** What a truthful request makes of a prefix of the leader's log. */
  lemma TakenExactly(r: Replica, full: seq<LogEntry>, req: AppendRequest)
    requires ReplicaOk(r) && IsLog(full) && r.log.entries <= full && RequestOk(full, req)
    ensures
      var s, t := r.log, ReceiveAppend(r.log, req).0;
      var end := req.prevIndex + |req.entries|;
      && (req.prevIndex > |s.entries| ==> t == s && !CommitMoves(s, req))
      && (req.prevIndex <= |s.entries| ==>
           && t.entries == (if end <= |s.entries| then s.entries else full[..end])
           && t.commit == (var reach := if req.leaderCommit < |t.entries| then req.leaderCommit else |t.entries|;
                           if reach > s.commit then reach else s.commit))
  {
    ReconcileTaken(r.log, full, req);
  }

  lemma ReceivedIsTaken(r: Replica, full: seq<LogEntry>, req: AppendRequest, k: nat)
    requires ReplicaOk(r) && IsLog(full) && r.log.entries <= full && RequestOk(full, req)
    ensures
      var t, u := ReceiveAppend(r.log, req).0, Received(r, req, k).log;
      u == t.(applied := u.applied) && (!CommitMoves(r.log, req) ==> u == t)
  {
    ReceiveExtends(r, full, req);
    ApplyUpToOk(r.(log := ReceiveAppend(r.log, req).0), k);
  }

  /**
   What a delivered request makes of a follower: it is taken exactly when the follower's log reaches its
   start, the log then reaches at least its end, and the commit index follows the leader's as far as the log goes.
   */
  lemma DeliveryCommits(term: int, peers: seq<string>, c: Cluster, f: string, req: AppendRequest, k: nat)
    requires Inv(peers, c) && f in c.followers && (f, req) in c.requests
    ensures
      var s, t := c.followers[f].log, Apply(term, peers, c, DeliverRequest(f, req, k)).followers[f].log;
      var end := req.prevIndex + |req.entries|;
      && (req.prevIndex > |s.entries| ==> t == s)
      && (req.prevIndex <= |s.entries| ==>
           && t.entries == (if end <= |s.entries| then s.entries else c.leader.log.entries[..end])
           && t.commit == (var reach := if req.leaderCommit < |t.entries| then req.leaderCommit else |t.entries|;
                           if reach > s.commit then reach else s.commit))
  {
    TakenExactly(c.followers[f], c.leader.log.entries, req);
    ReceivedIsTaken(c.followers[f], c.leader.log.entries, req, k);
    assert Apply(term, peers, c, DeliverRequest(f, req, k)).followers[f] == Received(c.followers[f], req, k);
  }

  /**
   What a leader sends a peer: a snapshot exactly when the peer's next entry is compacted away, and otherwise
   the true entries from there to the end, with the true term before them and the leader's commit index.
   */
  lemma MessageIsTrue(n: Node, full: seq<LogEntry>, next: int, now: real)
    requires Refines(n.log, full) && 1 <= next <= |full| + 1
    ensures Indexed(n.log)
    ensures
      match MessageFor(n, next, now)
      case SendSnapshot(_) => next <= n.log.snapIndex
      case SendEntries(req) =>
        && n.log.snapIndex < next && RequestOk(full, req)
        && req.prevIndex == next - 1 && req.entries == full[next - 1..] && req.leaderCommit == n.log.commit
  {
    RefinesIndexed(n.log, full);
    if n.log.snapIndex < next {
      AppendForIsTrue(n.log, full, next);
      assert full[next - 1..] == full[next - 1..|full|];
    }
  }

  /**
   Where a leader looks next after a response: past what was acknowledged, or, after a refusal, at the highest
   index below the one refused that follows the peer's log, and never below 1.  Other peers' records stay.
   */
  lemma NextIndexMoves(term: int, peers: seq<string>, c: Cluster, f: string, resp: AppendResponse, k: nat, n: int)
    requires Inv(peers, c) && f in c.followers && (f, resp) in c.responses
    ensures
      var before, after := c.progress, Apply(term, peers, c, DeliverResponse(f, resp, k)).progress;
      var tried := if f in before then before[f].nextIndex else |c.leader.log.entries| + 1;
      && f in after && (forall p :: p != f ==> (p in before <==> p in after) && (p in before ==> before[p] == after[p]))
      && (resp.success ==> after[f].nextIndex == after[f].matchIndex + 1)
      && (!resp.success ==>
           && after[f].matchIndex == (if f in before then before[f].matchIndex else 0)
           && after[f].nextIndex >= 1
           && (after[f].nextIndex == 1 || (after[f].nextIndex < tried && after[f].nextIndex <= resp.lastLogIndex + 1))
           && (1 <= n < tried && n <= resp.lastLogIndex + 1 ==> n <= after[f].nextIndex))
  {
    IndexedLast(c.leader.log);
  }

  // ----- Whole runs -----

  /** In state c, reached from a state with commit index `start`. */
  ghost predicate Highest(term: int, peers: seq<string>, c: Cluster, start: int) {
    && 0 <= start <= c.leader.log.commit
    && (c.leader.log.commit == start || Committable(c.leader.log.entries, term, c.progress, peers, c.leader.log.commit))
    && (peers != [] ==> forall n :: n > c.leader.log.commit ==> !Committable(c.leader.log.entries, term, c.progress, peers, n))
  }

  /** Records only grow. */
  ghost predicate Grown(fs: map<string, Progress>, gs: map<string, Progress>) {
    forall p :: p in fs ==> p in gs && fs[p].matchIndex <= gs[p].matchIndex
  }

  lemma BackersGrow(fs: map<string, Progress>, gs: map<string, Progress>, peers: seq<string>, n: int)
    requires Grown(fs, gs)
    ensures |Backers(fs, peers, n)| <= |Backers(gs, peers, n)|
  {
    SubsetSize(Backers(fs, peers, n), Backers(gs, peers, n));
  }

  lemma CommittableStays(full: seq<LogEntry>, longer: seq<LogEntry>, term: int, fs: map<string, Progress>, gs: map<string, Progress>, peers: seq<string>, n: int)
    requires full <= longer && Grown(fs, gs) && Committable(full, term, fs, peers, n)
    ensures Committable(longer, term, gs, peers, n)
  {
    BackersGrow(fs, gs, peers, n);
  }

  lemma NoBackers(fs: map<string, Progress>, peers: seq<string>, n: int)
    requires forall p :: p in fs ==> fs[p].matchIndex < n
    ensures |Backers(fs, peers, n)| == 0
  {
    assert Backers(fs, peers, n) == {};
  }

  lemma RecordsGrow(term: int, peers: seq<string>, c: Cluster, step: Step)
    requires Inv(peers, c) && Enabled(c, step)
    ensures Grown(c.progress, Apply(term, peers, c, step).progress)
  {
  }

  /** A rejection leaves every record's count as it is, for positive indices. */
  lemma RejectionCounts(fs: map<string, Progress>, f: string, last: int, m: int, l: int, peers: seq<string>, n: int)
    requires n > 0
    ensures Backers(Synchronize(fs, f, last, false, m, l), peers, n) == Backers(fs, peers, n)
  {
  }

  lemma ProposeHighest(term: int, peers: seq<string>, c: Cluster, e: LogEntry, k: nat, start: int)
    requires Inv(peers, c) && Highest(term, peers, c, start)
    ensures Highest(term, peers, Apply(term, peers, c, Propose(e, k)), start)
  {
    var s := c.leader.log;
    IndexedLast(s);
    var longer := s.entries + [Proposed(s, term, e)];
    var d := Apply(term, peers, c, Propose(e, k));
    if peers == [] {
      var t := s.(entries := longer);
      IndexedLast(t);
      assert t.entries[..t.applied] == s.entries[..t.applied];
      ApplyUpToOk(c.leader.(log := AdvanceCommit(t, LastIndex(t))), k);
      assert d.leader.log.commit == |longer| && longer[|longer| - 1].term == term;
      NoBackers(map[], peers, |longer|);
    } else {
      if s.commit != start { CommittableStays(s.entries, longer, term, c.progress, c.progress, peers, s.commit); }
      forall n | n > s.commit ensures !Committable(longer, term, c.progress, peers, n) {
        if n == |longer| {
          NoBackers(c.progress, peers, n);
        } else if 0 < n < |longer| {
          assert longer[n - 1] == s.entries[n - 1];
          assert !Committable(s.entries, term, c.progress, peers, n);
        }
      }
    }
  }

  lemma CountedCommits(term: int, peers: seq<string>, r: Replica, fs: map<string, Progress>, k: nat)
    requires ReplicaOk(r)
    ensures
      var n := QuorumIndex(r.log, term, fs, peers, LastIndex(r.log));
      var after := if n != r.log.commit then ApplyUpTo(r.(log := AdvanceCommit(r.log, n)), k) else r;
      IsCommit(r.log.entries, term, fs, peers, r.log.commit, after.log.commit)
  {
    var s := r.log;
    IndexedLast(s);
    assert s.entries[0..] == s.entries;
    CountingIsExact(s, s.entries, term, fs, peers);
    ApplyUpToOk(r.(log := AdvanceCommit(s, QuorumIndex(s, term, fs, peers, LastIndex(s)))), k);
  }

  lemma ResponseCounts(term: int, peers: seq<string>, c: Cluster, f: string, resp: AppendResponse, k: nat)
    requires Inv(peers, c) && f in c.followers && (f, resp) in c.responses
    ensures
      var d := Apply(term, peers, c, DeliverResponse(f, resp, k));
      && d.leader.log.entries == c.leader.log.entries
      && if resp.success then IsCommit(c.leader.log.entries, term, d.progress, peers, c.leader.log.commit, d.leader.log.commit)
         else d.leader == c.leader
  {
    var s := c.leader.log;
    ResponseKeeps(term, peers, c, f, resp, k);
    if resp.success {
      CountedCommits(term, peers, c.leader,
        Synchronize(c.progress, f, LastIndex(s), true, resp.matchIndex, resp.lastLogIndex), k);
    }
  }

  lemma ResponseHighest(term: int, peers: seq<string>, c: Cluster, f: string, resp: AppendResponse, k: nat, start: int)
    requires Inv(peers, c) && f in c.followers && (f, resp) in c.responses && Highest(term, peers, c, start)
    ensures Highest(term, peers, Apply(term, peers, c, DeliverResponse(f, resp, k)), start)
  {
    var d := Apply(term, peers, c, DeliverResponse(f, resp, k));
    var full := c.leader.log.entries;
    ResponseCounts(term, peers, c, f, resp, k);
    RecordsGrow(term, peers, c, DeliverResponse(f, resp, k));
    if c.leader.log.commit != start { CommittableStays(full, full, term, c.progress, d.progress, peers, c.leader.log.commit); }
    if !resp.success && peers != [] {
      forall n | n > c.leader.log.commit ensures !Committable(full, term, d.progress, peers, n) {
        RejectionCounts(c.progress, f, LastIndex(c.leader.log), resp.matchIndex, resp.lastLogIndex, peers, n);
        assert !Committable(full, term, c.progress, peers, n);
      }
    }
  }

  lemma StepHighest(term: int, peers: seq<string>, c: Cluster, step: Step, start: int)
    requires Inv(peers, c) && Enabled(c, step) && Highest(term, peers, c, start)
    ensures Highest(term, peers, Apply(term, peers, c, step), start)
  {
    match step {
      case Propose(e, k) => ProposeHighest(term, peers, c, e, k, start);
      case DeliverResponse(f, resp, k) => ResponseHighest(term, peers, c, f, resp, k, start);
      case _ =>
        var d := Apply(term, peers, c, step);
        assert d.leader == c.leader && d.progress == c.progress;
    }
  }

  lemma StartHighest(term: int, peers: seq<string>, c: Cluster)
    requires Init(peers, c)
    ensures Highest(term, peers, c, c.leader.log.commit)
  {
    forall n ensures peers != [] ==> !Committable(c.leader.log.entries, term, c.progress, peers, n) {
      NoBackers(c.progress, peers, n);
    }
  }

  lemma {:induction false} RunHighest(term: int, peers: seq<string>, run: seq<Cluster>, i: nat)
    requires IsRun(term, peers, run) && i < |run|
    ensures Highest(term, peers, run[i], run[0].leader.log.commit)
    decreases i
  {
    if i == 0 {
      StartHighest(term, peers, run[0]);
    } else {
      var h := i - 1;
      RunHighest(term, peers, run, h);
      RunKeeps(term, peers, run, h, h);
      assert Next(term, peers, run[h], run[h + 1]);
      var step :| Enabled(run[h], step) && run[i] == Apply(term, peers, run[h], step);
      StepHighest(term, peers, run[h], step, run[0].leader.log.commit);
    }
  }

  /** The peers, by name, whose recorded match index reaches n. */
  ghost function Supporters(fs: map<string, Progress>, peers: seq<string>, n: int): set<string> {
    set p | p in peers && p in fs && fs[p].matchIndex >= n
  }

  lemma SupportersNext(fs: map<string, Progress>, front: seq<string>, last: string, n: int)
    requires last !in front
    ensures Supporters(fs, front + [last], n) ==
            Supporters(fs, front, n) + if last in fs && fs[last].matchIndex >= n then {last} else {}
    ensures last !in Supporters(fs, front, n)
  {
  }

  lemma {:induction false} SupportersCount(fs: map<string, Progress>, peers: seq<string>, n: int)
    requires Distinct(peers)
    ensures |Supporters(fs, peers, n)| == PeersAt(fs, peers, n)
    decreases |peers|
  {
    if peers != [] {
      var front, last := peers[..|peers| - 1], peers[|peers| - 1];
      assert peers == front + [last];
      SupportersCount(fs, front, n);
      SupportersNext(fs, front, last, n);
    }
  }

  lemma HighestByName(term: int, peers: seq<string>, c: Cluster, start: int, n: int)
    requires Inv(peers, c) && Highest(term, peers, c, start)
    ensures
      var s := c.leader.log;
      && 0 <= start <= s.commit <= |s.entries|
      && (s.commit > start ==>
           s.entries[s.commit - 1].term == term && 2 * (|Supporters(c.progress, peers, s.commit)| + 1) > |peers| + 1)
      && (peers != [] && s.commit < n <= |s.entries| && s.entries[n - 1].term == term ==>
           2 * (|Supporters(c.progress, peers, n)| + 1) <= |peers| + 1)
  {
    var s := c.leader.log;
    SupportersCount(c.progress, peers, s.commit);
    SupportersCount(c.progress, peers, n);
    PeersAtCounts(c.progress, peers, s.commit);
    PeersAtCounts(c.progress, peers, n);
    assert peers != [] && n > s.commit ==> !Committable(s.entries, term, c.progress, peers, n);
  }

  /**
   In every state of every run the commit index is where the run began, or an entry of the run's own term
   that a majority has acknowledged; and, with peers, no such entry lies above it.
   */
  lemma CommitIsHighest(term: int, peers: seq<string>, run: seq<Cluster>, i: nat, n: int)
    requires IsRun(term, peers, run) && i < |run|
    ensures
      var s := run[i].leader.log;
      && 0 <= run[0].leader.log.commit <= s.commit <= |s.entries|
      && (s.commit > run[0].leader.log.commit ==>
           s.entries[s.commit - 1].term == term && 2 * (|Supporters(run[i].progress, peers, s.commit)| + 1) > |peers| + 1)
      && (peers != [] && s.commit < n <= |s.entries| && s.entries[n - 1].term == term ==>
           2 * (|Supporters(run[i].progress, peers, n)| + 1) <= |peers| + 1)
  {
    RunHighest(term, peers, run, i);
    RunKeeps(term, peers, run, i, i);
    HighestByName(term, peers, run[i], run[0].leader.log.commit, n);
  }

  /** Whenever the commit index moves, it moves to an entry of the run's term. */
  lemma CommitMovesInTerm(term: int, peers: seq<string>, run: seq<Cluster>, i: nat)
    requires IsRun(term, peers, run) && 0 < i < |run| && run[i].leader.log.commit > run[i - 1].leader.log.commit
    ensures
      var s := run[i].leader.log;
      0 < s.commit <= |s.entries| && s.entries[s.commit - 1].term == term
  {
    CommitIsHighest(term, peers, run, i - 1, 0);
    CommitIsHighest(term, peers, run, i, 0);
  }

  // ----- Acknowledgements count -----

  /** The step from c to d delivers a response of f that acknowledges n. */
  ghost predicate Acknowledges(term: int, peers: seq<string>, c: Cluster, d: Cluster, f: string, n: int) {
    && Next(term, peers, c, d)
    && exists resp, k :: Enabled(c, DeliverResponse(f, resp, k)) && resp.success && resp.matchIndex >= n &&
                         d == Apply(term, peers, c, DeliverResponse(f, resp, k))
  }

  /** Such a step led to the j-th state. */
  ghost predicate AcknowledgedAt(term: int, peers: seq<string>, run: seq<Cluster>, f: string, n: int, j: int) {
    0 < j < |run| && Acknowledges(term, peers, run[j - 1], run[j], f, n)
  }

  lemma {:induction false} RecordsGrowOn(term: int, peers: seq<string>, run: seq<Cluster>, i: nat, j: nat)
    requires IsRun(term, peers, run) && i <= j < |run|
    ensures Grown(run[i].progress, run[j].progress)
    decreases j
  {
    if i < j {
      var h := j - 1;
      RecordsGrowOn(term, peers, run, i, h);
      RunKeeps(term, peers, run, h, h);
      assert Next(term, peers, run[h], run[h + 1]);
      var step :| Enabled(run[h], step) && run[j] == Apply(term, peers, run[h], step);
      RecordsGrow(term, peers, run[h], step);
    }
  }

  lemma RecordedAtOnce(term: int, peers: seq<string>, c: Cluster, d: Cluster, f: string, n: int)
    requires Inv(peers, c) && Acknowledges(term, peers, c, d, f, n)
    ensures f in d.progress && d.progress[f].matchIndex >= n
  {
  }

  lemma AcknowledgedIsRecorded(term: int, peers: seq<string>, run: seq<Cluster>, i: nat, f: string, n: int, j: nat)
    requires IsRun(term, peers, run) && j <= i < |run| && AcknowledgedAt(term, peers, run, f, n, j)
    ensures f in run[i].progress && run[i].progress[f].matchIndex >= n
  {
    RunKeeps(term, peers, run, j - 1, j);
    RecordedAtOnce(term, peers, run[j - 1], run[j], f, n);
    RecordsGrowOn(term, peers, run, j, i);
  }

  /** Once enough peers have acknowledged an entry of the run's term, it is committed, and so is all before it. */
  lemma MajorityCommits(term: int, peers: seq<string>, run: seq<Cluster>, i: nat, n: int, acked: set<string>)
    requires IsRun(term, peers, run) && i < |run| && peers != []
    requires 0 < n <= |run[i].leader.log.entries| && run[i].leader.log.entries[n - 1].term == term
    requires forall f :: f in acked ==> f in peers && exists j :: j <= i && AcknowledgedAt(term, peers, run, f, n, j)
    requires 2 * (|acked| + 1) > |peers| + 1
    ensures run[i].leader.log.commit >= n
  {
    forall f | f in acked ensures f in Supporters(run[i].progress, peers, n) {
      var j :| j <= i && AcknowledgedAt(term, peers, run, f, n, j);
      AcknowledgedIsRecorded(term, peers, run, i, f, n, j);
    }
    SubsetSize(acked, Supporters(run[i].progress, peers, n));
    CommitIsHighest(term, peers, run, i, n);
  }
}
