/**
 Replication under one stable leader.  Every request and response ever sent stays in the network and
 may be delivered late, twice, out of order or never.  Logs are not compacted here, but a follower may
 refuse a request that it could have accepted, as a compacted one does.
 */
module Replication {
  import opened Wrappers
  import opened Models
  import opened RaftLog
  import opened LogRefinement
  import opened LogMatching
  import opened Engine
  import StateMachine

  /** A node's log and the entries its state machine has completed, in order. */
  datatype Replica = Replica(log: Log, done: seq<LogEntry>)

  datatype Cluster = Cluster(
    leader: Replica,
    progress: map<string, Progress>,
    followers: map<string, Replica>,
    requests: set<(string, AppendRequest)>,
    responses: set<(string, AppendResponse)>)

  /** `k` is how many committed entries get applied in the step before one raises (all of them, if none does). */
  datatype Step =
    | Propose(entry: LogEntry, k: nat)
    | Broadcast
    | DeliverRequest(to_: string, request: AppendRequest, k: nat)
    | DeliverResponse(from_: string, response: AppendResponse, k: nat)
    | Refuse(node: string, request: AppendRequest)

  function MarkAll(s: Log, es: seq<LogEntry>): Log
    decreases |es|
  {
    if es == [] then s else MarkAll(MarkApplied(s, es[0].index), es[1..])
  }

  function ApplyUpTo(r: Replica, k: nat): Replica {
    var es := Unapplied(r.log);
    var first := if k < |es| then es[..k] else es;
    Replica(MarkAll(r.log, first), r.done + first)
  }

  /** A follower that has taken a request and applied what it may. */
  function Received(r: Replica, req: AppendRequest, k: nat): Replica
    requires Indexed(r.log)
  {
    var moved := r.(log := ReceiveAppend(r.log, req).0);
    if CommitMoves(r.log, req) then ApplyUpTo(moved, k) else moved
  }

  function NextFor(c: Cluster, p: string): int {
    if p in c.progress then c.progress[p].nextIndex else 1
  }

  ghost predicate Enabled(c: Cluster, step: Step) {
    match step
    case Propose(_, _) => true
    case Broadcast => true
    case DeliverRequest(f, req, _) => f in c.followers && (f, req) in c.requests
    case DeliverResponse(f, resp, _) => f in c.followers && (f, resp) in c.responses
    case Refuse(f, req) => f in c.followers && (f, req) in c.requests
  }

  function Proposed(s: Log, term: int, e: LogEntry): LogEntry {
    e.(index := LastIndex(s) + 1, term := term)
  }

  ghost function Apply(term: int, peers: seq<string>, c: Cluster, step: Step): Cluster
    requires Indexed(c.leader.log) && (forall p :: p in c.followers ==> Indexed(c.followers[p].log))
    requires Enabled(c, step)
  {
    match step
    case Propose(e, k) =>
      var s := c.leader.log.(entries := c.leader.log.entries + [Proposed(c.leader.log, term, e)]);
      c.(leader := if peers == [] then ApplyUpTo(c.leader.(log := AdvanceCommit(s, LastIndex(s))), k)
                   else c.leader.(log := s))
    case Broadcast =>
      c.(requests := c.requests + set p | p in peers :: (p, AppendFor(c.leader.log, NextFor(c, p))))
    case DeliverRequest(f, req, k) =>
      var r, after := ReceiveAppend(c.followers[f].log, req).1, Received(c.followers[f], req, k);
      var c' := c.(followers := c.followers[f := after]);
      if r.None? then c'
      else c'.(responses := c'.responses + {(f, AppendResponse(term, r.value.0, r.value.1, LastIndex(after.log)))})
    case DeliverResponse(f, resp, k) =>
      var s := c.leader.log;
      var fs := Synchronize(c.progress, f, LastIndex(s), resp.success, resp.matchIndex, resp.lastLogIndex);
      var n := QuorumIndex(s, term, fs, peers, LastIndex(s));
      c.(progress := fs,
         leader := if resp.success && n != s.commit then ApplyUpTo(c.leader.(log := AdvanceCommit(s, n)), k) else c.leader)
    case Refuse(f, _) =>
      var last := LastIndex(c.followers[f].log);
      c.(responses := c.responses + {(f, AppendResponse(term, false, last, last))})
  }

  // ----- The invariant -----

  ghost predicate ReplicaOk(r: Replica) {
    && Plain(r.log) && Indexed(r.log)
    && 0 <= r.log.applied <= r.log.commit <= |r.log.entries|
    && r.done == r.log.entries[..r.log.applied]
  }

  /** The followers that hold index n; the leader holds all of its own log. */
  ghost function Holders(c: Cluster, n: int): set<string> {
    set p | p in c.followers && |c.followers[p].log.entries| >= n
  }

  ghost predicate MajorityHolds(peers: seq<string>, c: Cluster, n: int) {
    |Holders(c, n)| + 1 >= Quorum(peers)
  }

  ghost predicate Distinct(peers: seq<string>) {
    forall i, j :: 0 <= i < j < |peers| ==> peers[i] != peers[j]
  }

  ghost predicate ReplicasOk(peers: seq<string>, c: Cluster) {
    && Distinct(peers) && c.followers.Keys == (set p | p in peers)
    && ReplicaOk(c.leader)
    && (forall p :: p in c.followers ==> ReplicaOk(c.followers[p]) && c.followers[p].log.entries <= c.leader.log.entries)
    && MajorityHolds(peers, c, c.leader.log.commit)
  }

  ghost predicate RequestOk(full: seq<LogEntry>, req: AppendRequest) {
    && 0 <= req.prevIndex && req.prevIndex + |req.entries| <= |full|
    && req.entries == full[req.prevIndex..req.prevIndex + |req.entries|]
    && req.prevTerm == TermAt(full, req.prevIndex)
  }

  ghost predicate NetworkOk(c: Cluster) {
    && (forall f, req :: (f, req) in c.requests ==> RequestOk(c.leader.log.entries, req))
    && (forall f, resp :: (f, resp) in c.responses && f in c.followers ==>
          && 0 <= resp.matchIndex <= |c.followers[f].log.entries|
          && 0 <= resp.lastLogIndex <= |c.followers[f].log.entries|)
  }

  ghost predicate ProgressOk(c: Cluster) {
    forall p :: p in c.progress ==>
      && p in c.followers
      && 0 <= c.progress[p].matchIndex <= |c.followers[p].log.entries|
      && 1 <= c.progress[p].nextIndex <= |c.leader.log.entries| + 1
  }

  ghost predicate Inv(peers: seq<string>, c: Cluster) {
    ReplicasOk(peers, c) && NetworkOk(c) && ProgressOk(c)
  }

  ghost predicate Init(peers: seq<string>, c: Cluster) {
    ReplicasOk(peers, c) && c.requests == {} && c.responses == {} && c.progress == map[]
  }

  // ----- Local facts -----

  lemma {:induction false} MarkAllAdvances(s: Log, full: seq<LogEntry>, k: nat)
    requires Plain(s) && s.entries == full && 0 <= s.applied && s.applied + k <= s.commit <= |full|
    ensures MarkAll(s, full[s.applied..s.applied + k]) == s.(applied := s.applied + k)
    decreases k
  {
    if k > 0 {
      var a := s.applied;
      var es := full[a..a + k];
      assert es[0] == full[a] && es[1..] == full[a + 1..a + k];
      MarkAllAdvances(s.(applied := a + 1), full, k - 1);
    }
  }

  lemma SlicesJoin(es: seq<LogEntry>, a: nat, c: nat, n: nat)
    requires a + n <= c <= |es|
    ensures es[a..c][..n] == es[a..a + n]
    ensures es[..a] + es[a..a + n] == es[..a + n]
  {
  }

  /** However far it gets, applying keeps `done` equal to the applied prefix of the log. */
  lemma ApplyUpToOk(r: Replica, k: nat)
    requires ReplicaOk(r)
    ensures ReplicaOk(ApplyUpTo(r, k))
    ensures ApplyUpTo(r, k).log == r.log.(applied := ApplyUpTo(r, k).log.applied)
  {
    var s := r.log;
    assert s.entries[0..] == s.entries;
    CollectIsSlice(s, s.entries, s.applied + 1, s.commit + 1);
    var es := Unapplied(s);
    var n := if k < |es| then k else |es|;
    assert es == s.entries[s.applied..s.commit];
    SlicesJoin(s.entries, s.applied, s.commit, n);
    assert es[..|es|] == es;
    MarkAllAdvances(s, s.entries, n);
  }

  /** A prefix of the sender's log absorbs a slice of it by extension only. */
  lemma {:induction false} AbsorbExtends(s: Log, full: seq<LogEntry>, p: nat, q: nat)
    requires Plain(s) && Indexed(s) && IsLog(full) && s.entries <= full
    requires p <= q <= |full| && p <= |s.entries|
    ensures AbsorbAll(s, full[p..q]) == (s.(entries := if q <= |s.entries| then s.entries else full[..q]), true)
    decreases q - p
  {
    if p < q {
      var e := full[p];
      assert full[p..q][0] == e && full[p..q][1..] == full[p + 1..q];
      if p < |s.entries| {
        assert s.entries[p] == full[p];
        AbsorbExtends(s, full, p + 1, q);
      } else {
        var t := s.(entries := s.entries + [e]);
        assert s.entries == full[..p] && t.entries == full[..p + 1];
        assert Absorb(s, e) == Some(t);
        AbsorbExtends(t, full, p + 1, q);
      }
    }
  }

  lemma ReconcileExtends(s: Log, full: seq<LogEntry>, req: AppendRequest)
    requires Plain(s) && Indexed(s) && IsLog(full) && s.entries <= full && RequestOk(full, req)
    ensures
      var (t, reply) := Reconcile(s, req.prevIndex, req.prevTerm, req.entries);
      && t == s.(entries := t.entries) && Plain(t) && Indexed(t)
      && s.entries <= t.entries <= full
      && reply.Replied? && reply.matchIndex == |t.entries|
  {
    var p, q := req.prevIndex, req.prevIndex + |req.entries|;
    IndexedLast(s);
    if CheckConsistency(s, p, req.prevTerm) {
      AbsorbExtends(s, full, p, q);
      IndexedLast(AbsorbAll(s, req.entries).0);
    }
  }

  lemma ReceiveExtends(r: Replica, full: seq<LogEntry>, req: AppendRequest)
    requires ReplicaOk(r) && IsLog(full) && r.log.entries <= full && RequestOk(full, req)
    ensures
      var (s, reply) := ReceiveAppend(r.log, req);
      && ReplicaOk(r.(log := s))
      && r.log.entries <= s.entries <= full
      && reply.Some? && 0 <= reply.value.1 <= |s.entries|
      && LastIndex(s) == |s.entries|
  {
    ReconcileExtends(r.log, full, req);
    var t := Reconcile(r.log, req.prevIndex, req.prevTerm, req.entries).0;
    IndexedLast(t);
    assert t.entries[..r.log.applied] == r.log.entries[..r.log.applied];
  }

  lemma {:induction false} PeersAtBound(c: Cluster, peers: seq<string>, fs: map<string, Progress>, n: int)
    requires Distinct(peers)
    requires forall p :: p in peers ==> p in c.followers
    requires forall p :: p in peers && p in fs ==> fs[p].matchIndex <= |c.followers[p].log.entries|
    ensures PeersAt(fs, peers, n) <= |set p | p in peers && |c.followers[p].log.entries| >= n|
    decreases |peers|
  {
    if peers != [] {
      var front, last := peers[..|peers| - 1], peers[|peers| - 1];
      assert peers == front + [last];
      PeersAtBound(c, front, fs, n);
      var small := set p | p in front && |c.followers[p].log.entries| >= n;
      var big := set p | p in peers && |c.followers[p].log.entries| >= n;
      assert last !in front;
      if |c.followers[last].log.entries| >= n {
        assert big == small + {last};
      } else {
        assert big == small;
      }
    }
  }

  /** Majorities stay majorities as logs grow. */
  lemma MajorityStays(peers: seq<string>, c: Cluster, d: Cluster, n: int)
    requires MajorityHolds(peers, c, n)
    requires forall p :: p in c.followers ==>
      p in d.followers && |c.followers[p].log.entries| <= |d.followers[p].log.entries|
    ensures MajorityHolds(peers, d, n)
  {
    SubsetSize(Holders(c, n), Holders(d, n));
  }

  /** Where the engine stops applying is one of the places this model allows. */
  lemma {:induction false} EngineApplies(n: Node, es: seq<LogEntry>) returns (k: nat)
    ensures k <= |es| && ApplyEntries(n, es).0.log == MarkAll(n.log, es[..k])
    ensures ApplyEntries(n, es).1 ==> k == |es|
    decreases |es|
  {
    k := 0;
    if es != [] {
      var (m, o) := StateMachine.Apply(n.machine, es[0]);
      if !o.Raised? {
        var rest := EngineApplies(Node(MarkApplied(n.log, es[0].index), m), es[1..]);
        k := rest + 1;
        assert es[..k][0] == es[0] && es[..k][1..] == es[1..][..rest];
      }
    }
  }

  // ----- Each step keeps the invariant -----

  lemma RequestStays(full: seq<LogEntry>, longer: seq<LogEntry>, req: AppendRequest)
    requires RequestOk(full, req) && full <= longer
    ensures RequestOk(longer, req)
  {
    assert longer[..|full|] == full;
  }

  lemma ProposeKeeps(term: int, peers: seq<string>, c: Cluster, e: LogEntry, k: nat)
    requires Inv(peers, c)
    ensures Inv(peers, Apply(term, peers, c, Propose(e, k)))
    ensures c.leader.log.entries <= Apply(term, peers, c, Propose(e, k)).leader.log.entries
  {
    var d := Apply(term, peers, c, Propose(e, k));
    IndexedLast(c.leader.log);
    var s := c.leader.log.(entries := c.leader.log.entries + [Proposed(c.leader.log, term, e)]);
    var r := c.leader.(log := s);
    assert s.entries[..s.applied] == c.leader.log.entries[..s.applied];
    assert ReplicaOk(r);
    if peers == [] {
      IndexedLast(s);
      ApplyUpToOk(r.(log := AdvanceCommit(s, LastIndex(s))), k);
    }
    assert d.leader.log.entries == s.entries;
    MajorityStays(peers, c, d, c.leader.log.commit);
    forall f, req | (f, req) in d.requests ensures RequestOk(d.leader.log.entries, req) {
      RequestStays(c.leader.log.entries, s.entries, req);
    }
  }

  lemma BroadcastIsTrue(peers: seq<string>, c: Cluster, f: string)
    requires Inv(peers, c)
    ensures RequestOk(c.leader.log.entries, AppendFor(c.leader.log, NextFor(c, f)))
  {
    var full, next := c.leader.log.entries, NextFor(c, f);
    assert full[0..] == full;
    AppendForIsTrue(c.leader.log, full, next);
    assert full[next - 1..] == full[next - 1..|full|];
  }

  /** Truthful requests may be added to the network. */
  lemma RequestsGrow(peers: seq<string>, c: Cluster, more: set<(string, AppendRequest)>)
    requires Inv(peers, c) && forall f, req :: (f, req) in more ==> RequestOk(c.leader.log.entries, req)
    ensures Inv(peers, c.(requests := c.requests + more))
  {
    var d := c.(requests := c.requests + more);
    assert Holders(d, c.leader.log.commit) == Holders(c, c.leader.log.commit);
  }

  lemma BroadcastKeeps(term: int, peers: seq<string>, c: Cluster)
    requires Inv(peers, c)
    ensures Inv(peers, Apply(term, peers, c, Broadcast))
  {
    var more := set p | p in peers :: (p, AppendFor(c.leader.log, NextFor(c, p)));
    forall f, req | (f, req) in more ensures RequestOk(c.leader.log.entries, req) {
      BroadcastIsTrue(peers, c, f);
    }
    RequestsGrow(peers, c, more);
  }

  lemma FollowerReplaced(peers: seq<string>, c: Cluster, f: string, after: Replica)
    requires ReplicasOk(peers, c) && f in c.followers && ReplicaOk(after)
    requires c.followers[f].log.entries <= after.log.entries <= c.leader.log.entries
    ensures ReplicasOk(peers, c.(followers := c.followers[f := after]))
  {
    MajorityStays(peers, c, c.(followers := c.followers[f := after]), c.leader.log.commit);
  }

  /** A longer follower log bears out every response and progress record that the shorter one did. */
  lemma FollowerBearsOut(c: Cluster, f: string, after: Replica)
    requires NetworkOk(c) && ProgressOk(c) && f in c.followers && c.followers[f].log.entries <= after.log.entries
    ensures NetworkOk(c.(followers := c.followers[f := after])) && ProgressOk(c.(followers := c.followers[f := after]))
  {
  }

  /** Truthful responses may be added to the network. */
  lemma ResponsesGrow(peers: seq<string>, c: Cluster, more: set<(string, AppendResponse)>)
    requires Inv(peers, c)
    requires forall f, resp :: (f, resp) in more ==>
      && f in c.followers && 0 <= resp.matchIndex <= |c.followers[f].log.entries|
      && 0 <= resp.lastLogIndex <= |c.followers[f].log.entries|
    ensures Inv(peers, c.(responses := c.responses + more))
  {
    assert Holders(c.(responses := c.responses + more), c.leader.log.commit) == Holders(c, c.leader.log.commit);
  }

  /** A follower's log may grow along the leader's, with truthful responses, and all is well. */
  lemma FollowerGrows(peers: seq<string>, c: Cluster, f: string, after: Replica, more: set<(string, AppendResponse)>)
    requires Inv(peers, c) && f in c.followers && ReplicaOk(after)
    requires c.followers[f].log.entries <= after.log.entries <= c.leader.log.entries
    requires forall g, resp :: (g, resp) in more ==>
      g == f && 0 <= resp.matchIndex <= |after.log.entries| && 0 <= resp.lastLogIndex <= |after.log.entries|
    ensures Inv(peers, c.(followers := c.followers[f := after], responses := c.responses + more))
  {
    FollowerReplaced(peers, c, f, after);
    FollowerBearsOut(c, f, after);
    ResponsesGrow(peers, c.(followers := c.followers[f := after]), more);
  }

  lemma ReceivedOk(r: Replica, full: seq<LogEntry>, req: AppendRequest, k: nat)
    requires ReplicaOk(r) && IsLog(full) && r.log.entries <= full && RequestOk(full, req)
    ensures
      var after, reply := Received(r, req, k), ReceiveAppend(r.log, req).1;
      && ReplicaOk(after) && r.log.entries <= after.log.entries <= full
      && reply.Some? && 0 <= reply.value.1 <= |after.log.entries| && LastIndex(after.log) == |after.log.entries|
  {
    ReceiveExtends(r, full, req);
    ApplyUpToOk(r.(log := ReceiveAppend(r.log, req).0), k);
    IndexedLast(Received(r, req, k).log);
  }

  lemma RequestKeeps(term: int, peers: seq<string>, c: Cluster, f: string, req: AppendRequest, k: nat)
    requires Inv(peers, c) && f in c.followers && (f, req) in c.requests
    ensures Inv(peers, Apply(term, peers, c, DeliverRequest(f, req, k)))
  {
    ReceivedOk(c.followers[f], c.leader.log.entries, req, k);
    var after, r := Received(c.followers[f], req, k), ReceiveAppend(c.followers[f].log, req).1.value;
    FollowerGrows(peers, c, f, after, {(f, AppendResponse(term, r.0, r.1, LastIndex(after.log)))});
  }

  lemma SynchronizeOk(c: Cluster, f: string, resp: AppendResponse)
    requires ProgressOk(c) && f in c.followers && c.followers[f].log.entries <= c.leader.log.entries
    requires 0 <= resp.matchIndex <= |c.followers[f].log.entries|
    requires 0 <= resp.lastLogIndex <= |c.followers[f].log.entries|
    requires LastIndex(c.leader.log) == |c.leader.log.entries|
    ensures
      var fs := Synchronize(c.progress, f, LastIndex(c.leader.log), resp.success, resp.matchIndex, resp.lastLogIndex);
      ProgressOk(c.(progress := fs))
  {
  }

  /** What the leader's count of progress records decides, a majority holds. */
  lemma DecidedIsHeld(term: int, peers: seq<string>, c: Cluster, fs: map<string, Progress>)
    requires Inv(peers, c) && ProgressOk(c.(progress := fs))
    ensures
      var n := QuorumIndex(c.leader.log, term, fs, peers, LastIndex(c.leader.log));
      n != c.leader.log.commit ==> c.leader.log.commit < n <= |c.leader.log.entries| && MajorityHolds(peers, c, n)
  {
    IndexedLast(c.leader.log);
    var n := QuorumIndex(c.leader.log, term, fs, peers, LastIndex(c.leader.log));
    PeersAtBound(c, peers, fs, n);
    assert Holders(c, n) == set p | p in peers && |c.followers[p].log.entries| >= n;
  }

  /** The leader may commit what a majority holds, with progress records that stay within the logs. */
  lemma LeaderMoves(peers: seq<string>, c: Cluster, after: Replica, fs: map<string, Progress>)
    requires Inv(peers, c) && ProgressOk(c.(progress := fs)) && ReplicaOk(after)
    requires after.log.entries == c.leader.log.entries && MajorityHolds(peers, c, after.log.commit)
    ensures Inv(peers, c.(leader := after, progress := fs))
  {
    assert Holders(c.(leader := after, progress := fs), after.log.commit) == Holders(c, after.log.commit);
  }

  lemma ResponseKeeps(term: int, peers: seq<string>, c: Cluster, f: string, resp: AppendResponse, k: nat)
    requires Inv(peers, c) && f in c.followers && (f, resp) in c.responses
    ensures Inv(peers, Apply(term, peers, c, DeliverResponse(f, resp, k)))
    ensures Apply(term, peers, c, DeliverResponse(f, resp, k)).leader.log.entries == c.leader.log.entries
  {
    var s := c.leader.log;
    IndexedLast(s);
    SynchronizeOk(c, f, resp);
    var fs := Synchronize(c.progress, f, LastIndex(s), resp.success, resp.matchIndex, resp.lastLogIndex);
    var n := QuorumIndex(s, term, fs, peers, LastIndex(s));
    var after := c.leader;
    if resp.success && n != s.commit {
      DecidedIsHeld(term, peers, c, fs);
      ApplyUpToOk(c.leader.(log := AdvanceCommit(s, n)), k);
      after := ApplyUpTo(c.leader.(log := AdvanceCommit(s, n)), k);
    }
    LeaderMoves(peers, c, after, fs);
  }

  lemma StepKeeps(term: int, peers: seq<string>, c: Cluster, step: Step)
    requires Inv(peers, c) && Enabled(c, step)
    ensures Inv(peers, Apply(term, peers, c, step))
    ensures c.leader.log.entries <= Apply(term, peers, c, step).leader.log.entries
  {
    match step {
      case Propose(e, k) => ProposeKeeps(term, peers, c, e, k);
      case Broadcast => BroadcastKeeps(term, peers, c);
      case DeliverRequest(f, req, k) => RequestKeeps(term, peers, c, f, req, k);
      case DeliverResponse(f, resp, k) => ResponseKeeps(term, peers, c, f, resp, k);
      case Refuse(f, _) =>
        IndexedLast(c.followers[f].log);
        var last := LastIndex(c.followers[f].log);
        ResponsesGrow(peers, c, {(f, AppendResponse(term, false, last, last))});
    }
  }

  // ----- Whole runs -----

  ghost predicate Next(term: int, peers: seq<string>, c: Cluster, d: Cluster) {
    && Indexed(c.leader.log) && (forall p :: p in c.followers ==> Indexed(c.followers[p].log))
    && exists step :: Enabled(c, step) && d == Apply(term, peers, c, step)
  }

  ghost predicate IsRun(term: int, peers: seq<string>, run: seq<Cluster>) {
    && 0 < |run|
    && Init(peers, run[0])
    && forall i :: 0 <= i < |run| - 1 ==> Next(term, peers, run[i], run[i + 1])
  }

  lemma {:induction false} RunKeeps(term: int, peers: seq<string>, run: seq<Cluster>, i: nat, j: nat)
    requires IsRun(term, peers, run) && i <= j < |run|
    ensures Inv(peers, run[i]) && Inv(peers, run[j])
    ensures run[i].leader.log.entries <= run[j].leader.log.entries
    decreases j
  {
    if j > 0 {
      RunKeeps(term, peers, run, if i < j then i else j - 1, j - 1);
      assert Next(term, peers, run[j - 1], run[j]);
      var step :| Enabled(run[j - 1], step) && run[j] == Apply(term, peers, run[j - 1], step);
      StepKeeps(term, peers, run[j - 1], step);
    } else {
      assert Inv(peers, run[0]);
    }
  }

  ghost predicate IsNode(c: Cluster, r: Replica) {
    r == c.leader || exists p :: p in c.followers && c.followers[p] == r
  }

  /** In every state of every run each follower's log is a prefix of the leader's. */
  lemma FollowersArePrefixes(term: int, peers: seq<string>, run: seq<Cluster>, i: nat, p: string)
    requires IsRun(term, peers, run) && i < |run| && p in run[i].followers
    ensures run[i].followers[p].log.entries <= run[i].leader.log.entries
  {
    RunKeeps(term, peers, run, i, i);
  }

  /** Whatever the leader has committed, a majority of the cluster holds. */
  lemma CommittedIsOnMajority(term: int, peers: seq<string>, run: seq<Cluster>, i: nat, n: int)
    requires IsRun(term, peers, run) && i < |run| && 0 < n <= run[i].leader.log.commit
    ensures |set p | p in run[i].followers && |run[i].followers[p].log.entries| >= n| + 1 >= Quorum(peers)
    ensures n <= |run[i].leader.log.entries|
  {
    RunKeeps(term, peers, run, i, i);
    SubsetSize(Holders(run[i], run[i].leader.log.commit), Holders(run[i], n));
  }

  lemma DonePrefix(peers: seq<string>, c: Cluster, r: Replica)
    requires Inv(peers, c) && IsNode(c, r)
    ensures r.done <= c.leader.log.entries
  {
    assert ReplicaOk(r) && r.log.entries <= c.leader.log.entries;
  }

  /** The command sequences any two nodes have applied, at any two moments, are prefixes of one another. */
  lemma AppliedSequencesAgree(term: int, peers: seq<string>, run: seq<Cluster>, i: nat, j: nat, a: Replica, b: Replica)
    requires IsRun(term, peers, run) && i <= j < |run| && IsNode(run[i], a) && IsNode(run[j], b)
    ensures a.done <= b.done || b.done <= a.done
  {
    RunKeeps(term, peers, run, i, j);
    DonePrefix(peers, run[i], a);
    DonePrefix(peers, run[j], b);
    PrefixesCompare(a.done, b.done, run[j].leader.log.entries);
  }

  lemma PrefixesCompare(a: seq<LogEntry>, b: seq<LogEntry>, full: seq<LogEntry>)
    requires a <= full && b <= full
    ensures a <= b || b <= a
  {
  }
}
