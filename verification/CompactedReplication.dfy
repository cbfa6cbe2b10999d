/**
 Replication in which any node may compact its log at any moment.  Every such run follows a run in which
 nobody compacts, so what holds of those runs holds here of the histories the logs stand for.  Snapshots
 are not sent here: a follower behind the leader's boundary gets no request.
 */
module CompactedReplication {
  import opened Wrappers
  import opened Models
  import opened RaftLog
  import opened LogRefinement
  import opened LogMatching
  import opened Engine
  import R = Replication
  import Q = QuorumCommit

  /** A node's log, the history it stands for, and the entries its state machine has completed, in order. */
  datatype Replica = Replica(log: Log, full: seq<LogEntry>, done: seq<LogEntry>)

  datatype Cluster = Cluster(
    leader: Replica,
    progress: map<string, Progress>,
    followers: map<string, Replica>,
    requests: set<(string, AppendRequest)>,
    responses: set<(string, AppendResponse)>)

  datatype Step =
    | Propose(entry: LogEntry, k: nat)
    | Broadcast
    | DeliverRequest(dst: string, request: AppendRequest, k: nat)
    | DeliverResponse(src: string, response: AppendResponse, k: nat)
    | CompactLeader(index: int)
    | CompactFollower(node: string, index: int)

  function ApplyUpTo(r: Replica, k: nat): Replica {
    var es := Unapplied(r.log);
    var first := if k < |es| then es[..k] else es;
    r.(log := R.MarkAll(r.log, first), done := r.done + first)
  }

  /** The history after the log changed: what compaction has dropped, and then the entries the log shows. */
  function Standing(r: Replica, s: Log): Replica
    requires 0 <= r.log.snapIndex <= |r.full|
  {
    Replica(s, r.full[..r.log.snapIndex] + s.entries, r.done)
  }

  function Received(r: Replica, req: AppendRequest, k: nat): Replica
    requires Indexed(r.log) && 0 <= r.log.snapIndex <= |r.full|
  {
    var moved := Standing(r, ReceiveAppend(r.log, req).0);
    if CommitMoves(r.log, req) then ApplyUpTo(moved, k) else moved
  }

  function Appended(r: Replica, e: LogEntry): Replica {
    r.(log := r.log.(entries := r.log.entries + [e]), full := r.full + [e])
  }

  function NextFor(c: Cluster, p: string): int {
    if p in c.progress then c.progress[p].nextIndex else 1
  }

  /** The peer's next entry is still in the leader's log. */
  predicate Sendable(c: Cluster, p: string) {
    c.leader.log.snapIndex == 0 || c.leader.log.snapIndex < NextFor(c, p)
  }

  ghost predicate Enabled(c: Cluster, step: Step) {
    match step
    case DeliverRequest(f, req, _) => f in c.followers && (f, req) in c.requests
    case DeliverResponse(f, resp, _) => f in c.followers && (f, resp) in c.responses
    case CompactFollower(f, _) => f in c.followers
    case _ => true
  }

  ghost predicate Sound(r: Replica) {
    Indexed(r.log) && 0 <= r.log.snapIndex <= |r.full|
  }

  ghost predicate AllSound(c: Cluster) {
    Sound(c.leader) && forall p :: p in c.followers ==> Sound(c.followers[p])
  }

  ghost function Apply(term: int, peers: seq<string>, c: Cluster, step: Step): Cluster
    requires AllSound(c) && Enabled(c, step)
  {
    match step
    case Propose(e, k) =>
      var r := Appended(c.leader, R.Proposed(c.leader.log, term, e));
      c.(leader := if peers == [] then ApplyUpTo(r.(log := AdvanceCommit(r.log, LastIndex(r.log))), k) else r)
    case Broadcast =>
      c.(requests := c.requests + set p | p in peers && Sendable(c, p) :: (p, AppendFor(c.leader.log, NextFor(c, p))))
    case DeliverRequest(f, req, k) =>
      assert Sound(c.followers[f]);
      var after, reply := Received(c.followers[f], req, k), ReceiveAppend(c.followers[f].log, req).1;
      var c' := c.(followers := c.followers[f := after]);
      if reply.None? then c'
      else c'.(responses := c'.responses + {(f, AppendResponse(term, reply.value.0, reply.value.1, LastIndex(after.log)))})
    case DeliverResponse(f, resp, k) =>
      var s := c.leader.log;
      var fs := Synchronize(c.progress, f, LastIndex(s), resp.success, resp.matchIndex, resp.lastLogIndex);
      var n := QuorumIndex(s, term, fs, peers, LastIndex(s));
      c.(progress := fs,
         leader := if resp.success && n != s.commit then ApplyUpTo(c.leader.(log := AdvanceCommit(s, n)), k) else c.leader)
    case CompactLeader(i) => c.(leader := c.leader.(log := Compact(c.leader.log, i)))
    case CompactFollower(f, i) =>
      c.(followers := c.followers[f := c.followers[f].(log := Compact(c.followers[f].log, i))])
  }

  // ----- One node and its uncompacted twin -----

  ghost predicate Ok(r: Replica) {
    Refines(r.log, r.full) && r.log.snapIndex <= r.log.applied <= r.log.commit <= |r.full|
  }

  function Twin(r: Replica): R.Replica { R.Replica(Uncompacted(r.log, r.full), r.done) }

  lemma OkIsSound(r: Replica)
    requires Ok(r)
    ensures Sound(r) && Indexed(Twin(r).log) && LastIndex(r.log) == LastIndex(Twin(r).log) == |r.full|
  {
    RefinesIndexed(r.log, r.full);
  }

  lemma {:induction false} MarkAllTwin(s: Log, full: seq<LogEntry>, es: seq<LogEntry>)
    requires s.applied <= s.commit
    ensures Uncompacted(R.MarkAll(s, es), full) == R.MarkAll(Uncompacted(s, full), es)
    ensures R.MarkAll(s, es) == s.(applied := R.MarkAll(s, es).applied) && s.applied <= R.MarkAll(s, es).applied <= s.commit
    decreases |es|
  {
    if es != [] { MarkAllTwin(MarkApplied(s, es[0].index), full, es[1..]); }
  }

  lemma UnappliedTwin(r: Replica)
    requires Ok(r)
    ensures Unapplied(r.log) == Unapplied(Twin(r).log)
  {
    var s := r.log;
    RefinesIndexed(s, r.full);
    CollectIsSlice(s, r.full, s.applied + 1, s.commit + 1);
    CollectIsSlice(Twin(r).log, r.full, s.applied + 1, s.commit + 1);
  }

  lemma ApplyTwin(r: Replica, k: nat)
    requires Ok(r)
    ensures Ok(ApplyUpTo(r, k)) && Twin(ApplyUpTo(r, k)) == R.ApplyUpTo(Twin(r), k)
  {
    UnappliedTwin(r);
    var es := Unapplied(r.log);
    MarkAllTwin(r.log, r.full, if k < |es| then es[..k] else es);
  }

  lemma CommitTwin(r: Replica, n: int)
    requires Ok(r)
    ensures Ok(r.(log := AdvanceCommit(r.log, n)))
    ensures Twin(r.(log := AdvanceCommit(r.log, n))) == Twin(r).(log := AdvanceCommit(Twin(r).log, n))
  {
    OkIsSound(r);
  }

  lemma AppendTwin(r: Replica, term: int, e: LogEntry)
    requires Ok(r)
    ensures R.Proposed(r.log, term, e) == R.Proposed(Twin(r).log, term, e)
    ensures
      var after := Appended(r, R.Proposed(r.log, term, e));
      Ok(after) && Twin(after).log == Twin(r).log.(entries := r.full + [R.Proposed(r.log, term, e)])
  {
    OkIsSound(r);
    var after := Appended(r, R.Proposed(r.log, term, e));
    assert after.full[r.log.snapIndex..] == r.full[r.log.snapIndex..] + [R.Proposed(r.log, term, e)];
    assert TermAt(after.full, r.log.snapIndex) == TermAt(r.full, r.log.snapIndex);
  }

  lemma CompactTwin(r: Replica, i: int)
    requires Ok(r)
    ensures Ok(r.(log := Compact(r.log, i))) && Twin(r.(log := Compact(r.log, i))) == Twin(r)
  {
    CompactAgrees(r.log, r.full, i);
    CompactMoves(r.log, r.full, i);
  }

  /** The request is at or above the follower's boundary, or asks nothing of it. */
  predicate Heard(r: Replica, req: AppendRequest) {
    r.log.snapIndex <= req.prevIndex || (req.prevIndex == 0 && req.entries == [])
  }

  /** The entries follow the index they are sent for. */
  ghost predicate Consecutive(req: AppendRequest) {
    forall i :: 0 <= i < |req.entries| ==> req.entries[i].index == req.prevIndex + 1 + i
  }

  lemma ReconcileTwin(r: Replica, req: AppendRequest)
    requires Ok(r) && Consecutive(req) && Heard(r, req)
    ensures Sound(r) && Indexed(Twin(r).log)
    ensures
      var (t, reply) := Reconcile(r.log, req.prevIndex, req.prevTerm, req.entries);
      && (t.snapIndex, t.applied) == (r.log.snapIndex, r.log.applied) && Refines(t, Standing(r, t).full)
      && Reconcile(Twin(r).log, req.prevIndex, req.prevTerm, req.entries) == (Uncompacted(t, Standing(r, t).full), reply)
  {
    OkIsSound(r);
    if r.log.snapIndex <= req.prevIndex {
      AboveTwin(r, req);
    } else {
      assert r.full[..r.log.snapIndex] + r.log.entries == r.full;
    }
  }

  lemma {:induction false} AbsorbBoundary(s: Log, full: seq<LogEntry>, es: seq<LogEntry>) returns (full': seq<LogEntry>)
    requires Refines(s, full) && (forall e :: e in es ==> s.snapIndex < e.index)
    ensures Indexed(s) && Indexed(Uncompacted(s, full))
    ensures
      var t := AbsorbAll(s, es).0;
      && Refines(t, full') && t.snapIndex == s.snapIndex && t.applied == s.applied
      && full' == full[..s.snapIndex] + t.entries
      && AbsorbAll(Uncompacted(s, full), es) == (Uncompacted(t, full'), AbsorbAll(s, es).1)
    decreases |es|
  {
    RefinesIndexed(s, full);
    full' := full;
    assert full == full[..s.snapIndex] + full[s.snapIndex..];
    if es != [] {
      assert es[0] in es;
      var next := AbsorbOneAgrees(s, full, es[0]);
      match Absorb(s, es[0]) {
        case None =>
        case Some(t) =>
          full' := AbsorbBoundary(t, next, es[1..]);
          AbsorbOneBelow(s, full, es[0], next);
      }
    }
  }

  lemma AbsorbOneBelow(s: Log, full: seq<LogEntry>, e: LogEntry, next: seq<LogEntry>)
    requires Refines(s, full) && Indexed(s) && s.snapIndex < e.index && Absorb(s, e).Some? && Refines(Absorb(s, e).value, next)
    requires Indexed(Uncompacted(s, full)) && Absorb(Uncompacted(s, full), e) == Some(Uncompacted(Absorb(s, e).value, next))
    ensures next[..s.snapIndex] == full[..s.snapIndex]
  {
    RefinesIndexed(s, full);
  }

  lemma AboveTwin(r: Replica, req: AppendRequest)
    requires Ok(r) && Consecutive(req) && r.log.snapIndex <= req.prevIndex
    ensures Sound(r) && Indexed(Twin(r).log)
    ensures
      var (t, reply) := Reconcile(r.log, req.prevIndex, req.prevTerm, req.entries);
      && (t.snapIndex, t.applied) == (r.log.snapIndex, r.log.applied) && Refines(t, Standing(r, t).full)
      && Reconcile(Twin(r).log, req.prevIndex, req.prevTerm, req.entries) == (Uncompacted(t, Standing(r, t).full), reply)
  {
    OkIsSound(r);
    ConsistencyAgrees(r.log, r.full, req.prevIndex, req.prevTerm);
    if CheckConsistency(r.log, req.prevIndex, req.prevTerm) {
      var full := AbsorbBoundary(r.log, r.full, req.entries);
      RefinesIndexed(AbsorbAll(r.log, req.entries).0, full);
    } else {
      assert r.full[..r.log.snapIndex] + r.log.entries == r.full;
    }
  }

  lemma AdvanceTwin(t: Log, full: seq<LogEntry>, n: int)
    requires Refines(t, full)
    ensures Uncompacted(AdvanceCommit(t, n), full) == AdvanceCommit(Uncompacted(t, full), n)
    ensures AdvanceCommit(t, n) == t.(commit := AdvanceCommit(t, n).commit)
  {
    RefinesIndexed(t, full);
  }

  /** Receiving changes log and twin alike; that the applied part is safe is known of the twin. */
  lemma MovedTwin(r: Replica, req: AppendRequest)
    requires Ok(r) && Consecutive(req) && Heard(r, req)
    ensures Sound(r) && Indexed(Twin(r).log)
    ensures
      var (s, reply) := ReceiveAppend(r.log, req);
      && (s.snapIndex, s.applied) == (r.log.snapIndex, r.log.applied) && Refines(s, Standing(r, s).full)
      && ReceiveAppend(Twin(r).log, req) == (Uncompacted(s, Standing(r, s).full), reply)
      && (CommitMoves(r.log, req) <==> CommitMoves(Twin(r).log, req))
  {
    ReconcileTwin(r, req);
    var (t, reply) := Reconcile(r.log, req.prevIndex, req.prevTerm, req.entries);
    if reply.Replied? {
      AdvanceTwin(t, Standing(r, t).full, if req.leaderCommit < reply.matchIndex then req.leaderCommit else reply.matchIndex);
    }
  }

  lemma ReceiveTwin(r: Replica, full: seq<LogEntry>, req: AppendRequest, k: nat)
    requires Ok(r) && R.ReplicaOk(Twin(r)) && IsLog(full) && r.full <= full && R.RequestOk(full, req) && Heard(r, req)
    ensures Sound(r) && Indexed(Twin(r).log)
    ensures Ok(Received(r, req, k)) && Twin(Received(r, req, k)) == R.Received(Twin(r), req, k)
    ensures ReceiveAppend(r.log, req).1 == ReceiveAppend(Twin(r).log, req).1
  {
    RequestIsConsecutive(full, req);
    MovedTwin(r, req);
    R.ReceiveExtends(Twin(r), full, req);
    var moved := Standing(r, ReceiveAppend(r.log, req).0);
    assert Twin(moved) == Twin(r).(log := ReceiveAppend(Twin(r).log, req).0);
    assert Ok(moved);
    ApplyTwin(moved, k);
  }

  lemma RequestIsConsecutive(full: seq<LogEntry>, req: AppendRequest)
    requires IsLog(full) && R.RequestOk(full, req)
    ensures Consecutive(req)
  {
    forall i | 0 <= i < |req.entries| ensures req.entries[i].index == req.prevIndex + 1 + i {
      assert req.entries[i] == full[req.prevIndex + i];
    }
  }

  /** A request below the boundary is refused or raises, and the follower stays as it is. */
  lemma UnheardStays(r: Replica, req: AppendRequest, k: nat)
    requires Ok(r) && Consecutive(req) && !Heard(r, req)
    ensures Sound(r) && Received(r, req, k) == r
    ensures ReceiveAppend(r.log, req).1 == if req.prevIndex == 0 then None else Some((false, |r.full|))
  {
    OkIsSound(r);
    ReconcileBelow(r.log, r.full, req.prevIndex, req.prevTerm, req.entries);
    assert r.full[..r.log.snapIndex] + r.log.entries == r.full;
  }

  lemma {:induction false} QuorumTwin(r: Replica, term: int, fs: map<string, Progress>, peers: seq<string>, n: int)
    requires Ok(r)
    ensures QuorumIndex(r.log, term, fs, peers, n) == QuorumIndex(Twin(r).log, term, fs, peers, n)
    decreases n - r.log.commit
  {
    if n > r.log.commit {
      OkIsSound(r);
      TermAgrees(r.log, r.full, n);
      QuorumTwin(r, term, fs, peers, n - 1);
    }
  }

  // ----- The cluster and its twin -----

  /** d is c with every log uncompacted, and at least c's messages. */
  ghost predicate Follows(c: Cluster, d: R.Cluster) {
    && Ok(c.leader) && (forall p :: p in c.followers ==> Ok(c.followers[p]))
    && d.leader == Twin(c.leader) && d.progress == c.progress
    && d.followers.Keys == c.followers.Keys && (forall p :: p in c.followers ==> d.followers[p] == Twin(c.followers[p]))
    && c.requests <= d.requests && c.responses <= d.responses
  }

  lemma FollowsSound(c: Cluster, d: R.Cluster)
    requires Follows(c, d)
    ensures AllSound(c)
  {
    OkIsSound(c.leader);
    forall p | p in c.followers ensures Sound(c.followers[p]) { OkIsSound(c.followers[p]); }
  }

  /** One follower changed along with its twin, and responses that the twin sent too. */
  lemma FollowerFollows(c: Cluster, d: R.Cluster, f: string, after: Replica, more: set<(string, AppendResponse)>, e: R.Cluster)
    requires Follows(c, d) && f in c.followers && Ok(after)
    requires e == d.(followers := d.followers[f := Twin(after)], responses := d.responses + more)
    ensures Follows(c.(followers := c.followers[f := after], responses := c.responses + more), e)
  {
  }

  lemma LeaderFollows(c: Cluster, d: R.Cluster, after: Replica, fs: map<string, Progress>)
    requires Follows(c, d) && Ok(after)
    ensures Follows(c.(leader := after, progress := fs), d.(leader := Twin(after), progress := fs))
  {
  }

  /** The twin takes the same step, or none. */
  ghost predicate TwinStep(term: int, peers: seq<string>, d: R.Cluster, e: R.Cluster) {
    e == d || R.Next(term, peers, d, e)
  }

  lemma Takes(term: int, peers: seq<string>, d: R.Cluster, step: R.Step)
    requires R.Inv(peers, d) && R.Enabled(d, step)
    ensures R.Next(term, peers, d, R.Apply(term, peers, d, step))
  {
  }

  lemma ProposeFollows(term: int, peers: seq<string>, c: Cluster, d: R.Cluster, e: LogEntry, k: nat)
    requires Follows(c, d) && R.Inv(peers, d)
    ensures AllSound(c) && Follows(Apply(term, peers, c, Propose(e, k)), R.Apply(term, peers, d, R.Propose(e, k)))
  {
    FollowsSound(c, d);
    AppendTwin(c.leader, term, e);
    var r := Appended(c.leader, R.Proposed(c.leader.log, term, e));
    var after := r;
    if peers == [] {
      OkIsSound(r);
      CommitTwin(r, LastIndex(r.log));
      ApplyTwin(r.(log := AdvanceCommit(r.log, LastIndex(r.log))), k);
      after := ApplyUpTo(r.(log := AdvanceCommit(r.log, LastIndex(r.log))), k);
    }
    LeaderFollows(c, d, after, c.progress);
  }

  lemma BroadcastFollows(term: int, peers: seq<string>, c: Cluster, d: R.Cluster)
    requires Follows(c, d) && R.Inv(peers, d)
    ensures AllSound(c) && Follows(Apply(term, peers, c, Broadcast), R.Apply(term, peers, d, R.Broadcast))
  {
    FollowsSound(c, d);
    var c', d' := Apply(term, peers, c, Broadcast), R.Apply(term, peers, d, R.Broadcast);
    forall p, req | (p, req) in c'.requests ensures (p, req) in d'.requests {
      if (p, req) !in c.requests { RequestTwin(peers, c, d, p); }
    }
  }

  lemma NextWithin(peers: seq<string>, c: Cluster, d: R.Cluster, p: string)
    requires Follows(c, d) && R.Inv(peers, d)
    ensures 1 <= NextFor(c, p) <= |c.leader.full| + 1 && NextFor(c, p) == R.NextFor(d, p)
  {
  }

  lemma SameRequest(r: Replica, next: int)
    requires Ok(r) && 1 <= next <= |r.full| + 1 && r.log.snapIndex < next
    ensures Indexed(r.log) && Indexed(Twin(r).log) && AppendFor(r.log, next) == AppendFor(Twin(r).log, next)
  {
    OkIsSound(r);
    AppendForIsTrue(r.log, r.full, next);
    AppendForIsTrue(Twin(r).log, r.full, next);
  }

  lemma RequestTwin(peers: seq<string>, c: Cluster, d: R.Cluster, p: string)
    requires Follows(c, d) && R.Inv(peers, d) && Sendable(c, p)
    ensures Indexed(c.leader.log) && Indexed(d.leader.log)
    ensures AppendFor(c.leader.log, NextFor(c, p)) == AppendFor(d.leader.log, R.NextFor(d, p))
  {
    NextWithin(peers, c, d, p);
    SameRequest(c.leader, NextFor(c, p));
  }

  /** The leader after a response, its progress records already updated. */
  function Committing(r: Replica, success: bool, n: int, k: nat): Replica {
    if success && n != r.log.commit then ApplyUpTo(r.(log := AdvanceCommit(r.log, n)), k) else r
  }

  lemma CommittingTwin(r: Replica, success: bool, n: int, k: nat)
    requires Ok(r)
    ensures Ok(Committing(r, success, n, k))
    ensures Twin(Committing(r, success, n, k)) ==
            if success && n != r.log.commit then R.ApplyUpTo(Twin(r).(log := AdvanceCommit(Twin(r).log, n)), k) else Twin(r)
  {
    CommitTwin(r, n);
    ApplyTwin(r.(log := AdvanceCommit(r.log, n)), k);
  }

  lemma ResponseFollows(term: int, peers: seq<string>, c: Cluster, d: R.Cluster, f: string, resp: AppendResponse, k: nat)
    requires Follows(c, d) && R.Inv(peers, d) && f in c.followers && (f, resp) in c.responses
    ensures AllSound(c)
    ensures Follows(Apply(term, peers, c, DeliverResponse(f, resp, k)), R.Apply(term, peers, d, R.DeliverResponse(f, resp, k)))
  {
    FollowsSound(c, d);
    TwinIndexed(peers, d);
    OkIsSound(c.leader);
    var last := LastIndex(c.leader.log);
    var fs := Synchronize(c.progress, f, last, resp.success, resp.matchIndex, resp.lastLogIndex);
    var n := QuorumIndex(c.leader.log, term, fs, peers, last);
    QuorumTwin(c.leader, term, fs, peers, last);
    CommittingTwin(c.leader, resp.success, n, k);
    var after := Committing(c.leader, resp.success, n, k);
    LeaderFollows(c, d, after, fs);
    assert Apply(term, peers, c, DeliverResponse(f, resp, k)) == c.(leader := after, progress := fs);
    assert R.Apply(term, peers, d, R.DeliverResponse(f, resp, k)) == d.(leader := Twin(after), progress := fs);
  }

  lemma RequestFacts(peers: seq<string>, c: Cluster, d: R.Cluster, f: string, req: AppendRequest)
    requires Follows(c, d) && R.Inv(peers, d) && f in c.followers && (f, req) in c.requests
    ensures Ok(c.followers[f]) && R.ReplicaOk(Twin(c.followers[f])) && d.followers[f] == Twin(c.followers[f])
    ensures IsLog(c.leader.full) && c.followers[f].full <= c.leader.full && R.RequestOk(c.leader.full, req)
  {
  }

  /** What a delivered request does, given what the follower makes of it. */
  lemma Delivered(term: int, peers: seq<string>, c: Cluster, f: string, req: AppendRequest, k: nat, after: Replica, more: set<(string, AppendResponse)>)
    requires AllSound(c) && f in c.followers && (f, req) in c.requests && Sound(c.followers[f])
    requires after == Received(c.followers[f], req, k)
    requires
      var reply := ReceiveAppend(c.followers[f].log, req).1;
      more == if reply.Some? then {(f, AppendResponse(term, reply.value.0, reply.value.1, LastIndex(after.log)))} else {}
    ensures Apply(term, peers, c, DeliverRequest(f, req, k)) ==
            c.(followers := c.followers[f := after], responses := c.responses + more)
  {
    assert c.responses + {} == c.responses;
  }

  lemma TwinDelivered(term: int, peers: seq<string>, d: R.Cluster, f: string, req: AppendRequest, k: nat, after: R.Replica, more: set<(string, AppendResponse)>)
    requires Indexed(d.leader.log) && (forall p :: p in d.followers ==> Indexed(d.followers[p].log))
    requires f in d.followers && (f, req) in d.requests && after == R.Received(d.followers[f], req, k)
    requires
      var reply := ReceiveAppend(d.followers[f].log, req).1;
      more == if reply.Some? then {(f, AppendResponse(term, reply.value.0, reply.value.1, LastIndex(after.log)))} else {}
    ensures R.Apply(term, peers, d, R.DeliverRequest(f, req, k)) ==
            d.(followers := d.followers[f := after], responses := d.responses + more)
  {
    assert d.responses + {} == d.responses;
  }

  lemma TwinIndexed(peers: seq<string>, d: R.Cluster)
    requires R.Inv(peers, d)
    ensures Indexed(d.leader.log) && forall p :: p in d.followers ==> Indexed(d.followers[p].log)
  {
  }

  lemma HeardFollows(term: int, peers: seq<string>, c: Cluster, d: R.Cluster, f: string, req: AppendRequest, k: nat)
    requires Follows(c, d) && R.Inv(peers, d) && f in c.followers && (f, req) in c.requests && Heard(c.followers[f], req)
    ensures AllSound(c) && R.Enabled(d, R.DeliverRequest(f, req, k))
    ensures Follows(Apply(term, peers, c, DeliverRequest(f, req, k)), R.Apply(term, peers, d, R.DeliverRequest(f, req, k)))
  {
    FollowsSound(c, d);
    TwinIndexed(peers, d);
    RequestFacts(peers, c, d, f, req);
    var r := c.followers[f];
    ReceiveTwin(r, c.leader.full, req, k);
    var after, reply := Received(r, req, k), ReceiveAppend(r.log, req).1;
    OkIsSound(after);
    var more := if reply.Some?
                then {(f, AppendResponse(term, reply.value.0, reply.value.1, LastIndex(after.log)))} else {};
    Delivered(term, peers, c, f, req, k, after, more);
    TwinDelivered(term, peers, d, f, req, k, Twin(after), more);
    FollowerFollows(c, d, f, after, more, d.(followers := d.followers[f := Twin(after)], responses := d.responses + more));
  }

  /** What a request below the boundary does: a refusal is sent, or nothing happens. */
  lemma Unmoved(term: int, peers: seq<string>, c: Cluster, f: string, req: AppendRequest, k: nat)
    requires AllSound(c) && f in c.followers && (f, req) in c.requests
    requires Ok(c.followers[f]) && Consecutive(req) && !Heard(c.followers[f], req)
    ensures
      var n := |c.followers[f].full|;
      Apply(term, peers, c, DeliverRequest(f, req, k)) ==
      c.(responses := c.responses + if req.prevIndex == 0 then {} else {(f, AppendResponse(term, false, n, n))})
  {
    var r := c.followers[f];
    UnheardStays(r, req, k);
    OkIsSound(r);
    Delivered(term, peers, c, f, req, k, r, if req.prevIndex == 0 then {} else {(f, AppendResponse(term, false, |r.full|, |r.full|))});
    assert c.followers[f := r] == c.followers;
  }

  /** A request the follower cannot hear makes the twin refuse, or do nothing. */
  lemma UnheardFollows(term: int, peers: seq<string>, c: Cluster, d: R.Cluster, f: string, req: AppendRequest, k: nat)
    requires Follows(c, d) && R.Inv(peers, d) && f in c.followers && (f, req) in c.requests && !Heard(c.followers[f], req)
    ensures AllSound(c) && R.Enabled(d, R.Refuse(f, req))
    ensures Follows(Apply(term, peers, c, DeliverRequest(f, req, k)),
                    if req.prevIndex == 0 then d else R.Apply(term, peers, d, R.Refuse(f, req)))
  {
    FollowsSound(c, d);
    TwinIndexed(peers, d);
    RequestFacts(peers, c, d, f, req);
    RequestIsConsecutive(c.leader.full, req);
    Unmoved(term, peers, c, f, req, k);
    OkIsSound(c.followers[f]);
    if req.prevIndex == 0 {
      assert c.responses + {} == c.responses;
    }
  }

  lemma RequestFollows(term: int, peers: seq<string>, c: Cluster, d: R.Cluster, f: string, req: AppendRequest, k: nat)
    returns (e: R.Cluster)
    requires Follows(c, d) && R.Inv(peers, d) && f in c.followers && (f, req) in c.requests
    ensures AllSound(c) && TwinStep(term, peers, d, e)
    ensures Follows(Apply(term, peers, c, DeliverRequest(f, req, k)), e)
  {
    if Heard(c.followers[f], req) {
      HeardFollows(term, peers, c, d, f, req, k);
      Takes(term, peers, d, R.DeliverRequest(f, req, k));
      e := R.Apply(term, peers, d, R.DeliverRequest(f, req, k));
    } else {
      UnheardFollows(term, peers, c, d, f, req, k);
      Takes(term, peers, d, R.Refuse(f, req));
      e := if req.prevIndex == 0 then d else R.Apply(term, peers, d, R.Refuse(f, req));
    }
  }

  lemma CompactFollows(term: int, peers: seq<string>, c: Cluster, d: R.Cluster, step: Step)
    requires Follows(c, d) && Enabled(c, step) && (step.CompactLeader? || step.CompactFollower?)
    ensures AllSound(c) && Follows(Apply(term, peers, c, step), d)
  {
    FollowsSound(c, d);
    if step.CompactLeader? {
      CompactTwin(c.leader, step.index);
    } else {
      CompactTwin(c.followers[step.node], step.index);
    }
  }

  lemma StepFollows(term: int, peers: seq<string>, c: Cluster, d: R.Cluster, step: Step) returns (e: R.Cluster)
    requires Follows(c, d) && R.Inv(peers, d) && Enabled(c, step)
    ensures AllSound(c) && TwinStep(term, peers, d, e) && Follows(Apply(term, peers, c, step), e)
  {
    FollowsSound(c, d);
    match step {
      case Propose(x, k) =>
        ProposeFollows(term, peers, c, d, x, k);
        Takes(term, peers, d, R.Propose(x, k));
        e := R.Apply(term, peers, d, R.Propose(x, k));
      case Broadcast =>
        BroadcastFollows(term, peers, c, d);
        Takes(term, peers, d, R.Broadcast);
        e := R.Apply(term, peers, d, R.Broadcast);
      case DeliverRequest(f, req, k) => e := RequestFollows(term, peers, c, d, f, req, k);
      case DeliverResponse(f, resp, k) =>
        ResponseFollows(term, peers, c, d, f, resp, k);
        Takes(term, peers, d, R.DeliverResponse(f, resp, k));
        e := R.Apply(term, peers, d, R.DeliverResponse(f, resp, k));
      case CompactLeader(_) =>
        CompactFollows(term, peers, c, d, step);
        e := d;
      case CompactFollower(_, _) =>
        CompactFollows(term, peers, c, d, step);
        e := d;
    }
  }

  // ----- Whole runs -----

  ghost predicate Next(term: int, peers: seq<string>, c: Cluster, d: Cluster) {
    AllSound(c) && exists step :: Enabled(c, step) && d == Apply(term, peers, c, step)
  }

  /** A start in which followers hold prefixes of the leader's history, compacted or not. */
  ghost predicate Init(peers: seq<string>, c: Cluster) {
    exists d :: Follows(c, d) && R.Init(peers, d)
  }

  ghost predicate IsRun(term: int, peers: seq<string>, run: seq<Cluster>) {
    && 0 < |run| && Init(peers, run[0])
    && forall i :: 0 <= i < |run| - 1 ==> Next(term, peers, run[i], run[i + 1])
  }

  /** `at[i]` is where the i-th state of the run is found in the uncompacted one. */
  ghost predicate Tracks(run: seq<Cluster>, twin: seq<R.Cluster>, at: seq<nat>) {
    && |at| <= |run| && (forall i :: 0 <= i < |at| ==> at[i] < |twin| && Follows(run[i], twin[at[i]]))
    && (forall i, j :: 0 <= i <= j < |at| ==> at[i] <= at[j])
  }

  lemma TracksNext(run: seq<Cluster>, twin: seq<R.Cluster>, at: seq<nat>, e: R.Cluster)
    requires Tracks(run, twin, at) && |at| < |run| && Follows(run[|at|], e)
    ensures Tracks(run, twin + [e], at + [|twin|])
    ensures twin != [] && e == twin[|twin| - 1] ==> Tracks(run, twin, at + [|twin| - 1])
  {
    forall i | 0 <= i < |at| ensures Follows(run[i], (twin + [e])[at[i]]) {
      assert (twin + [e])[at[i]] == twin[at[i]];
    }
  }

  lemma NextFollows(term: int, peers: seq<string>, c: Cluster, c': Cluster, d: R.Cluster) returns (e: R.Cluster)
    requires Next(term, peers, c, c') && Follows(c, d) && R.Inv(peers, d)
    ensures TwinStep(term, peers, d, e) && Follows(c', e)
  {
    var step :| Enabled(c, step) && c' == Apply(term, peers, c, step);
    e := StepFollows(term, peers, c, d, step);
  }

  /** Every run follows an uncompacted one. */
  lemma {:induction false} RunFollows(term: int, peers: seq<string>, run: seq<Cluster>, n: nat)
    returns (twin: seq<R.Cluster>, at: seq<nat>)
    requires IsRun(term, peers, run) && n < |run|
    ensures R.IsRun(term, peers, twin) && |at| == n + 1 && at[0] == 0 && at[n] == |twin| - 1 && Tracks(run, twin, at)
    decreases n
  {
    if n == 0 {
      var d :| Follows(run[0], d) && R.Init(peers, d);
      twin, at := [d], [0];
    } else {
      var h := n - 1;
      twin, at := RunFollows(term, peers, run, h);
      var last := |twin| - 1;
      R.RunKeeps(term, peers, twin, last, last);
      assert Next(term, peers, run[h], run[h + 1]);
      var e := NextFollows(term, peers, run[h], run[n], twin[last]);
      TracksNext(run, twin, at, e);
      if e == twin[last] {
        at := at + [last];
      } else {
        ExtendTwin(term, peers, twin, e);
        twin, at := twin + [e], at + [|twin|];
      }
    }
  }

  lemma ExtendTwin(term: int, peers: seq<string>, twin: seq<R.Cluster>, e: R.Cluster)
    requires R.IsRun(term, peers, twin) && R.Next(term, peers, twin[|twin| - 1], e)
    ensures R.IsRun(term, peers, twin + [e])
  {
  }

  /** In every state of every run, whoever compacts, each follower's history is a prefix of the leader's. */
  lemma FollowersArePrefixes(term: int, peers: seq<string>, run: seq<Cluster>, i: nat, p: string)
    requires IsRun(term, peers, run) && i < |run| && p in run[i].followers
    ensures run[i].followers[p].full <= run[i].leader.full
  {
    var twin, at := RunFollows(term, peers, run, i);
    R.FollowersArePrefixes(term, peers, twin, at[i], p);
  }

  /** Whatever the leader has committed, a majority of the cluster holds. */
  lemma CommittedIsOnMajority(term: int, peers: seq<string>, run: seq<Cluster>, i: nat, n: int)
    requires IsRun(term, peers, run) && i < |run| && 0 < n <= run[i].leader.log.commit
    ensures |set p | p in run[i].followers && |run[i].followers[p].full| >= n| + 1 >= Quorum(peers)
    ensures n <= |run[i].leader.full|
  {
    var twin, at := RunFollows(term, peers, run, i);
    var d := twin[at[i]];
    R.CommittedIsOnMajority(term, peers, twin, at[i], n);
    assert (set p | p in run[i].followers && |run[i].followers[p].full| >= n) ==
           (set p | p in d.followers && |d.followers[p].log.entries| >= n);
  }

  /**
   Whoever compacts, the commit index is where the run began or an entry of the run's own term that a
   majority has acknowledged; and, with peers, no such entry lies above it.
   */
  lemma CommitIsHighest(term: int, peers: seq<string>, run: seq<Cluster>, i: nat, n: int)
    requires IsRun(term, peers, run) && i < |run|
    ensures
      var c, full, fs := run[i].leader.log.commit, run[i].leader.full, run[i].progress;
      && 0 <= run[0].leader.log.commit <= c <= |full|
      && (c > run[0].leader.log.commit ==>
           full[c - 1].term == term && 2 * (|Q.Supporters(fs, peers, c)| + 1) > |peers| + 1)
      && (peers != [] && c < n <= |full| && full[n - 1].term == term ==>
           2 * (|Q.Supporters(fs, peers, n)| + 1) <= |peers| + 1)
  {
    var twin, at := RunFollows(term, peers, run, i);
    Q.CommitIsHighest(term, peers, twin, at[i], n);
    assert Follows(run[0], twin[at[0]]) && Follows(run[i], twin[at[i]]);
  }

  lemma CommitInTerm(term: int, peers: seq<string>, run: seq<Cluster>, i: nat)
    requires IsRun(term, peers, run) && i < |run|
    ensures
      var c, full := run[i].leader.log.commit, run[i].leader.full;
      0 <= run[0].leader.log.commit <= c <= |full| && (c > run[0].leader.log.commit ==> full[c - 1].term == term)
  {
    CommitIsHighest(term, peers, run, i, 0);
  }

  /** Whenever the commit index moves, it moves to an entry of the run's term. */
  lemma CommitMovesInTerm(term: int, peers: seq<string>, run: seq<Cluster>, i: nat)
    requires IsRun(term, peers, run) && 0 < i < |run| && run[i].leader.log.commit > run[i - 1].leader.log.commit
    ensures
      var c, full := run[i].leader.log.commit, run[i].leader.full;
      0 < c <= |full| && full[c - 1].term == term
  {
    CommitInTerm(term, peers, run, i - 1);
    CommitInTerm(term, peers, run, i);
  }

  ghost predicate IsNode(c: Cluster, r: Replica) {
    r == c.leader || exists p :: p in c.followers && c.followers[p] == r
  }

  /** The command sequences any two nodes have applied, at any two moments, are prefixes of one another. */
  lemma AppliedSequencesAgree(term: int, peers: seq<string>, run: seq<Cluster>, i: nat, j: nat, a: Replica, b: Replica)
    requires IsRun(term, peers, run) && i <= j < |run| && IsNode(run[i], a) && IsNode(run[j], b)
    ensures a.done <= b.done || b.done <= a.done
  {
    var twin, at := RunFollows(term, peers, run, j);
    NodeTwin(run[i], twin[at[i]], a);
    NodeTwin(run[j], twin[at[j]], b);
    R.AppliedSequencesAgree(term, peers, twin, at[i], at[j], Twin(a), Twin(b));
  }

  lemma NodeTwin(c: Cluster, d: R.Cluster, r: Replica)
    requires Follows(c, d) && IsNode(c, r)
    ensures R.IsNode(d, Twin(r))
  {
    if r != c.leader {
      var p :| p in c.followers && c.followers[p] == r;
      assert d.followers[p] == Twin(r);
    }
  }
}
