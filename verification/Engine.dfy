/** The replication engine of one node: its log, its state machine and, on a leader, its followers' progress. */
module Engine {
  import opened Wrappers
  import opened Models
  import opened RaftLog
  import opened StateMachine
  import opened LogRefinement
  import opened LogMatching

  datatype Node = Node(log: Log, machine: Machine)

  /** Applies the given entries in order, marking each; stops where one raises. */
  function ApplyEntries(n: Node, es: seq<LogEntry>): (Node, bool)
    decreases |es|
  {
    if es == [] then (n, true)
    else
      var (m, o) := Apply(n.machine, es[0]);
      if o.Raised? then (n.(machine := m), false)
      else ApplyEntries(Node(MarkApplied(n.log, es[0].index), m), es[1..])
  }

  /** What applying answers for each entry, up to where one raises. */
  function Results(n: Node, es: seq<LogEntry>): seq<(int, StateMachine.Reply)>
    decreases |es|
  {
    if es == [] then []
    else
      var (m, o) := Apply(n.machine, es[0]);
      if o.Raised? then []
      else [(es[0].index, o.reply)] + Results(Node(MarkApplied(n.log, es[0].index), m), es[1..])
  }

  function ApplyCommitted(n: Node): (Node, bool) {
    ApplyEntries(n, Unapplied(n.log))
  }

  /** The entry at position i of the list is answered on the machine that those before it leave. */
  ghost predicate Answers(m: Machine, es: seq<LogEntry>, results: seq<(int, StateMachine.Reply)>, i: nat)
    requires i < |es| && i < |results|
  {
    results[i].0 == es[i].index && Apply(ApplyLog(m, es[..i]), es[i]).1 == Ok(results[i].1)
  }

  /** There is one answer an entry, in order, up to the first entry that raises. */
  lemma {:induction false} ResultsAreAnswers(n: Node, es: seq<LogEntry>)
    ensures
      var results := Results(n, es);
      && |results| <= |es| && (forall i :: 0 <= i < |results| ==> Answers(n.machine, es, results, i))
      && (ApplyEntries(n, es).1 <==> |results| == |es|)
      && (|results| < |es| ==> Apply(ApplyLog(n.machine, es[..|results|]), es[|results|]).1.Raised?)
    decreases |es|
  {
    if es != [] {
      var (m, o) := Apply(n.machine, es[0]);
      assert es[..0] == [];
      if !o.Raised? {
        var rest := Node(MarkApplied(n.log, es[0].index), m);
        ResultsAreAnswers(rest, es[1..]);
        var results, later := Results(n, es), Results(rest, es[1..]);
        assert results == [(es[0].index, o.reply)] + later;
        forall i | 0 <= i < |results| ensures Answers(n.machine, es, results, i) {
          if i > 0 {
            var j := i - 1;
            assert Answers(m, es[1..], later, j);
            LogShift(n.machine, es, j);
          }
        }
        if |later| < |es| - 1 { LogShift(n.machine, es, |later|); }
      }
    }
  }

  lemma LogShift(m: Machine, es: seq<LogEntry>, j: nat)
    requires j + 1 < |es|
    ensures es[1..][j] == es[j + 1] && ApplyLog(m, es[..j + 1]) == ApplyLog(Apply(m, es[0]).0, es[1..][..j])
  {
    assert es[..j + 1][0] == es[0] && es[..j + 1][1..] == es[1..][..j];
  }

  // ----- Follower -----

  datatype AppendResponse = AppendResponse(term: int, success: bool, matchIndex: int, lastLogIndex: int)

  /** The follower's log after a request that is not stale, and the reply; `None` when reconciliation raised. */
  function ReceiveAppend(s: Log, req: AppendRequest): (Log, Option<(bool, int)>)
    requires Indexed(s)
  {
    var (t, reply) := Reconcile(s, req.prevIndex, req.prevTerm, req.entries);
    if reply.Raised? then (t, None)
    else if reply.success && req.leaderCommit > t.commit then
      (AdvanceCommit(t, if req.leaderCommit < reply.matchIndex then req.leaderCommit else reply.matchIndex),
       Some((true, reply.matchIndex)))
    else (t, Some((reply.success, reply.matchIndex)))
  }

  /** Whether the request moved the follower's commit index, so that it applies what is now committed. */
  predicate CommitMoves(s: Log, req: AppendRequest)
    requires Indexed(s)
  {
    var (t, reply) := Reconcile(s, req.prevIndex, req.prevTerm, req.entries);
    reply.Replied? && reply.success && req.leaderCommit > t.commit
  }

  function OnAppendRequest(n: Node, currentTerm: int, term: int, req: AppendRequest): (Node, Option<AppendResponse>)
    requires Indexed(n.log)
  {
    if term < currentTerm then
      (n, Some(AppendResponse(currentTerm, false, LastIndex(n.log), LastIndex(n.log))))
    else
      var (t, r) := ReceiveAppend(n.log, req);
      var (n', ok) := if CommitMoves(n.log, req) then ApplyCommitted(n.(log := t)) else (n.(log := t), true);
      (n', if r.None? || !ok then None
           else Some(AppendResponse(if currentTerm < term then term else currentTerm,
                                    r.value.0, r.value.1, LastIndex(n'.log))))
  }

  datatype InstallSnapshot = InstallSnapshot(lastIndex: int, lastTerm: int, data: Snapshot)

  datatype InstallResponse = InstallResponse(term: int, success: bool, matchIndex: int)

  function Install(n: Node, req: InstallSnapshot): Node {
    Node(Restore(n.log, req.lastIndex, req.lastTerm), Import(req.data))
  }

  // ----- Leader -----

  /** What a leader sends to a follower behind its boundary: the boundary, and the machine as it is now. */
  function SnapshotFor(n: Node, now: real): InstallSnapshot {
    InstallSnapshot(n.log.snapIndex, n.log.snapTerm, Export(n.machine, now))
  }

  datatype Progress = Progress(matchIndex: int, nextIndex: int)

  /** What a leader sends one peer. */
  datatype Outgoing = SendEntries(request: AppendRequest) | SendSnapshot(snapshot: InstallSnapshot)

  function MessageFor(n: Node, nextIndex: int, now: real): Outgoing
    requires Indexed(n.log)
  {
    if n.log.snapIndex > 0 && nextIndex <= n.log.snapIndex then SendSnapshot(SnapshotFor(n, now))
    else SendEntries(AppendFor(n.log, nextIndex))
  }

  function InitializeFollower(fs: map<string, Progress>, id: string, last: int): map<string, Progress> {
    if id in fs then fs else fs[id := Progress(0, last + 1)]
  }

  function Synchronize(fs: map<string, Progress>, id: string, last: int, success: bool, matchIndex: int, lastIndex: int)
    : map<string, Progress>
  {
    var gs := InitializeFollower(fs, id, last);
    var f := gs[id];
    if success then
      var m := if f.matchIndex < matchIndex then matchIndex else f.matchIndex;
      gs[id := Progress(m, m + 1)]
    else gs[id := f.(nextIndex := Backoff(f.nextIndex, lastIndex))]
  }

  function Quorum(peers: seq<string>): int {
    (|peers| + 1) / 2 + 1
  }

  /** How many of the peers' recorded match indices reach n. */
  function PeersAt(fs: map<string, Progress>, peers: seq<string>, n: int): nat {
    if peers == [] then 0
    else PeersAt(fs, peers[..|peers| - 1], n) +
         (var p := peers[|peers| - 1]; if p in fs && fs[p].matchIndex >= n then 1 else 0)
  }

  /** An index of this term that the leader and enough peers hold. */
  predicate Decided(s: Log, term: int, fs: map<string, Progress>, peers: seq<string>, n: int) {
    && GetTerm(s, n) == term
    && PeersAt(fs, peers, n) + (if LastIndex(s) >= n then 1 else 0) >= Quorum(peers)
  }

  /** The leader's new commit index: the highest decided one above the current, else the current. */
  function QuorumIndex(s: Log, term: int, fs: map<string, Progress>, peers: seq<string>, n: int): (r: int)
    ensures r == s.commit || (s.commit < r <= n && Decided(s, term, fs, peers, r))
    ensures forall k :: r < k <= n && s.commit < k ==> !Decided(s, term, fs, peers, k)
    decreases n - s.commit
  {
    if n <= s.commit then s.commit
    else if Decided(s, term, fs, peers, n) then n
    else QuorumIndex(s, term, fs, peers, n - 1)
  }

  /** A leader that has counted: the new commit index, and the entries it commits applied. */
  function QuorumCommitted(n: Node, term: int, fs: map<string, Progress>, peers: seq<string>): (Node, bool) {
    var c := QuorumIndex(n.log, term, fs, peers, LastIndex(n.log));
    if c == n.log.commit then (n, true) else ApplyCommitted(n.(log := AdvanceCommit(n.log, c)))
  }

  class RaftReplicationEngine {
    const peers: seq<string>
    const log: RaftLogStore
    const machine: ReplicatedStateMachine
    var term: int
    var isLeader: bool
    var followers: map<string, Progress>

    constructor (peers: seq<string>)
      ensures this.peers == peers && fresh(log) && fresh(machine)
      ensures View() == Node(RaftLog.EMPTY, StateMachine.EMPTY)
      ensures followers == map[]
    {
      this.peers := peers;
      log := new RaftLogStore();
      machine := new ReplicatedStateMachine();
      term, isLeader, followers := 0, false, map[];
    }

    function View(): Node
      reads log, machine
    {
      Node(log.View(), machine.View())
    }

    /** `ok` is false when a command raised; the entries before it stay applied. */
    method ApplyCommittedEntries() returns (ok: bool, results: seq<(int, StateMachine.Reply)>)
      modifies log, machine
      ensures (View(), ok) == ApplyCommitted(old(View()))
      ensures results == Results(old(View()), Unapplied(old(log.View())))
    {
      var es := log.GetUnappliedEntries();
      results := [];
      for i := 0 to |es|
        invariant ApplyEntries(old(View()), es) == ApplyEntries(View(), es[i..])
        invariant Results(old(View()), es) == results + Results(View(), es[i..])
      {
        assert es[i..][0] == es[i] && es[i..][1..] == es[i + 1..];
        var o := machine.ApplyCommand(es[i]);
        if o.Raised? { return false, results; }
        log.DoMarkApplied(es[i].index);
        results := results + [(es[i].index, o.reply)];
      }
      ok := true;
    }

    method HandleAppendEntriesRequest(reqTerm: int, req: AppendRequest) returns (resp: Option<AppendResponse>)
      requires Indexed(log.View())
      modifies log, machine
      ensures (View(), resp) == OnAppendRequest(old(View()), term, reqTerm, req)
    {
      if reqTerm < term {
        return Some(AppendResponse(term, false, LastIndex(log.View()), LastIndex(log.View())));
      }
      var reply := log.ReconcileFollowerEntries(req.prevIndex, req.prevTerm, req.entries);
      if reply.Raised? { return None; }
      if reply.success && req.leaderCommit > log.commitIndex {
        var _ := log.AdvanceCommitIndex(
          if req.leaderCommit < reply.matchIndex then req.leaderCommit else reply.matchIndex);
        var ok, _ := ApplyCommittedEntries();
        if !ok { return None; }
      }
      resp := Some(AppendResponse(if term < reqTerm then reqTerm else term,
                                  reply.success, reply.matchIndex, LastIndex(log.View())));
    }

    /** A leader sends one message a peer, in order: what follows its next index, or a snapshot if that is compacted away. */
    method BroadcastAppendEntries(now: real) returns (sent: seq<(string, Outgoing)>)
      requires Indexed(log.View())
      ensures |sent| == if isLeader then |peers| else 0
      ensures forall i :: 0 <= i < |sent| ==>
        i < |peers| && sent[i] == (peers[i], MessageFor(View(), if peers[i] in followers then followers[peers[i]].nextIndex else 1, now))
    {
      sent := [];
      if !isLeader { return; }
      for i := 0 to |peers|
        invariant |sent| == i
        invariant forall k :: 0 <= k < i ==>
          sent[k] == (peers[k], MessageFor(View(), if peers[k] in followers then followers[peers[k]].nextIndex else 1, now))
      {
        var p := peers[i];
        var next := if p in followers then followers[p].nextIndex else 1;
        if log.snapshotLastIndex > 0 && next <= log.snapshotLastIndex {
          sent := sent + [(p, SendSnapshot(SnapshotFor(View(), now)))];
          continue;
        }
        sent := sent + [(p, SendEntries(AppendFor(log.View(), next)))];
      }
    }

    method SynchronizeFollowerProgress(id: string, success: bool, matchIndex: int, lastIndex: int)
      modifies this
      ensures followers == Synchronize(old(followers), id, LastIndex(log.View()), success, matchIndex, lastIndex)
      ensures term == old(term) && isLeader == old(isLeader)
    {
      if id !in followers {
        followers := followers[id := Progress(0, LastIndex(log.View()) + 1)];
      }
      var f := followers[id];
      if success {
        var m := if f.matchIndex < matchIndex then matchIndex else f.matchIndex;
        followers := followers[id := Progress(m, m + 1)];
      } else {
        followers := followers[id := f.(nextIndex := Backoff(f.nextIndex, lastIndex))];
      }
    }

    method CountAt(n: int) returns (count: int)
      ensures count == PeersAt(followers, peers, n) + (if LastIndex(log.View()) >= n then 1 else 0)
    {
      count := if LastIndex(log.View()) >= n then 1 else 0;
      for i := 0 to |peers|
        invariant count == PeersAt(followers, peers[..i], n) + (if LastIndex(log.View()) >= n then 1 else 0)
      {
        assert peers[..i + 1][..i] == peers[..i];
        if peers[i] in followers && followers[peers[i]].matchIndex >= n { count := count + 1; }
      }
      assert peers[..|peers|] == peers;
    }

    /** The commit index moves to the highest index of this term that a majority holds, if that is an advance. */
    method CheckAndAdvanceQuorumCommit() returns (ok: bool)
      modifies log, machine
      ensures !isLeader ==> View() == old(View()) && ok
      ensures isLeader ==> (View(), ok) == QuorumCommitted(old(View()), term, followers, peers)
    {
      if !isLeader { return true; }
      var candidate := LastIndex(log.View());
      while candidate > log.commitIndex
        invariant View() == old(View())
        invariant QuorumIndex(log.View(), term, followers, peers, LastIndex(log.View())) ==
                  QuorumIndex(log.View(), term, followers, peers, candidate)
        decreases candidate - log.commitIndex
      {
        if GetTerm(log.View(), candidate) == term {
          var count := CountAt(candidate);
          if count >= Quorum(peers) {
            var _ := log.AdvanceCommitIndex(candidate);
            var applied, _ := ApplyCommittedEntries();
            return applied;
          }
        }
        candidate := candidate - 1;
      }
      ok := true;
    }

    method HandleAppendEntriesResponse(id: string, resp: AppendResponse) returns (ok: bool)
      modifies this, log, machine
      ensures followers ==
        Synchronize(old(followers), id, LastIndex(old(log.View())), resp.success, resp.matchIndex, resp.lastLogIndex)
      ensures term == old(term) && isLeader == old(isLeader)
      ensures !resp.success || !isLeader ==> View() == old(View()) && ok
      ensures resp.success && isLeader ==> (View(), ok) == QuorumCommitted(old(View()), term, followers, peers)
    {
      SynchronizeFollowerProgress(id, resp.success, resp.matchIndex, resp.lastLogIndex);
      ok := true;
      if resp.success {
        ok := CheckAndAdvanceQuorumCommit();
      }
    }

    /** Compacts up to the given index (by default, all applied entries) and exports the machine. */
    method CreateSnapshot(index: Option<int>, now: real) returns (snapshot: InstallSnapshot)
      requires Indexed(log.View())
      modifies log
      ensures
        var target := index.GetOr(old(log.lastApplied));
        if target <= 0 then View() == old(View()) && snapshot == InstallSnapshot(0, 0, Export(View().machine, now))
        else View() == old(View()).(log := Compact(old(log.View()), target)) && snapshot == SnapshotFor(View(), now)
    {
      var target := index.GetOr(log.lastApplied);
      if target <= 0 { return InstallSnapshot(0, 0, Export(machine.View(), now)); }
      var _ := log.CompactLogBefore(target);
      snapshot := SnapshotFor(View(), now);
    }

    /** A stale leader is refused and told the current term. */
    method HandleInstallSnapshotRequest(reqTerm: int, req: InstallSnapshot) returns (resp: InstallResponse)
      modifies log, machine
      ensures reqTerm < term ==> View() == old(View()) && resp == InstallResponse(term, false, LastIndex(log.View()))
      ensures reqTerm >= term ==> View() == Install(old(View()), req) && resp == InstallResponse(reqTerm, true, req.lastIndex)
    {
      if reqTerm < term { return InstallResponse(term, false, LastIndex(log.View())); }
      machine.ImportState(req.data);
      log.RestoreSnapshot(req.lastIndex, req.lastTerm);
      resp := InstallResponse(if term < reqTerm then reqTerm else term, true, req.lastIndex);
    }
  }
}
