/**
 Which votes a node casts in one term over a whole run: at most one granted to another, and a second,
 its own, exactly when it stood, heard the term's leader while standing, and then granted.
 */
module Votes {
  import opened Wrappers
  import opened Election
  import opened ElectionSafety

  /** A candidate gives up its candidacy without leaving its term. */
  predicate Drops(s: State, s': State) {
    s.role == Candidate && s'.role == Follower && s'.term == s.term
  }

  /** That happens exactly when a candidate hears a heartbeat of its own term. */
  lemma DropsExactly(s: State, self: NodeId, peers: nat, m: Option<Payload>)
    ensures Drops(s, Handled(s, self, peers, m)) <==>
            s.role == Candidate && m.Some? && m.value.Heartbeat? && m.value.term == s.term
  {
  }

  /** How node n's vote and its grants move in one step. */
  ghost predicate VoteStep(c: Cluster, d: Cluster, n: NodeId, wins: map<int, Win>)
    requires n in c.nodes && n in d.nodes
  {
    var s, s' := c.nodes[n], d.nodes[n];
    && s.term <= s'.term && c.net <= d.net
    && (Drops(s, s') ==> s.term in wins)
    && (s.term == s'.term && s.votedFor.Some? && s'.votedFor != s.votedFor ==> Drops(s, s'))
    && (s'.votedFor.Some? && !(s.term == s'.term && s'.votedFor == s.votedFor) && s'.votedFor != Some(n) ==>
          Granted(d.net, s'.term, n, s'.votedFor.value))
    && (forall t, x :: Granted(d.net, t, n, x) && !Granted(c.net, t, n, x) ==>
          t == s'.term && s'.votedFor == Some(x) && x != n)
  }

  /** A step that leaves n alone, or casts and drops no vote of n, and sends no grant of n. */
  lemma QuietStep(c: Cluster, d: Cluster, n: NodeId, wins: map<int, Win>)
    requires n in c.nodes && n in d.nodes && c.net <= d.net
    requires forall t, x :: Granted(d.net, t, n, x) ==> Granted(c.net, t, n, x)
    requires
      var s, s' := c.nodes[n], d.nodes[n];
      || (s.term == s'.term && s.votedFor == s'.votedFor && !Drops(s, s'))
      || (s.term < s'.term && (s'.votedFor == None || s'.votedFor == Some(n)))
      || (s.term == s'.term && Drops(s, s') && s'.votedFor == None && s.term in wins)
    ensures VoteStep(c, d, n, wins)
  {
  }

  lemma RequestStep(members: set<NodeId>, c: Cluster, wins: map<int, Win>, e: Envelope, n: NodeId)
    requires Inv(members, c, wins) && n in members && e in c.net && e.dst in members && e.payload.VoteRequest?
    ensures VoteStep(c, ApplyDelivery(members, c, e), n, wins)
  {
    var s, t, x := c.nodes[e.dst], e.payload.term, e.payload.candidate;
    if e.dst != n || !Grants(s, t, x) {
      QuietStep(c, ApplyDelivery(members, c, e), n, wins);
    } else {
      assert Granted(ApplyDelivery(members, c, e).net, Joined(s, t).term, n, x);
    }
  }

  lemma StepVotes(members: set<NodeId>, c: Cluster, wins: map<int, Win>, step: Step, n: NodeId)
    requires Inv(members, c, wins) && Enabled(members, c, step) && n in members
    ensures VoteStep(c, Apply(members, c, step), n, wins)
  {
    var d := Apply(members, c, step);
    if step.Deliver? && step.envelope.payload.VoteRequest? {
      RequestStep(members, c, wins, step.envelope, n);
    } else {
      assert forall t, x :: Granted(d.net, t, n, x) ==> Granted(c.net, t, n, x);
      QuietStep(c, d, n, wins);
    }
  }

  // ----- Whole runs -----

  ghost predicate Led(run: seq<Cluster>, t: int) {
    exists n :: WonBy(run, t, n)
  }

  lemma At(members: set<NodeId>, run: seq<Cluster>, i: nat) returns (wins: map<int, Win>)
    requires IsRun(members, run) && i < |run|
    ensures Inv(members, run[i], wins)
    ensures forall t :: t in wins ==> Led(run, t)
  {
    assert run[..i + 1][i] == run[i];
    wins := RunKeeps(members, run[..i + 1]);
    forall t | t in wins ensures Led(run, t) {
      var j :| 0 <= j <= i && Leads(run[..i + 1][j], t, wins[t].leader);
      assert Leads(run[j], t, wins[t].leader);
      assert WonBy(run, t, wins[t].leader);
    }
  }

  lemma StepAt(members: set<NodeId>, run: seq<Cluster>, i: nat, n: NodeId) returns (wins: map<int, Win>)
    requires IsRun(members, run) && i + 1 < |run| && n in members
    ensures Inv(members, run[i], wins) && n in run[i + 1].nodes && VoteStep(run[i], run[i + 1], n, wins)
    ensures forall t :: t in wins ==> Led(run, t)
  {
    wins := At(members, run, i);
    assert Next(members, run[i], run[i + 1]);
    var step :| Enabled(members, run[i], step) && run[i + 1] == Apply(members, run[i], step);
    StepVotes(members, run[i], wins, step, n);
  }

  lemma {:induction false} NetGrows(members: set<NodeId>, run: seq<Cluster>, i: nat, j: nat, n: NodeId)
    requires IsRun(members, run) && i <= j < |run| && n in members
    ensures run[i].net <= run[j].net
    decreases j
  {
    if i < j {
      NetGrows(members, run, i, j - 1, n);
      var _ := StepAt(members, run, j - 1, n);
    }
  }

  /** A node grants at most one other node its vote in a term, in terms that are won as in terms that are not. */
  lemma GrantsAreUnique(members: set<NodeId>, run: seq<Cluster>, i: nat, j: nat, t: int, v: NodeId, x: NodeId, y: NodeId)
    requires IsRun(members, run) && i <= j < |run| && v in members
    requires Granted(run[i].net, t, v, x) && Granted(run[j].net, t, v, y)
    ensures x == y
  {
    NetGrows(members, run, i, j, v);
    var wins := At(members, run, j);
    assert VotesUnique(run[j]) && Granted(run[j].net, t, v, x);
  }

  ghost predicate VotedAt(c: Cluster, n: NodeId, t: int, x: NodeId) {
    n in c.nodes && c.nodes[n].term == t && c.nodes[n].votedFor == Some(x)
  }

  /** At some moment of the run n's vote in term t was for x. */
  ghost predicate Voted(run: seq<Cluster>, n: NodeId, t: int, x: NodeId) {
    exists i :: 0 <= i < |run| && VotedAt(run[i], n, t, x)
  }

  /** At step k n gave up its candidacy in term t without leaving the term. */
  ghost predicate DroppedAt(run: seq<Cluster>, k: int, n: NodeId, t: int) {
    && 0 <= k < |run| - 1 && n in run[k].nodes && n in run[k + 1].nodes
    && run[k].nodes[n].term == t && Drops(run[k].nodes[n], run[k + 1].nodes[n])
  }

  lemma {:induction false} VotedIsGranted(members: set<NodeId>, run: seq<Cluster>, i: nat, n: NodeId, t: int, x: NodeId)
    requires IsRun(members, run) && i < |run| && n in members && VotedAt(run[i], n, t, x) && x != n
    ensures Granted(run[i].net, t, n, x)
    decreases i
  {
    if i > 0 {
      var _ := StepAt(members, run, i - 1, n);
      if VotedAt(run[i - 1], n, t, x) { VotedIsGranted(members, run, i - 1, n, t, x); }
    }
  }

  lemma {:induction false} GrantedIsVoted(members: set<NodeId>, run: seq<Cluster>, i: nat, n: NodeId, t: int, x: NodeId)
    requires IsRun(members, run) && i < |run| && n in members && Granted(run[i].net, t, n, x)
    ensures x != n && Voted(run, n, t, x)
    decreases i
  {
    if i > 0 {
      var h := i - 1;
      var _ := StepAt(members, run, h, n);
      if Granted(run[h].net, t, n, x) {
        GrantedIsVoted(members, run, h, n, t, x);
      } else {
        assert VotedAt(run[i], n, t, x);
      }
    }
  }

  /** Node n is past term t, or stands in it by its own vote, and has granted nobody its vote in it. */
  ghost predicate Bound(c: Cluster, n: NodeId, t: int) {
    && n in c.nodes && (c.nodes[n].term > t || VotedAt(c, n, t, n))
    && forall x :: !Granted(c.net, t, n, x)
  }

  lemma SelfStartsBound(members: set<NodeId>, run: seq<Cluster>, i: nat, n: NodeId, t: int)
    requires IsRun(members, run) && i < |run| && n in members && VotedAt(run[i], n, t, n)
    ensures Bound(run[i], n, t)
  {
    forall x ensures !Granted(run[i].net, t, n, x) {
      if Granted(run[i].net, t, n, x) {
        var wins := At(members, run, i);
        assert VotesBind(members, run[i]);
        GrantedIsVoted(members, run, i, n, t, x);
      }
    }
  }

  lemma BoundStays(c: Cluster, d: Cluster, n: NodeId, t: int, wins: map<int, Win>)
    requires n in c.nodes && n in d.nodes && VoteStep(c, d, n, wins) && Bound(c, n, t)
    requires !(c.nodes[n].term == t && Drops(c.nodes[n], d.nodes[n]))
    ensures Bound(d, n, t)
  {
  }

  lemma BoundNext(members: set<NodeId>, run: seq<Cluster>, i: nat, n: NodeId, t: int)
    requires IsRun(members, run) && i + 1 < |run| && n in members && Bound(run[i], n, t) && !DroppedAt(run, i, n, t)
    ensures Bound(run[i + 1], n, t)
  {
    var wins := StepAt(members, run, i, n);
    BoundStays(run[i], run[i + 1], n, t, wins);
  }

  ghost predicate NeverDrops(run: seq<Cluster>, j: int, n: NodeId, t: int) {
    forall k :: 0 <= k < j ==> !DroppedAt(run, k, n, t)
  }

  /** After voting for itself in t, a node that never drops its candidacy in t grants nobody its vote in t. */
  lemma {:induction false} SelfBinds(members: set<NodeId>, run: seq<Cluster>, i: nat, j: nat, n: NodeId, t: int)
    requires IsRun(members, run) && i <= j < |run| && n in members && VotedAt(run[i], n, t, n)
    requires NeverDrops(run, j, n, t)
    ensures Bound(run[j], n, t)
    decreases j
  {
    if i == j {
      SelfStartsBound(members, run, i, n, t);
    } else {
      var h := j - 1;
      assert NeverDrops(run, h, n, t);
      SelfBinds(members, run, i, h, n, t);
      assert !DroppedAt(run, h, n, t);
      BoundNext(members, run, h, n, t);
    }
  }

  function Last(run: seq<Cluster>): Cluster
    requires run != []
  {
    run[|run| - 1]
  }

  lemma VoteShows(members: set<NodeId>, run: seq<Cluster>, n: NodeId, t: int, x: NodeId)
    requires IsRun(members, run) && n in members && Voted(run, n, t, x) && x != n
    ensures Granted(Last(run).net, t, n, x)
  {
    var i :| 0 <= i < |run| && VotedAt(run[i], n, t, x);
    VotedIsGranted(members, run, i, n, t, x);
    NetGrows(members, run, i, |run| - 1, n);
  }

  /** A node that voted for itself in a term and granted its vote in it dropped its candidacy, having heard the term's leader. */
  lemma SelfAndGrantMeansDrop(members: set<NodeId>, run: seq<Cluster>, n: NodeId, t: int, x: NodeId) returns (k: int)
    requires IsRun(members, run) && n in members && Voted(run, n, t, n) && Granted(Last(run).net, t, n, x)
    ensures DroppedAt(run, k, n, t) && Led(run, t)
  {
    var i :| 0 <= i < |run| && VotedAt(run[i], n, t, n);
    if NeverDrops(run, |run| - 1, n, t) {
      SelfBinds(members, run, i, |run| - 1, n, t);
      assert false;
    }
    k :| 0 <= k < |run| - 1 && DroppedAt(run, k, n, t);
    var _ := StepAt(members, run, k, n);
  }

  /** Two different votes of one node in one term: one is its own, the other was granted, and the term has a leader. */
  lemma SecondVoteIsGranted(members: set<NodeId>, run: seq<Cluster>, n: NodeId, t: int, x: NodeId, y: NodeId)
    requires IsRun(members, run) && n in members && Voted(run, n, t, x) && Voted(run, n, t, y) && x != y
    ensures x == n || y == n
    ensures Granted(Last(run).net, t, n, if x == n then y else x)
    ensures (exists k :: DroppedAt(run, k, n, t)) && Led(run, t)
  {
    if x != n { VoteShows(members, run, n, t, x); }
    if y != n { VoteShows(members, run, n, t, y); }
    if x != n && y != n {
      GrantsAreUnique(members, run, |run| - 1, |run| - 1, t, n, x, y);
    }
    var _ := SelfAndGrantMeansDrop(members, run, n, t, if x == n then y else x);
  }

  ghost predicate VotesTwice(run: seq<Cluster>, n: NodeId, t: int) {
    exists x, y :: x != y && Voted(run, n, t, x) && Voted(run, n, t, y)
  }

  ghost predicate GrantsSomeone(c: Cluster, n: NodeId, t: int) {
    exists x :: Granted(c.net, t, n, x)
  }

  /** A node votes twice in a term exactly when it dropped its candidacy in that term and granted its vote in it. */
  lemma TwoVotesExactly(members: set<NodeId>, run: seq<Cluster>, n: NodeId, t: int)
    requires IsRun(members, run) && n in members
    ensures VotesTwice(run, n, t) <==> (exists k :: DroppedAt(run, k, n, t)) && GrantsSomeone(Last(run), n, t)
  {
    if x, y :| x != y && Voted(run, n, t, x) && Voted(run, n, t, y) {
      SecondVoteIsGranted(members, run, n, t, x, y);
    }
    if k :| DroppedAt(run, k, n, t) {
      if x :| Granted(Last(run).net, t, n, x) {
        var _ := At(members, run, k);
        assert VotedAt(run[k], n, t, n);
        GrantedIsVoted(members, run, |run| - 1, n, t, x);
        assert n != x && Voted(run, n, t, n) && Voted(run, n, t, x);
      }
    }
  }

  // ----- A second vote is reached -----

  /** A run from the initial cluster of the given members to `last`, through `mid`. */
  ghost predicate Reaches(members: set<NodeId>, mid: Cluster, last: Cluster) {
    exists run, i :: IsRun(members, run) && 0 <= i < |run| && run[i] == mid && run[|run| - 1] == last
  }

  lemma ReachesNext(members: set<NodeId>, mid: Cluster, last: Cluster, step: Step)
    requires Reaches(members, mid, last) && last.nodes.Keys == members && Enabled(members, last, step)
    ensures Reaches(members, mid, Apply(members, last, step))
    ensures Apply(members, last, step).nodes.Keys == members
  {
    var run, i :| IsRun(members, run) && 0 <= i < |run| && run[i] == mid && run[|run| - 1] == last;
    var longer := run + [Apply(members, last, step)];
    forall k | 0 <= k < |longer| - 1 ensures Next(members, longer[k], longer[k + 1]) {
      if k == |run| - 1 {
        assert longer[k] == last && longer[k + 1] == Apply(members, last, step);
      }
    }
    assert IsRun(members, longer) && longer[i] == mid && longer[|longer| - 1] == Apply(members, last, step);
  }

  /**
   A candidate that hears the leader of its own term forgets the vote it cast for itself, and the
   next request of that term gets a second vote from it: votes alone do not bind, only quorums do.
   */
  lemma SecondVote(members: set<NodeId>, mid: Cluster, c: Cluster, d: NodeId, leader: NodeId, x: NodeId)
    returns (last: Cluster)
    requires Reaches(members, mid, c) && c.nodes.Keys == members && {d, leader, x} <= members
    requires d != leader && c.nodes[d].role == Candidate
    requires c.nodes[leader].role == Leader && c.nodes[leader].term == c.nodes[d].term
    requires Envelope(x, d, VoteRequest(c.nodes[d].term, x)) in c.net
    ensures Reaches(members, mid, last) && Granted(last.net, c.nodes[d].term, d, x)
  {
    var t := c.nodes[d].term;
    var hb := Envelope(leader, d, Heartbeat(t, leader));
    var c1 := Apply(members, c, Broadcast(leader));
    ReachesNext(members, mid, c, Broadcast(leader));
    assert hb in c1.net;
    var c2 := Apply(members, c1, Deliver(hb));
    ReachesNext(members, mid, c1, Deliver(hb));
    var req := Envelope(x, d, VoteRequest(t, x));
    last := Apply(members, c2, Deliver(req));
    ReachesNext(members, mid, c2, Deliver(req));
  }

  function Standing(n: NodeId, votes: set<NodeId>): State {
    State(Candidate, 1, Some(n), None, votes)
  }

  lemma Start(members: set<NodeId>) returns (c: Cluster)
    ensures Reaches(members, c, c) && c.nodes.Keys == members
    ensures forall n :: n in members ==> c.nodes[n] == INITIAL
  {
    c := Cluster(map n | n in members :: INITIAL, {});
    assert IsRun(members, [c]) && [c][0] == c;
  }

  lemma Stand(members: set<NodeId>, c: Cluster, n: NodeId) returns (d: Cluster)
    requires Reaches(members, c, c) && c.nodes.Keys == members && n in members && Peers(members) != 0
    requires c.nodes[n] == INITIAL
    ensures Reaches(members, d, d) && d.nodes == c.nodes[n := Standing(n, {n})] && c.net <= d.net
    ensures forall m :: m in members && m != n ==> Envelope(n, m, VoteRequest(1, n)) in d.net
  {
    d := Apply(members, c, Timeout(n));
    ReachesNext(members, c, c, Timeout(n));
    var run, i :| IsRun(members, run) && 0 <= i < |run| && run[i] == c && run[|run| - 1] == d;
    assert IsRun(members, run) && run[|run| - 1] == d;
  }

  /** A voter still in term 0 grants `a` its vote, and `a` counts it. */
  lemma GainVote(members: set<NodeId>, mid: Cluster, c: Cluster, a: NodeId, v: NodeId) returns (d: Cluster)
    requires Reaches(members, mid, c) && c.nodes.Keys == members && {a, v} <= members && a != v
    requires c.nodes[v] == INITIAL && c.nodes[a].role == Candidate && c.nodes[a].term == 1
    requires Envelope(a, v, VoteRequest(1, a)) in c.net
    ensures Reaches(members, mid, d) && d.nodes.Keys == members && c.net <= d.net
    ensures d.nodes[a] == OnVoteResponse(c.nodes[a], a, Peers(members), 1, true, v)
    ensures forall n :: n in members && n != v && n != a ==> d.nodes[n] == c.nodes[n]
  {
    var req, resp := Envelope(a, v, VoteRequest(1, a)), Envelope(v, a, VoteResponse(1, true, v));
    ReachesNext(members, mid, c, Deliver(req));
    var c1 := Apply(members, c, Deliver(req));
    ReachesNext(members, mid, c1, Deliver(resp));
    d := Apply(members, c1, Deliver(resp));
  }

  /** From the start of a cluster of five, `a`, `d` and `e` all stand in term 1. */
  lemma ThreeStand(members: set<NodeId>, a: NodeId, d: NodeId, e: NodeId) returns (c: Cluster)
    requires |members| == 5 && a in members && d in members && e in members && a != d && a != e && d != e
    ensures Reaches(members, c, c) && c.nodes.Keys == members
    ensures c.nodes[a] == Standing(a, {a}) && c.nodes[d] == Standing(d, {d})
    ensures forall n :: n in members && n != a && n != d && n != e ==> c.nodes[n] == INITIAL
    ensures forall n :: n in members && n != a ==> Envelope(a, n, VoteRequest(1, a)) in c.net
    ensures Envelope(e, d, VoteRequest(1, e)) in c.net
  {
    var c0 := Start(members);
    var c1 := Stand(members, c0, a);
    var c2 := Stand(members, c1, d);
    c := Stand(members, c2, e);
  }

  /**
   One vote per node and term is false in every cluster of five: `d` votes for itself in term 1 (in
   `mid`) and then, in the same term, for `e` (by `last`).
   */
  lemma VotesTwiceInATerm(members: set<NodeId>, a: NodeId, b: NodeId, c: NodeId, d: NodeId, e: NodeId)
    returns (mid: Cluster, last: Cluster)
    requires |members| == 5 && a in members && b in members && c in members && d in members && e in members
    requires a != b && a != c && a != d && a != e && b != c && b != d && b != e && c != d && c != e && d != e
    ensures Reaches(members, mid, last)
    ensures d in mid.nodes && mid.nodes[d] == Standing(d, {d})
    ensures Granted(last.net, 1, d, e) && e != d
  {
    mid := ThreeStand(members, a, d, e);
    var c1 := GainVote(members, mid, mid, a, b);
    assert |{a} + {b}| == 2;
    assert c1.nodes[a] == Standing(a, {a} + {b});
    var c2 := GainVote(members, mid, c1, a, c);
    assert |{a} + {b} + {c}| == 3;
    last := SecondVote(members, mid, c2, d, a, e);
  }
}
