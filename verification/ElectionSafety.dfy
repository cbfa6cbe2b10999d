/**
 Election safety over whole runs of a cluster with fixed membership.  The network keeps every
 message ever sent; a message may be delivered any number of times, in any order, or never.
 */
module ElectionSafety {
  import opened Wrappers
  import opened Election

  datatype Envelope = Envelope(src: NodeId, dst: NodeId, payload: Payload)

  datatype Cluster = Cluster(nodes: map<NodeId, State>, net: set<Envelope>)

  datatype Step = Timeout(node: NodeId) | Broadcast(node: NodeId) | Deliver(envelope: Envelope)

  function Peers(members: set<NodeId>): nat {
    if members == {} then 0 else |members| - 1
  }

  ghost function ToPeers(members: set<NodeId>, n: NodeId, p: Payload): set<Envelope> {
    set m | m in members && m != n :: Envelope(n, m, p)
  }

  ghost predicate Init(members: set<NodeId>, c: Cluster) {
    && c.nodes.Keys == members
    && (forall n :: n in members ==> c.nodes[n] == INITIAL)
    && c.net == {}
  }

  ghost predicate Enabled(members: set<NodeId>, c: Cluster, step: Step) {
    match step
    case Timeout(n) => n in members
    case Broadcast(n) => n in members
    case Deliver(e) => e in c.net && e.dst in members
  }

  ghost function Apply(members: set<NodeId>, c: Cluster, step: Step): Cluster
    requires c.nodes.Keys == members && Enabled(members, c, step)
  {
    match step
    case Timeout(n) =>
      var s := StartElection(c.nodes[n], n, Peers(members));
      Cluster(c.nodes[n := s], c.net + ToPeers(members, n, VoteRequest(s.term, n)))
    case Broadcast(n) =>
      if c.nodes[n].role != Leader then c
      else c.(net := c.net + ToPeers(members, n, Heartbeat(c.nodes[n].term, n)))
    case Deliver(e) => ApplyDelivery(members, c, e)
  }

  ghost function ApplyDelivery(members: set<NodeId>, c: Cluster, e: Envelope): Cluster
    requires c.nodes.Keys == members && e.dst in members
  {
    var s := c.nodes[e.dst];
    match e.payload
    case VoteRequest(t, cand) =>
      Cluster(c.nodes[e.dst := OnVoteRequest(s, t, cand)],
              c.net + {Envelope(e.dst, e.src, VoteReply(s, e.dst, t, cand))})
    case VoteResponse(t, granted, voter) =>
      c.(nodes := c.nodes[e.dst := OnVoteResponse(s, e.dst, Peers(members), t, granted, voter)])
    case Heartbeat(t, l) =>
      Cluster(c.nodes[e.dst := OnHeartbeat(s, t, l)],
              c.net + {Envelope(e.dst, e.src, HeartbeatReply(s, e.dst, t, l))})
    case HeartbeatAck(_, _, _) => c
  }

  ghost predicate Next(members: set<NodeId>, c: Cluster, d: Cluster) {
    && c.nodes.Keys == members
    && exists step :: Enabled(members, c, step) && d == Apply(members, c, step)
  }

  ghost predicate IsRun(members: set<NodeId>, run: seq<Cluster>) {
    && 0 < |run|
    && Init(members, run[0])
    && forall i :: 0 <= i < |run| - 1 ==> Next(members, run[i], run[i + 1])
  }

  // ----- The invariant -----

  /** A won election: the leader and the voters whose votes made it leader. */
  datatype Win = Win(leader: NodeId, voters: set<NodeId>)

  predicate Granted(net: set<Envelope>, t: int, v: NodeId, c: NodeId) {
    Envelope(v, c, VoteResponse(t, true, v)) in net
  }

  predicate Majority(members: set<NodeId>, q: set<NodeId>) {
    q <= members && |q| >= RequiredQuorum(Peers(members))
  }

  /** Messages say who sent them, and heartbeats come from winners. */
  ghost predicate MessagesOk(members: set<NodeId>, c: Cluster, wins: map<int, Win>)
    requires c.nodes.Keys == members
  {
    forall e :: e in c.net ==>
      && e.src in members
      && match e.payload
         case VoteRequest(t, cand) => cand == e.src && cand != e.dst && t <= c.nodes[cand].term
         case VoteResponse(t, granted, v) => v == e.src && t <= c.nodes[v].term
         case Heartbeat(t, l) => t in wins && wins[t].leader == l
         case HeartbeatAck(_, _, _) => true
  }

  ghost predicate RolesOk(members: set<NodeId>, c: Cluster, wins: map<int, Win>)
    requires c.nodes.Keys == members
  {
    forall n :: n in members ==>
      && var s := c.nodes[n];
      && (s.role == Leader ==> s.votedFor == Some(n) && s.term in wins && wins[s.term].leader == n)
      && (s.role == Candidate ==>
           && s.votedFor == Some(n)
           && n in s.votes
           && s.votes <= members
           && forall v :: v in s.votes && v != n ==> Granted(c.net, s.term, v, n))
  }

  /** A vote granted to another in a term binds the voter for that term. */
  ghost predicate VotesBind(members: set<NodeId>, c: Cluster)
    requires c.nodes.Keys == members
  {
    forall t, v, x :: Granted(c.net, t, v, x) && v in members ==>
      c.nodes[v].term > t || (c.nodes[v].term == t && c.nodes[v].role == Follower && c.nodes[v].votedFor == Some(x))
  }

  ghost predicate VotesUnique(c: Cluster) {
    forall t, v, x, y :: Granted(c.net, t, v, x) && Granted(c.net, t, v, y) ==> x == y
  }

  /** Once a term is won, the winning voters can never help another candidate in that term. */
  ghost predicate QuorumFrozen(members: set<NodeId>, c: Cluster, wins: map<int, Win>)
    requires c.nodes.Keys == members
  {
    forall t :: t in wins ==> FrozenAt(members, c, t, wins[t])
  }

  ghost predicate FrozenAt(members: set<NodeId>, c: Cluster, t: int, w: Win)
    requires c.nodes.Keys == members
  {
    && Majority(members, w.voters)
    && w.leader in w.voters
    && (forall v :: v in w.voters ==>
          || c.nodes[v].term > t
          || (&& c.nodes[v].term == t && c.nodes[v].votedFor == Some(w.leader)
              && c.nodes[v].role == (if v == w.leader then Leader else Follower)))
    && (forall v, x :: v in w.voters && Granted(c.net, t, v, x) ==> x == w.leader)
    && (forall n :: n in members && c.nodes[n].role == Candidate && c.nodes[n].term == t ==>
          c.nodes[n].votes !! w.voters)
  }

  ghost predicate Inv(members: set<NodeId>, c: Cluster, wins: map<int, Win>) {
    && c.nodes.Keys == members
    && MessagesOk(members, c, wins)
    && RolesOk(members, c, wins)
    && VotesBind(members, c)
    && VotesUnique(c)
    && QuorumFrozen(members, c, wins)
  }

  /** Two majorities of the same membership share a voter. */
  lemma MajoritiesMeet(members: set<NodeId>, p: set<NodeId>, q: set<NodeId>)
    requires members != {} && Majority(members, p) && Majority(members, q)
    ensures p * q != {}
  {
    if p * q == {} {
      assert |p + q| == |p| + |q|;
      SubsetSize(p + q, members);
    }
  }

  // ----- Each step keeps the invariant -----

  ghost predicate Leads(c: Cluster, t: int, n: NodeId) {
    n in c.nodes && c.nodes[n].role == Leader && c.nodes[n].term == t
  }

  /** Wins are only added, each as its winner begins to lead. */
  ghost predicate Extends(wins: map<int, Win>, wins': map<int, Win>, d: Cluster) {
    && (forall t :: t in wins ==> t in wins' && wins'[t] == wins[t])
    && (forall t :: t in wins' && t !in wins ==> Leads(d, t, wins'[t].leader))
  }

  /** The ways a node's state moves when no vote is cast or counted. */
  ghost predicate Moves(s: State, s': State, n: NodeId, wins: map<int, Win>) {
    || s' == s.(leader := s'.leader)
    || (s.term < s'.term && s'.role == Follower)
    || (s.term < s'.term && s'.role == Candidate && s'.votedFor == Some(n) && s'.votes == {n})
    || (s.term == s'.term && s.role == Candidate && s'.role == Follower && s.term in wins)
  }

  ghost predicate SameGrants(c: Cluster, d: Cluster) {
    && c.net <= d.net
    && forall t, v, x :: Granted(d.net, t, v, x) ==> Granted(c.net, t, v, x)
  }

  /** A won term stays frozen when no vote is cast and no winning voter is counted elsewhere. */
  lemma FrozenStays(members: set<NodeId>, c: Cluster, d: Cluster, t: int, w: Win, n: NodeId)
    requires c.nodes.Keys == members == d.nodes.Keys && n in members
    requires FrozenAt(members, c, t, w)
    requires d.nodes == c.nodes[n := d.nodes[n]]
    requires n in w.voters ==>
      || d.nodes[n].term > t
      || (d.nodes[n].term == t && d.nodes[n].votedFor == Some(w.leader)
          && d.nodes[n].role == (if n == w.leader then Leader else Follower))
    requires forall v :: v in w.voters ==> forall x :: Granted(d.net, t, v, x) ==> x == w.leader
    requires d.nodes[n].role == Candidate && d.nodes[n].term == t ==> d.nodes[n].votes !! w.voters
    ensures FrozenAt(members, d, t, w)
  {
  }

  lemma MessagesStay(members: set<NodeId>, c: Cluster, d: Cluster, wins: map<int, Win>, wins': map<int, Win>)
    requires c.nodes.Keys == members == d.nodes.Keys && MessagesOk(members, c, wins)
    requires forall n :: n in members ==> c.nodes[n].term <= d.nodes[n].term
    requires forall t :: t in wins ==> t in wins' && wins'[t] == wins[t]
    requires forall e :: e in d.net ==>
      e in c.net || (e.src in members && e.payload.VoteRequest? && e.payload.candidate == e.src != e.dst
                     && e.payload.term <= d.nodes[e.src].term)
    ensures MessagesOk(members, d, wins')
  {
  }

  /** A move without votes keeps the invariant, whatever other messages it sends. */
  lemma MoveKeeps(members: set<NodeId>, c: Cluster, d: Cluster, wins: map<int, Win>, n: NodeId)
    requires Inv(members, c, wins) && n in members
    requires d.nodes.Keys == members && d.nodes == c.nodes[n := d.nodes[n]]
    requires Moves(c.nodes[n], d.nodes[n], n, wins) && SameGrants(c, d)
    requires MessagesOk(members, d, wins)
    ensures Inv(members, d, wins)
  {
    forall t | t in wins ensures FrozenAt(members, d, t, wins[t]) {
      assert FrozenAt(members, c, t, wins[t]);
      FrozenStays(members, c, d, t, wins[t], n);
    }
  }

  lemma TimeoutKeeps(members: set<NodeId>, c: Cluster, wins: map<int, Win>, n: NodeId)
    requires Inv(members, c, wins) && n in members && Peers(members) != 0
    ensures Inv(members, Apply(members, c, Timeout(n)), wins)
  {
    var d := Apply(members, c, Timeout(n));
    assert SameGrants(c, d);
    MoveKeeps(members, c, d, wins, n);
  }

  /** Where nobody else is a member, a new term's winner leaves the earlier terms as they were. */
  lemma LoneFrozen(members: set<NodeId>, c: Cluster, d: Cluster, wins: map<int, Win>, n: NodeId)
    requires Inv(members, c, wins) && n in members && d.nodes.Keys == members && d.nodes == c.nodes[n := d.nodes[n]]
    requires d.nodes[n].term == c.nodes[n].term + 1 && d.nodes[n].role == Leader && SameGrants(c, d)
    requires c.nodes[n].term + 1 !in wins && (forall t :: t in wins ==> n in wins[t].voters)
    ensures QuorumFrozen(members, d, wins)
  {
    forall t | t in wins ensures FrozenAt(members, d, t, wins[t]) {
      assert FrozenAt(members, c, t, wins[t]);
      FrozenStays(members, c, d, t, wins[t], n);
    }
  }

  /** A member without peers is the only one, voted in every win, and has not won a term ahead of its own. */
  lemma LoneMember(members: set<NodeId>, c: Cluster, wins: map<int, Win>, n: NodeId)
    requires Inv(members, c, wins) && n in members && Peers(members) == 0
    ensures members == {n} && c.nodes[n].term + 1 !in wins
    ensures forall t :: t in wins ==> n in wins[t].voters
  {
    if m :| m in members && m != n { SubsetSize({n, m}, members); }
    forall t | t in wins ensures n in wins[t].voters && t <= c.nodes[n].term {
      assert FrozenAt(members, c, t, wins[t]);
    }
  }

  lemma LoneVotes(members: set<NodeId>, c: Cluster, d: Cluster, wins: map<int, Win>, wins': map<int, Win>, n: NodeId)
    requires Inv(members, c, wins) && members == {n} && d.nodes.Keys == members && SameGrants(c, d)
    requires d.nodes[n].term == c.nodes[n].term + 1 && d.nodes[n].role == Leader && d.nodes[n].votedFor == Some(n)
    requires wins' == wins[d.nodes[n].term := Win(n, {n})]
    ensures RolesOk(members, d, wins') && VotesBind(members, d) && VotesUnique(d)
  {
  }

  /** A cluster of one promotes itself in a term it alone has entered. */
  lemma LoneTimeoutKeeps(members: set<NodeId>, c: Cluster, wins: map<int, Win>, n: NodeId) returns (wins': map<int, Win>)
    requires Inv(members, c, wins) && n in members && Peers(members) == 0
    ensures Inv(members, Apply(members, c, Timeout(n)), wins') && Extends(wins, wins', Apply(members, c, Timeout(n)))
  {
    var d := Apply(members, c, Timeout(n));
    var t := c.nodes[n].term + 1;
    LoneMember(members, c, wins, n);
    assert SameGrants(c, d);
    wins' := wins[t := Win(n, {n})];
    MessagesStay(members, c, d, wins, wins');
    LoneVotes(members, c, d, wins, wins', n);
    LoneFrozen(members, c, d, wins, n);
    assert FrozenAt(members, d, t, wins'[t]);
  }

  lemma BroadcastKeeps(members: set<NodeId>, c: Cluster, wins: map<int, Win>, n: NodeId)
    requires Inv(members, c, wins) && n in members
    ensures Inv(members, Apply(members, c, Broadcast(n)), wins)
  {
    var d := Apply(members, c, Broadcast(n));
    assert SameGrants(c, d);
    MoveKeeps(members, c, d, wins, n);
  }

  lemma HeartbeatKeeps(members: set<NodeId>, c: Cluster, wins: map<int, Win>, e: Envelope)
    requires Inv(members, c, wins) && e in c.net && e.dst in members && e.payload.Heartbeat?
    ensures Inv(members, ApplyDelivery(members, c, e), wins)
  {
    var d := ApplyDelivery(members, c, e);
    assert SameGrants(c, d);
    assert Moves(c.nodes[e.dst], d.nodes[e.dst], e.dst, wins);
    MoveKeeps(members, c, d, wins, e.dst);
  }

  /** Casting a vote in the voter's own term. */
  ghost function Granting(c: Cluster, v: NodeId, x: NodeId): Cluster
    requires v in c.nodes
  {
    Cluster(c.nodes[v := c.nodes[v].(votedFor := Some(x))],
            c.net + {Envelope(v, x, VoteResponse(c.nodes[v].term, true, v))})
  }

  ghost predicate MayGrant(members: set<NodeId>, c: Cluster, wins: map<int, Win>, v: NodeId, x: NodeId) {
    && Inv(members, c, wins) && v in members && x in members && v != x
    && (c.nodes[v].votedFor == None || c.nodes[v].votedFor == Some(x))
  }

  lemma GrantIsOneMore(members: set<NodeId>, c: Cluster, wins: map<int, Win>, v: NodeId, x: NodeId)
    requires MayGrant(members, c, wins, v, x)
    ensures c.nodes[v].role == Follower
    ensures forall t, u, y :: Granted(Granting(c, v, x).net, t, u, y) <==>
      Granted(c.net, t, u, y) || (t == c.nodes[v].term && u == v && y == x)
  {
  }

  lemma GrantKeepsRoles(members: set<NodeId>, c: Cluster, wins: map<int, Win>, v: NodeId, x: NodeId)
    requires MayGrant(members, c, wins, v, x)
    ensures MessagesOk(members, Granting(c, v, x), wins) && RolesOk(members, Granting(c, v, x), wins)
  {
    GrantIsOneMore(members, c, wins, v, x);
  }

  lemma GrantKeepsVotes(members: set<NodeId>, c: Cluster, wins: map<int, Win>, v: NodeId, x: NodeId)
    requires MayGrant(members, c, wins, v, x)
    ensures VotesBind(members, Granting(c, v, x)) && VotesUnique(Granting(c, v, x))
  {
    GrantIsOneMore(members, c, wins, v, x);
  }

  lemma GrantKeepsFrozen(members: set<NodeId>, c: Cluster, wins: map<int, Win>, v: NodeId, x: NodeId)
    requires MayGrant(members, c, wins, v, x)
    ensures QuorumFrozen(members, Granting(c, v, x), wins)
  {
    GrantIsOneMore(members, c, wins, v, x);
    forall t | t in wins ensures FrozenAt(members, Granting(c, v, x), t, wins[t]) {
      assert FrozenAt(members, c, t, wins[t]);
      FrozenStays(members, c, Granting(c, v, x), t, wins[t], v);
    }
  }

  lemma GrantKeeps(members: set<NodeId>, c: Cluster, wins: map<int, Win>, v: NodeId, x: NodeId)
    requires MayGrant(members, c, wins, v, x)
    ensures Inv(members, Granting(c, v, x), wins)
  {
    GrantKeepsRoles(members, c, wins, v, x);
    GrantKeepsVotes(members, c, wins, v, x);
    GrantKeepsFrozen(members, c, wins, v, x);
  }

  lemma VoteRequestKeeps(members: set<NodeId>, c: Cluster, wins: map<int, Win>, e: Envelope)
    requires Inv(members, c, wins) && e in c.net && e.dst in members && e.payload.VoteRequest?
    ensures Inv(members, ApplyDelivery(members, c, e), wins)
  {
    var d := ApplyDelivery(members, c, e);
    var s := c.nodes[e.dst];
    var t, x := e.payload.term, e.payload.candidate;
    if Grants(s, t, x) {
      var j := c.(nodes := c.nodes[e.dst := Joined(s, t)]);
      MoveKeeps(members, c, j, wins, e.dst);
      GrantKeeps(members, j, wins, e.dst, x);
      assert d.nodes == j.nodes[e.dst := j.nodes[e.dst].(votedFor := Some(x))];
    } else {
      assert SameGrants(c, d);
      MoveKeeps(members, c, d, wins, e.dst);
    }
  }

  /** A candidate that reaches a majority does so in a term nobody has won. */
  lemma PromotionIsFirst(members: set<NodeId>, c: Cluster, wins: map<int, Win>, n: NodeId, v: NodeId)
    requires Inv(members, c, wins) && n in members
    requires c.nodes[n].role == Candidate && Granted(c.net, c.nodes[n].term, v, n)
    requires Majority(members, c.nodes[n].votes + {v})
    ensures c.nodes[n].term !in wins
  {
    var t := c.nodes[n].term;
    if t in wins {
      assert FrozenAt(members, c, t, wins[t]);
      MajoritiesMeet(members, c.nodes[n].votes + {v}, wins[t].voters);
      assert false;
    }
  }

  /** The votes that promote a candidate are frozen from that moment on. */
  lemma PromotionFreezes(members: set<NodeId>, c: Cluster, wins: map<int, Win>, n: NodeId, v: NodeId)
    requires Inv(members, c, wins) && n in members && v in members
    requires c.nodes[n].role == Candidate && Granted(c.net, c.nodes[n].term, v, n)
    requires Majority(members, c.nodes[n].votes + {v})
    requires c.nodes[n].term !in wins
    ensures
      var s := c.nodes[n].(votes := c.nodes[n].votes + {v});
      FrozenAt(members, c.(nodes := c.nodes[n := Promote(s, n)]), s.term, Win(n, s.votes))
  {
    var t := c.nodes[n].term;
    var q := c.nodes[n].votes + {v};
    forall u | u in q && u != n ensures Granted(c.net, t, u, n) {}
    assert !Granted(c.net, t, n, n);
    forall x | Granted(c.net, t, n, x) ensures false {}
    forall m | m in members && m != n && c.nodes[m].role == Candidate && c.nodes[m].term == t
      ensures c.nodes[m].votes !! q
    {
      forall u | u in c.nodes[m].votes && u in q ensures false {
      }
    }
  }

  /** A counted vote that does not yet decide the election. */
  lemma TallyKeeps(members: set<NodeId>, c: Cluster, wins: map<int, Win>, n: NodeId, v: NodeId)
    requires Inv(members, c, wins) && n in members && v in members
    requires c.nodes[n].role == Candidate && Granted(c.net, c.nodes[n].term, v, n)
    ensures Inv(members, c.(nodes := c.nodes[n := c.nodes[n].(votes := c.nodes[n].votes + {v})]), wins)
  {
    var d := c.(nodes := c.nodes[n := c.nodes[n].(votes := c.nodes[n].votes + {v})]);
    MessagesStay(members, c, d, wins, wins);
    assert RolesOk(members, d, wins);
    assert VotesBind(members, d) by {
      forall t, u, x | Granted(d.net, t, u, x) && u in members
        ensures d.nodes[u].term > t || (d.nodes[u].term == t && d.nodes[u].role == Follower && d.nodes[u].votedFor == Some(x))
      {
        assert Granted(c.net, t, u, x);
      }
    }
    forall t | t in wins ensures FrozenAt(members, d, t, wins[t]) {
      assert FrozenAt(members, c, t, wins[t]);
      FrozenStays(members, c, d, t, wins[t], n);
    }
  }

  lemma PromotionKeeps(members: set<NodeId>, c: Cluster, wins: map<int, Win>, n: NodeId, v: NodeId)
    requires Inv(members, c, wins) && n in members && v in members
    requires c.nodes[n].role == Candidate && Granted(c.net, c.nodes[n].term, v, n)
    requires Majority(members, c.nodes[n].votes + {v})
    ensures
      var s := c.nodes[n].(votes := c.nodes[n].votes + {v});
      && s.term !in wins
      && Inv(members, c.(nodes := c.nodes[n := Promote(s, n)]), wins[s.term := Win(n, s.votes)])
  {
    var s := c.nodes[n].(votes := c.nodes[n].votes + {v});
    var d := c.(nodes := c.nodes[n := Promote(s, n)]);
    PromotionIsFirst(members, c, wins, n, v);
    PromotionFreezes(members, c, wins, n, v);
    var wins' := wins[s.term := Win(n, s.votes)];
    MessagesStay(members, c, d, wins, wins');
    assert RolesOk(members, d, wins');
    forall t | t in wins' ensures FrozenAt(members, d, t, wins'[t]) {
      if t != s.term {
        assert FrozenAt(members, c, t, wins[t]);
        FrozenStays(members, c, d, t, wins[t], n);
      }
    }
  }

  lemma VoteResponseKeeps(members: set<NodeId>, c: Cluster, wins: map<int, Win>, e: Envelope)
    returns (wins': map<int, Win>)
    requires Inv(members, c, wins) && e in c.net && e.dst in members && e.payload.VoteResponse?
    ensures Inv(members, ApplyDelivery(members, c, e), wins') && Extends(wins, wins', ApplyDelivery(members, c, e))
  {
    var d := ApplyDelivery(members, c, e);
    var n := e.dst;
    var s := c.nodes[n];
    var v := e.payload.voter;
    wins' := wins;
    if s.role == Candidate && e.payload.term == s.term && e.payload.granted {
      assert Granted(c.net, s.term, v, n);
      var q := s.votes + {v};
      if |q| >= RequiredQuorum(Peers(members)) {
        PromotionKeeps(members, c, wins, n, v);
        wins' := wins[s.term := Win(n, q)];
      } else {
        TallyKeeps(members, c, wins, n, v);
      }
    } else {
      MoveKeeps(members, c, d, wins, n);
    }
  }

  lemma StepKeeps(members: set<NodeId>, c: Cluster, wins: map<int, Win>, step: Step) returns (wins': map<int, Win>)
    requires Inv(members, c, wins) && Enabled(members, c, step)
    ensures Inv(members, Apply(members, c, step), wins') && Extends(wins, wins', Apply(members, c, step))
  {
    wins' := wins;
    match step {
      case Timeout(n) =>
        if Peers(members) == 0 {
          wins' := LoneTimeoutKeeps(members, c, wins, n);
        } else {
          TimeoutKeeps(members, c, wins, n);
        }
      case Broadcast(n) => BroadcastKeeps(members, c, wins, n);
      case Deliver(e) =>
        match e.payload {
          case VoteRequest(_, _) => VoteRequestKeeps(members, c, wins, e);
          case VoteResponse(_, _, _) => wins' := VoteResponseKeeps(members, c, wins, e);
          case Heartbeat(_, _) => HeartbeatKeeps(members, c, wins, e);
          case HeartbeatAck(_, _, _) =>
        }
    }
  }

  /** Whoever leads at some moment has won, whoever is named by a heartbeat has won, and winners have led. */
  ghost predicate Explains(run: seq<Cluster>, wins: map<int, Win>) {
    && (forall i, t, n :: 0 <= i < |run| && Leads(run[i], t, n) ==> t in wins && wins[t].leader == n)
    && (forall i, e :: 0 <= i < |run| && e in run[i].net && e.payload.Heartbeat? ==>
          e.payload.term in wins && wins[e.payload.term].leader == e.payload.leaderId)
    && (forall t :: t in wins ==> WonBy(run, t, wins[t].leader))
  }

  ghost predicate WonBy(run: seq<Cluster>, t: int, n: NodeId) {
    exists i :: 0 <= i < |run| && Leads(run[i], t, n)
  }

  lemma WonByNext(run: seq<Cluster>, d: Cluster, t: int, n: NodeId)
    requires WonBy(run, t, n) || Leads(d, t, n)
    ensures WonBy(run + [d], t, n)
  {
    if WonBy(run, t, n) {
      var i :| 0 <= i < |run| && Leads(run[i], t, n);
      assert Leads((run + [d])[i], t, n);
    } else {
      assert Leads((run + [d])[|run|], t, n);
    }
  }

  lemma ExplainsNext(members: set<NodeId>, run: seq<Cluster>, before: map<int, Win>, d: Cluster, wins: map<int, Win>)
    requires Explains(run, before) && Inv(members, d, wins) && Extends(before, wins, d)
    ensures Explains(run + [d], wins)
  {
    forall t | t in wins ensures WonBy(run + [d], t, wins[t].leader) {
      WonByNext(run, d, t, wins[t].leader);
    }
    forall i, t, n | 0 <= i < |run + [d]| && Leads((run + [d])[i], t, n) ensures t in wins && wins[t].leader == n {
      if i < |run| { assert Leads(run[i], t, n); }
    }
  }

  lemma {:induction false} RunKeeps(members: set<NodeId>, run: seq<Cluster>) returns (wins: map<int, Win>)
    requires IsRun(members, run)
    ensures Inv(members, run[|run| - 1], wins) && Explains(run, wins)
  {
    var k := |run| - 1;
    if k == 0 {
      wins := map[];
    } else {
      var before := RunKeeps(members, run[..k]);
      assert run[..k][k - 1] == run[k - 1] && run == run[..k] + [run[k]];
      assert Next(members, run[k - 1], run[k]);
      var step :| Enabled(members, run[k - 1], step) && run[k] == Apply(members, run[k - 1], step);
      wins := StepKeeps(members, run[k - 1], before, step);
      ExplainsNext(members, run[..k], before, run[k], wins);
    }
  }

  /** At most one node is ever leader in a term, at whatever moments of the run they lead. */
  lemma ElectionSafety(members: set<NodeId>, run: seq<Cluster>, i: nat, j: nat, m: NodeId, n: NodeId)
    requires IsRun(members, run) && i < |run| && j < |run|
    requires m in members && n in members && m in run[i].nodes && n in run[j].nodes
    requires run[i].nodes[m].role == Leader && run[j].nodes[n].role == Leader
    requires run[i].nodes[m].term == run[j].nodes[n].term
    ensures m == n
  {
    var _ := RunKeeps(members, run);
    assert Leads(run[i], run[i].nodes[m].term, m) && Leads(run[j], run[j].nodes[n].term, n);
  }

  /** Every heartbeat ever sent in a term names the one node that ever leads that term. */
  lemma HeartbeatsNameTheLeader(members: set<NodeId>, run: seq<Cluster>, i: nat, j: nat, e: Envelope, n: NodeId)
    requires IsRun(members, run) && i < |run| && j < |run|
    requires e in run[i].net && e.payload.Heartbeat?
    requires n in members && n in run[j].nodes && run[j].nodes[n].role == Leader
    requires run[j].nodes[n].term == e.payload.term
    ensures e.payload.leaderId == n
  {
    var _ := RunKeeps(members, run);
    assert Leads(run[j], e.payload.term, n);
  }

  // ----- Whom nodes take for the leader -----

  /** Whoever a node takes for the leader has won some term that is not ahead of the node's. */
  ghost predicate NamesWinners(c: Cluster, wins: map<int, Win>) {
    forall n :: n in c.nodes && c.nodes[n].leader.Some? ==> NamesWinner(c.nodes[n], wins)
  }

  ghost predicate NamesWinner(s: State, wins: map<int, Win>)
    requires s.leader.Some?
  {
    exists t :: t in wins && t <= s.term && wins[t].leader == s.leader.value
  }

  lemma NodeNames(s: State, n: NodeId, peers: nat, m: Option<Payload>, wins: map<int, Win>)
    requires s.leader.Some? ==> NamesWinner(s, wins)
    requires
      var s' := Handled(s, n, peers, m);
      s'.role == Leader ==> s'.term in wins && wins[s'.term].leader == n
    requires m.Some? && m.value.Heartbeat? ==> m.value.term in wins && wins[m.value.term].leader == m.value.leaderId
    ensures var s' := Handled(s, n, peers, m); s'.leader.Some? ==> NamesWinner(s', wins)
  {
    var s' := Handled(s, n, peers, m);
    LeaderNamedExactly(s, n, peers, m);
    assert s.term <= s'.term;
    if s'.leader.Some? && s'.leader == s.leader {
      var t :| t in wins && t <= s.term && wins[t].leader == s.leader.value;
      assert t <= s'.term;
    }
  }

  lemma StepNames(members: set<NodeId>, c: Cluster, step: Step, wins: map<int, Win>)
    requires c.nodes.Keys == members && Enabled(members, c, step) && NamesWinners(c, wins)
    requires
      var d := Apply(members, c, step);
      forall n :: n in d.nodes && d.nodes[n].role == Leader ==> d.nodes[n].term in wins && wins[d.nodes[n].term].leader == n
    requires forall e :: e in c.net && e.payload.Heartbeat? ==>
      e.payload.term in wins && wins[e.payload.term].leader == e.payload.leaderId
    ensures NamesWinners(Apply(members, c, step), wins)
  {
    var d := Apply(members, c, step);
    match step {
      case Timeout(n) =>
        assert n in d.nodes && d.nodes[n] == Handled(c.nodes[n], n, Peers(members), None);
        NodeNames(c.nodes[n], n, Peers(members), None, wins);
      case Broadcast(_) =>
      case Deliver(e) =>
        assert e.dst in d.nodes && d.nodes[e.dst] == Handled(c.nodes[e.dst], e.dst, Peers(members), Some(e.payload));
        NodeNames(c.nodes[e.dst], e.dst, Peers(members), Some(e.payload), wins);
    }
  }

  lemma {:induction false} RunNames(members: set<NodeId>, run: seq<Cluster>, wins: map<int, Win>, i: nat)
    requires IsRun(members, run) && Explains(run, wins) && i < |run|
    ensures NamesWinners(run[i], wins)
    decreases i
  {
    if i > 0 {
      var h := i - 1;
      RunNames(members, run, wins, h);
      assert Next(members, run[h], run[h + 1]);
      var step :| Enabled(members, run[h], step) && run[i] == Apply(members, run[h], step);
      assert forall n :: n in run[i].nodes && run[i].nodes[n].role == Leader ==> Leads(run[i], run[i].nodes[n].term, n);
      StepNames(members, run[h], step, wins);
    }
  }

  /** In every state of every run, whoever a node takes for the leader did win a term, and none ahead of the node's. */
  lemma KnownLeaderWon(members: set<NodeId>, run: seq<Cluster>, i: nat, n: NodeId) returns (t: int)
    requires IsRun(members, run) && i < |run| && n in run[i].nodes && run[i].nodes[n].leader.Some?
    ensures t <= run[i].nodes[n].term && WonBy(run, t, run[i].nodes[n].leader.value)
  {
    var wins := RunKeeps(members, run);
    RunNames(members, run, wins, i);
    t :| t in wins && t <= run[i].nodes[n].term && wins[t].leader == run[i].nodes[n].leader.value;
  }

  /** A node that accepts a heartbeat follows the one node that ever leads in its term. */
  lemma HeartbeatIsFollowed(members: set<NodeId>, run: seq<Cluster>, i: nat, e: Envelope, j: nat, n: NodeId)
    requires IsRun(members, run) && 0 < i < |run| && j < |run| && e in run[i - 1].net && e.payload.Heartbeat?
    requires e.dst in members && run[i - 1].nodes.Keys == members && e.payload.term >= run[i - 1].nodes[e.dst].term
    requires run[i] == Apply(members, run[i - 1], Deliver(e))
    requires n in members && n in run[j].nodes && run[j].nodes[n].role == Leader && run[j].nodes[n].term == e.payload.term
    ensures run[i].nodes[e.dst].term == e.payload.term && run[i].nodes[e.dst].leader == Some(n)
  {
    HeartbeatsNameTheLeader(members, run, i - 1, j, e, n);
  }
}
