/**
 The election state of one node and the handlers that change it.
 Timers are not modelled: an election may start at any moment.
 */
module Election {
  import opened Wrappers

  type NodeId = string

  datatype Role = Follower | Candidate | Leader

  /** The fields of `ElectionState` that decide who leads. */
  datatype State = State(role: Role, term: int, votedFor: Option<NodeId>, leader: Option<NodeId>, votes: set<NodeId>)

  const INITIAL := State(Follower, 0, None, None, {})

  datatype Payload =
    | VoteRequest(term: int, candidate: NodeId)
    | VoteResponse(term: int, granted: bool, voter: NodeId)
    | Heartbeat(term: int, leaderId: NodeId)
    | HeartbeatAck(term: int, node: NodeId, accepted: bool)

  /** Majority of a cluster with the given number of peers besides the node itself. */
  function RequiredQuorum(peers: nat): nat {
    (peers + 1) / 2 + 1
  }

  function StepDown(s: State, newTerm: int): State {
    s.(role := Follower, term := if s.term < newTerm then newTerm else s.term, votedFor := None, votes := {})
  }

  function Promote(s: State, self: NodeId): State {
    if s.role == Leader then s else s.(role := Leader, leader := Some(self))
  }

  function StartElection(s: State, self: NodeId, peers: nat): State {
    var c := State(Candidate, s.term + 1, Some(self), None, {self});
    if peers == 0 then Promote(c, self) else c
  }

  /** The state in which a vote request of the given term is judged. */
  function Joined(s: State, term: int): State {
    if term > s.term then StepDown(s, term) else s
  }

  predicate Grants(s: State, term: int, candidate: NodeId) {
    && s.term <= term
    && var j := Joined(s, term);
    (j.votedFor == None || j.votedFor == Some(candidate))
  }

  function OnVoteRequest(s: State, term: int, candidate: NodeId): State {
    if term < s.term then s
    else if Grants(s, term, candidate) then Joined(s, term).(votedFor := Some(candidate))
    else Joined(s, term)
  }

  function VoteReply(s: State, self: NodeId, term: int, candidate: NodeId): Payload {
    VoteResponse(OnVoteRequest(s, term, candidate).term, Grants(s, term, candidate), self)
  }

  function OnVoteResponse(s: State, self: NodeId, peers: nat, term: int, granted: bool, voter: NodeId): State {
    if term > s.term then StepDown(s, term)
    else if s.role != Candidate || term != s.term || !granted then s
    else
      var t := s.(votes := s.votes + {voter});
      if |t.votes| >= RequiredQuorum(peers) then Promote(t, self) else t
  }

  function OnHeartbeat(s: State, term: int, leaderId: NodeId): State {
    if term < s.term then s
    else if term > s.term || s.role == Candidate then StepDown(s, term).(leader := Some(leaderId))
    else s.(leader := Some(leaderId))
  }

  function HeartbeatReply(s: State, self: NodeId, term: int, leaderId: NodeId): Payload {
    HeartbeatAck(OnHeartbeat(s, term, leaderId).term, self, term >= s.term)
  }

  /** What a node does with a message, or with an election timeout (`None`). */
  function Handled(s: State, self: NodeId, peers: nat, m: Option<Payload>): State {
    match m
    case None => StartElection(s, self, peers)
    case Some(VoteRequest(t, c)) => OnVoteRequest(s, t, c)
    case Some(VoteResponse(t, granted, v)) => OnVoteResponse(s, self, peers, t, granted, v)
    case Some(Heartbeat(t, l)) => OnHeartbeat(s, t, l)
    case Some(HeartbeatAck(_, _, _)) => s
  }

  /** Within a term a node drops its vote exactly when it is a candidate and hears a heartbeat of that term. */
  lemma VoteDroppedExactly(s: State, self: NodeId, peers: nat, m: Option<Payload>)
    requires s.votedFor.Some? && Handled(s, self, peers, m).term == s.term
    ensures Handled(s, self, peers, m).votedFor != s.votedFor <==>
            m.Some? && m.value.Heartbeat? && m.value.term == s.term && s.role == Candidate
  {
  }

  /** A node becomes leader exactly when it is alone and times out, or when a grant completes a majority of the cluster. */
  lemma PromotedExactly(s: State, self: NodeId, peers: nat, m: Option<Payload>)
    requires s.role != Leader
    ensures Handled(s, self, peers, m).role == Leader <==>
      || (m == None && peers == 0)
      || (&& m.Some? && m.value.VoteResponse? && m.value.granted && m.value.term == s.term && s.role == Candidate
          && 2 * |s.votes + {m.value.voter}| > peers + 1)
  {
  }

  /** Whom a node takes for the leader: the sender of a heartbeat it accepts, itself once promoted, nobody while it runs. */
  lemma LeaderNamedExactly(s: State, self: NodeId, peers: nat, m: Option<Payload>)
    ensures
      var s' := Handled(s, self, peers, m);
      && (s'.role == Leader && s.role != Leader ==> s'.leader == Some(self))
      && (m == None && peers > 0 ==> s'.leader == None)
      && (m.Some? && m.value.Heartbeat? && m.value.term >= s.term ==> s'.leader == Some(m.value.leaderId))
      && (s'.leader != s.leader ==>
           || m == None
           || (m.value.Heartbeat? && m.value.term >= s.term)
           || (s'.role == Leader && s.role != Leader))
  {
  }

  /** Both replies carry the later of the two terms; a grant or an acceptance is of the sender's own term. */
  lemma RepliesCarryTheTerm(s: State, self: NodeId, term: int, sender: NodeId)
    ensures
      var vote, ack := VoteReply(s, self, term, sender), HeartbeatReply(s, self, term, sender);
      && vote.VoteResponse? && ack.HeartbeatAck? && vote.voter == ack.node == self
      && vote.term == ack.term == (if s.term < term then term else s.term)
      && (vote.granted ==> vote.term == term) && (ack.accepted <==> ack.term == term)
      && (s.term < term ==> vote.granted)
  {
  }

  /** Whoever hears of a later term joins it as a follower, with no vote but the one it then grants. */
  lemma LaterTermDefers(s: State, self: NodeId, peers: nat, m: Payload)
    requires !m.HeartbeatAck?
    ensures
      var s' := Handled(s, self, peers, Some(m));
      && s'.term == (if s.term < m.term then m.term else s.term)
      && (s.term < m.term ==>
           s'.role == Follower && s'.votes == {} && s'.votedFor == if m.VoteRequest? then Some(m.candidate) else None)
  {
  }

  /** A vote request heard twice changes nothing more and is answered alike. */
  lemma VoteIsRepeatable(s: State, self: NodeId, term: int, candidate: NodeId)
    ensures
      var s' := OnVoteRequest(s, term, candidate);
      OnVoteRequest(s', term, candidate) == s' && VoteReply(s', self, term, candidate) == VoteReply(s, self, term, candidate)
  {
  }

  /** One node's engine: its election fields are updated in place by the handlers. */
  class LeaderElectionEngine {
    const nodeId: NodeId
    const peers: seq<NodeId>
    var role: Role
    var currentTerm: int
    var votedFor: Option<NodeId>
    var currentLeader: Option<NodeId>
    var votesReceived: set<NodeId>

    function View(): State
      reads this
    {
      State(role, currentTerm, votedFor, currentLeader, votesReceived)
    }

    constructor (nodeId: NodeId, peers: seq<NodeId>)
      ensures this.nodeId == nodeId && this.peers == peers
      ensures View() == INITIAL
    {
      this.nodeId, this.peers := nodeId, peers;
      role, currentTerm, votedFor, currentLeader, votesReceived := Follower, 0, None, None, {};
    }

    method DoStepDown(newTerm: int)
      modifies this
      ensures View() == StepDown(old(View()), newTerm)
      ensures old(currentTerm) <= currentTerm && role == Follower && votedFor == None
    {
      role := Follower;
      if newTerm > currentTerm { currentTerm := newTerm; }
      votedFor := None;
      votesReceived := {};
    }

    method PromoteToLeader()
      modifies this
      ensures View() == Promote(old(View()), nodeId)
    {
      if role == Leader { return; }
      role := Leader;
      currentLeader := Some(nodeId);
    }

    /** Starts an election; `sent` lists the dispatched vote requests with their destinations. */
    method DoStartElection() returns (sent: seq<(NodeId, Payload)>)
      modifies this
      ensures View() == StartElection(old(View()), nodeId, |peers|)
      ensures |sent| == |peers|
      ensures forall i :: 0 <= i < |sent| ==> sent[i] == (peers[i], VoteRequest(old(currentTerm) + 1, nodeId))
    {
      role := Candidate;
      currentTerm := currentTerm + 1;
      votedFor := Some(nodeId);
      votesReceived := {nodeId};
      currentLeader := None;
      sent := [];
      if |peers| == 0 {
        PromoteToLeader();
        return;
      }
      for i := 0 to |peers|
        invariant |sent| == i
        invariant forall j :: 0 <= j < i ==> sent[j] == (peers[j], VoteRequest(currentTerm, nodeId))
      {
        sent := sent + [(peers[i], VoteRequest(currentTerm, nodeId))];
      }
    }

    method HandleVoteRequest(term: int, candidate: NodeId) returns (reply: Payload)
      modifies this
      ensures View() == OnVoteRequest(old(View()), term, candidate)
      ensures reply == VoteReply(old(View()), nodeId, term, candidate)
      ensures reply.granted ==> currentTerm == term && votedFor == Some(candidate)
      ensures reply.granted && old(currentTerm) == term ==> old(votedFor) == None || old(votedFor) == Some(candidate)
    {
      if term < currentTerm {
        return VoteResponse(currentTerm, false, nodeId);
      }
      if term > currentTerm { DoStepDown(term); }
      var canVote := votedFor == None || votedFor == Some(candidate);
      if canVote { votedFor := Some(candidate); }
      reply := VoteResponse(currentTerm, canVote, nodeId);
    }

    method HandleVoteResponse(term: int, granted: bool, voter: NodeId)
      modifies this
      ensures View() == OnVoteResponse(old(View()), nodeId, |peers|, term, granted, voter)
      ensures role == Leader && old(role) != Leader ==> |votesReceived| >= RequiredQuorum(|peers|) && term == currentTerm
    {
      if term > currentTerm {
        DoStepDown(term);
        return;
      }
      if role != Candidate || term != currentTerm { return; }
      if granted {
        votesReceived := votesReceived + {voter};
        if |votesReceived| >= RequiredQuorum(|peers|) {
          PromoteToLeader();
        }
      }
    }

    method BroadcastHeartbeat() returns (sent: seq<(NodeId, Payload)>)
      ensures role != Leader ==> sent == []
      ensures role == Leader ==> |sent| == |peers|
      ensures forall i :: 0 <= i < |sent| ==> i < |peers| && sent[i] == (peers[i], Heartbeat(currentTerm, nodeId))
    {
      sent := [];
      if role != Leader { return; }
      for i := 0 to |peers|
        invariant |sent| == i
        invariant forall j :: 0 <= j < i ==> sent[j] == (peers[j], Heartbeat(currentTerm, nodeId))
      {
        sent := sent + [(peers[i], Heartbeat(currentTerm, nodeId))];
      }
    }

    method HandleLeaderHeartbeat(term: int, leaderId: NodeId) returns (reply: Payload)
      modifies this
      ensures View() == OnHeartbeat(old(View()), term, leaderId)
      ensures reply == HeartbeatReply(old(View()), nodeId, term, leaderId)
    {
      if term < currentTerm {
        return HeartbeatAck(currentTerm, nodeId, false);
      }
      if term > currentTerm {
        DoStepDown(term);
      } else if role == Candidate {
        DoStepDown(term);
      }
      currentLeader := Some(leaderId);
      reply := HeartbeatAck(currentTerm, nodeId, true);
    }
  }
}
