/** Section 5.2 of the Raft paper: at most one leader per term.  The run may
    lose, repeat and reorder messages and may crash with torn hard-state writes.
    The proof has to cope with a node that votes twice in one term: a candidate
    that steps down in its own term forgets its vote. */
module Elections {
  import opened Types
  import opened RaftSpec
  import opened CommitRule
  import opened Cluster

  predicate IsGrant(m: Message) { m.VoteReply? && m.answer.voteGranted }

  /** Candidates and leaders have voted for themselves. */
  ghost predicate OwnVote(c: Cluster) {
    forall n :: n in c.nodes && c.nodes[n].role != Follower ==> c.nodes[n].votedFor == Some(n)
  }

  /** Nobody has voted in a term it has not reached. */
  ghost predicate VotesInPast(c: Cluster) {
    forall m :: m in c.net && IsGrant(m) ==> m.voter in c.nodes && m.vote.term <= c.nodes[m.voter].currentTerm
  }

  /** Node v has given up its own candidacy in favour of the leader of term t. */
  ghost predicate Withdrew(c: Cluster, v: NodeId, t: nat) {
    && v in c.nodes && t in c.elections && c.elections[t].vote.candidateId != v
    && (c.nodes[v].currentTerm == t ==> c.nodes[v].role == Follower)
  }

  /** A vote of the current term is remembered, except a withdrawn vote for oneself. */
  ghost predicate VotesRemembered(c: Cluster) {
    forall m :: m in c.net && IsGrant(m) && m.voter in c.nodes && m.vote.term == c.nodes[m.voter].currentTerm ==>
      || c.nodes[m.voter].votedFor == Some(m.vote.candidateId)
      || (m.vote.candidateId == m.voter && Withdrew(c, m.voter, m.vote.term))
  }

  /** Of two different votes in one term, one is a withdrawn vote for oneself. */
  ghost predicate SecondVotes(c: Cluster) {
    forall m, m' ::
      (&& m in c.net && m' in c.net && IsGrant(m) && IsGrant(m')
       && m.voter == m'.voter && m.vote.term == m'.vote.term && m.vote.candidateId != m'.vote.candidateId) ==>
      && Withdrew(c, m.voter, m.vote.term)
      && (m.vote.candidateId == m.voter || m'.vote.candidateId == m.voter)
  }

  ghost predicate CallsFromLeaders(c: Cluster) {
    forall m :: m in c.net && m.AppendCall? ==>
      && m.append.term in c.elections
      && c.elections[m.append.term].vote.candidateId == m.append.leaderId
      && m.append.leaderId != m.to
  }

  ghost predicate LeadersElected(c: Cluster) {
    forall n :: n in c.nodes && c.nodes[n].role == Leader ==>
      && c.nodes[n].currentTerm in c.elections
      && c.elections[c.nodes[n].currentTerm].vote.candidateId == n
  }

  ghost predicate CandidatesOpen(c: Cluster) {
    forall n :: n in c.nodes && c.nodes[n].role == Candidate && c.nodes[n].currentTerm in c.elections ==>
      c.elections[c.nodes[n].currentTerm].vote.candidateId != n
  }

  ghost predicate WinnersReached(c: Cluster) {
    forall t :: t in c.elections ==>
      && c.elections[t].vote.candidateId in c.nodes
      && c.nodes[c.elections[t].vote.candidateId].currentTerm >= t
  }

  ghost predicate WonByQuorum(c: Cluster) {
    forall t :: t in c.elections ==>
      var e := c.elections[t];
      && e.vote.term == t
      && e.voterLogs.Keys <= c.nodes.Keys
      && |e.voterLogs.Keys| >= VoteQuorum(|c.nodes|)
      && forall v :: v in e.voterLogs ==> VoteReply(v, e.vote, VoteResponse(t, true), e.voterLogs[v]) in c.net
  }

  ghost predicate ElectionInv(c: Cluster) {
    && OwnVote(c) && VotesInPast(c) && VotesRemembered(c) && SecondVotes(c)
    && CallsFromLeaders(c) && LeadersElected(c) && CandidatesOpen(c) && WinnersReached(c) && WonByQuorum(c)
  }

  // ----- quorums ------------------------------------------------------------

  lemma CommonVoter(c: Cluster, e: Election, n: NodeId, vote: VoteRequest, voterLogs: map<NodeId, seq<LogEntry>>)
    returns (m: Message, m': Message)
    requires HasQuorum(c, n, vote, voterLogs)
    requires e.voterLogs.Keys <= c.nodes.Keys && |e.voterLogs.Keys| >= VoteQuorum(|c.nodes|)
    requires forall v :: v in e.voterLogs ==>
                           VoteReply(v, e.vote, VoteResponse(vote.term, true), e.voterLogs[v]) in c.net
    ensures m in c.net && m.VoteReply? && m.vote == e.vote && m.answer == VoteResponse(vote.term, true)
    ensures m' in c.net && m'.VoteReply? && m'.vote == vote && m'.answer == VoteResponse(vote.term, true)
    ensures m.voter == m'.voter
  {
    assert |c.nodes.Keys| == |c.nodes|;
    var v := QuorumsMeet(c.nodes.Keys, e.voterLogs.Keys, voterLogs.Keys);
    m := VoteReply(v, e.vote, VoteResponse(vote.term, true), e.voterLogs[v]);
    m' := VoteReply(v, vote, VoteResponse(vote.term, true), voterLogs[v]);
  }

  /** The step that matters: a candidate with a quorum is the first winner of its term. */
  lemma FirstWinner(c: Cluster, n: NodeId, vote: VoteRequest, voterLogs: map<NodeId, seq<LogEntry>>)
    requires ElectionInv(c) && n in c.nodes && HasQuorum(c, n, vote, voterLogs)
    requires c.nodes[n].role == Candidate && c.nodes[n].currentTerm == vote.term
    ensures vote.term !in c.elections
  {
    if vote.term in c.elections {
      var m, m' := CommonVoter(c, c.elections[vote.term], n, vote, voterLogs);
      assert IsGrant(m) && IsGrant(m');
    }
  }

  // ----- what a step may do to votes ------------------------------------------

  /** Somebody asked n to append entries as leader of term t. */
  ghost predicate Called(c: Cluster, n: NodeId, t: nat) {
    exists append :: AppendCall(n, append) in c.net && append.term == t
  }

  /** How a handler, or a torn restart, may change the term, vote and role of n. */
  ghost predicate Ballot(c: Cluster, n: NodeId, s: NodeState, s': NodeState) {
    && s'.currentTerm >= s.currentTerm
    && (s'.currentTerm == s.currentTerm ==>
          || s'.votedFor == s.votedFor
          || s.votedFor.None?
          || (s'.votedFor.None? && s.role != Follower && s'.role == Follower && Called(c, n, s.currentTerm)))
    && (s'.role == Candidate ==> s'.votedFor == Some(n) && (s'.currentTerm > s.currentTerm || s.role == Candidate))
    && (s'.role == Leader ==>
          s'.currentTerm == s.currentTerm && s.role != Follower && s'.votedFor == s.votedFor)
  }

  lemma VoteHandlerBallot(c: Cluster, n: NodeId, s: NodeState, vote: VoteRequest)
    requires s.role != Follower ==> s.votedFor == Some(n)
    requires vote.candidateId != n
    ensures Ballot(c, n, s, HandleRequestVote(s, vote).0)
    ensures HandleRequestVote(s, vote).1.voteGranted ==>
              && HandleRequestVote(s, vote).0.currentTerm == vote.term
              && HandleRequestVote(s, vote).0.votedFor == Some(vote.candidateId)
  {
  }

  lemma AppendHandlerBallot(c: Cluster, n: NodeId, s: NodeState, append: AppendRequest)
    requires s.role != Follower ==> s.votedFor == Some(n)
    requires AppendCall(n, append) in c.net
    ensures Ballot(c, n, s, HandleAppendEntries(s, append).0)
    ensures HandleAppendEntries(s, append).0.role == Leader ==> s.role == Leader
  {
  }

  lemma ReplyHandlerBallot(c: Cluster, n: NodeId, s: NodeState, follower: NodeId, result: AppendResponse)
    requires s.role != Follower ==> s.votedFor == Some(n)
    ensures Ballot(c, n, s, HandleAppendReply(s, follower, result))
    ensures HandleAppendReply(s, follower, result).role == Leader ==> s.role == Leader
  {
  }

  lemma ReactBallot(c: Cluster, n: NodeId, e: Event)
    requires Enabled(c, n, e) && Monotone(c, n, e) && OwnVote(c)
    ensures Ballot(c, n, c.nodes[n], React(c, n, e))
    ensures React(c, n, e).role == Leader ==> c.nodes[n].role == Leader || e.Win?
  {
    var s := c.nodes[n];
    match e
    case AnswerVote(vote) => VoteHandlerBallot(c, n, s, vote);
    case TakeAppend(append) => AppendHandlerBallot(c, n, s, append);
    case TakeReply(follower, _, result) => ReplyHandlerBallot(c, n, s, follower, result);
    case _ =>
  }

  lemma TornBallot(c: Cluster, n: NodeId, s: NodeState, s': NodeState, writes: nat)
    requires Ballot(c, n, s, s')
    ensures Ballot(c, n, s, Torn(s, s', writes))
  {
  }

  /** A step of node n as far as elections can tell. */
  ghost predicate BallotStep(c: Cluster, c': Cluster, n: NodeId) {
    && n in c.nodes && c'.nodes.Keys == c.nodes.Keys
    && (forall k :: k in c.nodes && k != n ==> c'.nodes[k] == c.nodes[k])
    && Ballot(c, n, c.nodes[n], c'.nodes[n])
    && c.net <= c'.net
    && (forall m :: m in c'.net && m !in c.net && IsGrant(m) ==>
          && m.voter == n && m.vote.term == c'.nodes[n].currentTerm
          && c'.nodes[n].votedFor == Some(m.vote.candidateId))
    && (forall m :: m in c'.net && m !in c.net && m.AppendCall? ==>
          && m.to != n && m.append.leaderId == n
          && c.nodes[n].role == Leader && m.append.term == c.nodes[n].currentTerm)
    && (c'.elections != c.elections ==> Wins(c, c', n))
    && (c'.nodes[n].role == Leader ==> c.nodes[n].role == Leader || Wins(c, c', n))
  }

  ghost predicate Wins(c: Cluster, c': Cluster, n: NodeId) {
    && n in c.nodes && n in c'.nodes
    && c.nodes[n].role == Candidate && c'.nodes[n].role == Leader && c'.nodes[n].log == c.nodes[n].log
    && c.nodes[n].currentTerm in c'.elections
    && var e := c'.elections[c.nodes[n].currentTerm];
       && e.vote.term == c.nodes[n].currentTerm && HasQuorum(c, n, e.vote, e.voterLogs)
       && e.log == c.nodes[n].log
       && c'.elections == c.elections[c.nodes[n].currentTerm := e]
  }

  lemma EmittedVotes(c: Cluster, n: NodeId, e: Event, m: Message)
    requires Enabled(c, n, e) && Monotone(c, n, e) && OwnVote(c)
    requires m in Emit(c, n, e) && IsGrant(m)
    ensures m.voter == n && m.vote.term == React(c, n, e).currentTerm
    ensures React(c, n, e).votedFor == Some(m.vote.candidateId)
  {
    match e
    case AnswerVote(vote) => VoteHandlerBallot(c, n, c.nodes[n], vote);
    case _ =>
  }

  lemma EmittedCalls(c: Cluster, n: NodeId, e: Event, m: Message)
    requires Enabled(c, n, e)
    requires m in Emit(c, n, e) && m.AppendCall?
    ensures m.to != n && m.append.leaderId == n
    ensures c.nodes[n].role == Leader && m.append.term == c.nodes[n].currentTerm
  {
  }

  lemma ElectedShape(c: Cluster, n: NodeId, vote: VoteRequest, voterLogs: map<NodeId, seq<LogEntry>>)
    requires n in c.nodes
    ensures var c', s := Handle(c, n, Win(vote, voterLogs)), c.nodes[n];
            && c'.hist == c.hist[s.currentTerm := s.log] && c'.net == c.net
            && c'.nodes == c.nodes[n := s.(votesReceived := |voterLogs.Keys|).BecomeLeader(n, c.nodes.Keys - {n})]
            && c'.elections == c.elections[vote.term := Election(vote, s.log, voterLogs)]
            && c'.acks == c.acks + {Ack(n, s.currentTerm, |s.log|)}
  {
    assert Emit(c, n, Win(vote, voterLogs)) == {};
  }

  lemma QuietLeads(c: Cluster, n: NodeId, e: Event)
    requires n in c.nodes && !e.Win?
    ensures Handle(c, n, e).elections == c.elections
    ensures React(c, n, e).role == Leader ==> c.nodes[n].role == Leader
  {
  }

  lemma WinnerWins(c: Cluster, c': Cluster, n: NodeId, vote: VoteRequest, voterLogs: map<NodeId, seq<LogEntry>>)
    requires n in c.nodes && c.nodes[n].role == Candidate && vote.term == c.nodes[n].currentTerm
    requires HasQuorum(c, n, vote, voterLogs)
    requires c'.nodes ==
             c.nodes[n := c.nodes[n].(votesReceived := |voterLogs.Keys|).BecomeLeader(n, c.nodes.Keys - {n})]
    requires c'.elections == c.elections[vote.term := Election(vote, c.nodes[n].log, voterLogs)]
    ensures Wins(c, c', n)
  {
  }

  /** Leadership and the record of elections change together, by a quorum. */
  lemma OnlyQuorumsLead(c: Cluster, n: NodeId, e: Event)
    requires Enabled(c, n, e)
    ensures var c' := Handle(c, n, e);
            && (c'.elections != c.elections ==> Wins(c, c', n))
            && (c'.nodes[n].role == Leader ==> c.nodes[n].role == Leader || Wins(c, c', n))
  {
    if e.Win? {
      ElectedShape(c, n, e.vote, e.voterLogs);
      WinnerWins(c, Handle(c, n, e), n, e.vote, e.voterLogs);
    } else {
      QuietLeads(c, n, e);
    }
  }

  lemma RunBallotStep(c: Cluster, n: NodeId, e: Event)
    requires Enabled(c, n, e) && Monotone(c, n, e) && OwnVote(c)
    ensures BallotStep(c, Handle(c, n, e), n)
  {
    ReactBallot(c, n, e);
    OnlyQuorumsLead(c, n, e);
    var c' := Handle(c, n, e);
    forall m | m in c'.net && m !in c.net && IsGrant(m)
      ensures m.voter == n && m.vote.term == c'.nodes[n].currentTerm
      ensures c'.nodes[n].votedFor == Some(m.vote.candidateId)
    {
      EmittedVotes(c, n, e, m);
    }
    forall m | m in c'.net && m !in c.net && m.AppendCall?
      ensures m.to != n && m.append.leaderId == n
      ensures c.nodes[n].role == Leader && m.append.term == c.nodes[n].currentTerm
    {
      EmittedCalls(c, n, e, m);
    }
  }

  lemma StepIsBallotStep(c: Cluster, step: Step)
    requires Enabled(c, step.node, step.event) && Steady(c, step) && OwnVote(c)
    ensures BallotStep(c, Do(c, step), step.node)
  {
    match step
    case Run(n, e) => RunBallotStep(c, n, e);
    case Crash(n, e, writes, keeps) => CrashBallot(c, n, e, writes, keeps);
  }

  lemma CrashBallot(c: Cluster, n: NodeId, e: Event, writes: nat, keeps: nat)
    requires Enabled(c, n, e) && Steady(c, Crash(n, e, writes, keeps)) && OwnVote(c)
    ensures Ballot(c, n, c.nodes[n], Torn(c.nodes[n], React(c, n, e), writes))
  {
    if !e.StepDown? {
      ReactBallot(c, n, e);
      TornBallot(c, n, c.nodes[n], React(c, n, e), writes);
    }
  }

  // ----- every step keeps the invariant ----------------------------------------

  ghost predicate ElectionsKept(c: Cluster, c': Cluster) {
    forall u :: u in c.elections ==> u in c'.elections && c'.elections[u] == c.elections[u]
  }

  lemma WithdrewStable(c: Cluster, c': Cluster, n: NodeId, v: NodeId, t: nat)
    requires BallotStep(c, c', n) && Withdrew(c, v, t)
    requires ElectionsKept(c, c')
    requires v in c.nodes && c.nodes[v].currentTerm >= t
    ensures Withdrew(c', v, t)
  {
  }

  lemma ElectionsStable(c: Cluster, c': Cluster, n: NodeId)
    requires ElectionInv(c) && BallotStep(c, c', n)
    ensures ElectionsKept(c, c')
    ensures Wins(c, c', n) ==> c.nodes[n].currentTerm !in c.elections
  {
    if Wins(c, c', n) {
      var e := c'.elections[c.nodes[n].currentTerm];
      FirstWinner(c, n, e.vote, e.voterLogs);
    }
  }

  lemma VotesRememberedKept(c: Cluster, c': Cluster, n: NodeId)
    requires ElectionInv(c) && BallotStep(c, c', n)
    requires ElectionsKept(c, c')
    ensures VotesRemembered(c')
  {
    forall m | m in c'.net && IsGrant(m) && m.voter in c'.nodes && m.vote.term == c'.nodes[m.voter].currentTerm
      ensures || c'.nodes[m.voter].votedFor == Some(m.vote.candidateId)
              || (m.vote.candidateId == m.voter && Withdrew(c', m.voter, m.vote.term))
    {
      if m in c.net && m.vote.candidateId == m.voter && Withdrew(c, m.voter, m.vote.term) {
        WithdrewStable(c, c', n, m.voter, m.vote.term);
      }
    }
  }

  lemma VotesStayPast(c: Cluster, c': Cluster, n: NodeId)
    requires ElectionInv(c) && BallotStep(c, c', n)
    ensures OwnVote(c') && VotesInPast(c')
  {
  }

  lemma SecondVotesKept(c: Cluster, c': Cluster, n: NodeId)
    requires ElectionInv(c) && BallotStep(c, c', n)
    requires ElectionsKept(c, c')
    requires VotesRemembered(c')
    ensures SecondVotes(c')
  {
    forall m, m' |
      && m in c'.net && m' in c'.net && IsGrant(m) && IsGrant(m')
      && m.voter == m'.voter && m.vote.term == m'.vote.term && m.vote.candidateId != m'.vote.candidateId
      ensures && Withdrew(c', m.voter, m.vote.term)
              && (m.vote.candidateId == m.voter || m'.vote.candidateId == m.voter)
    {
      if m in c.net && m' in c.net {
        WithdrewStable(c, c', n, m.voter, m.vote.term);
      }
    }
  }

  lemma CallsFromLeadersKept(c: Cluster, c': Cluster, n: NodeId)
    requires CallsFromLeaders(c) && LeadersElected(c) && BallotStep(c, c', n)
    requires ElectionsKept(c, c')
    ensures CallsFromLeaders(c')
  {
  }

  lemma LeadersElectedKept(c: Cluster, c': Cluster, n: NodeId)
    requires LeadersElected(c) && BallotStep(c, c', n) && ElectionsKept(c, c')
    ensures LeadersElected(c')
  {
  }

  lemma CandidatesOpenKept(c: Cluster, c': Cluster, n: NodeId)
    requires CandidatesOpen(c) && WinnersReached(c) && BallotStep(c, c', n) && ElectionsKept(c, c')
    requires Wins(c, c', n) ==> c.nodes[n].currentTerm !in c.elections
    ensures CandidatesOpen(c')
  {
  }

  lemma WinnersReachedKept(c: Cluster, c': Cluster, n: NodeId)
    requires WinnersReached(c) && BallotStep(c, c', n) && ElectionsKept(c, c')
    ensures WinnersReached(c')
  {
  }

  lemma WonByQuorumKept(c: Cluster, c': Cluster, n: NodeId)
    requires WonByQuorum(c) && BallotStep(c, c', n)
    ensures WonByQuorum(c')
  {
    assert |c'.nodes| == |c'.nodes.Keys| == |c.nodes.Keys| == |c.nodes|;
  }

  lemma ElectionInvKept(c: Cluster, c': Cluster, n: NodeId)
    requires ElectionInv(c) && BallotStep(c, c', n)
    ensures ElectionInv(c')
  {
    ElectionsStable(c, c', n);
    VotesStayPast(c, c', n);
    VotesRememberedKept(c, c', n);
    SecondVotesKept(c, c', n);
    CallsFromLeadersKept(c, c', n);
    LeadersElectedKept(c, c', n);
    CandidatesOpenKept(c, c', n);
    WinnersReachedKept(c, c', n);
    WonByQuorumKept(c, c', n);
  }

  lemma ElectionInvStep(c: Cluster, step: Step)
    requires ElectionInv(c) && Enabled(c, step.node, step.event) && Steady(c, step)
    ensures ElectionInv(Do(c, step))
  {
    StepIsBallotStep(c, step);
    ElectionInvKept(c, Do(c, step), step.node);
  }

  lemma ElectionInvInit(ids: set<NodeId>)
    ensures ElectionInv(Init(ids))
  {
  }
}
