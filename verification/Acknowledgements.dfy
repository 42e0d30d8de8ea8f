/** Section 5.4 of the Raft paper: an entry that a leader commits by counting
    is in the log of every leader of a later term.  Requests and replies may
    still be delayed and repeated; the run observes NotStale and Truthful. */
module Acknowledgements {
  import opened Types
  import opened RaftSpec
  import opened CommitRule
  import opened Cluster
  import opened Elections
  import opened Logs

  // ----- holding on to acknowledged entries ---------------------------------------

  /** A later leader, of a term up to bound, lacks the first i entries of leader t. */
  ghost predicate Overwritten(h: Hist, t: nat, i: nat, bound: nat)
    requires t in h
  {
    exists u :: u in h && t < u <= bound && !Agree(h[u], h[t], i)
  }

  /** The log has leader t's first i entries unless a later leader lacked them. */
  ghost predicate Held(h: Hist, log: Log, t: nat, i: nat, bound: nat)
    requires t in h
  {
    Agree(log, h[t], i) || Overwritten(h, t, i, bound)
  }

  ghost predicate HeldThrough(h: Hist, log: Log, t: nat, upTo: nat, bound: nat) {
    && t in h && upTo <= |h[t]|
    && forall i: nat :: i <= upTo ==> Held(h, log, t, i, bound)
  }

  /** A leader's log grows at its end, by entries of its own term. */
  ghost predicate HistStep(h: Hist, h': Hist) {
    forall t :: t in h ==> t in h' && (h'[t] == h[t] || IsAppend(h[t], h'[t], t))
  }

  ghost predicate IsAppend(log: Log, log': Log, t: nat) {
    |log'| == |log| + 1 && log' == log + [log'[|log|]] && log'[|log|].term == t
  }

  lemma StillDisagree(h: Hist, h': Hist, t: nat, u: nat, i: nat)
    requires HistStep(h, h') && t in h && u in h && t < u
    requires i <= |h[t]| && TermsWithin(h[t], t) && !Agree(h[u], h[t], i)
    ensures !Agree(h'[u], h'[t], i)
  {
    if i <= |h[u]| {
      var j :| 0 <= j < i && h[u][j] != h[t][j];
      assert h'[u][j] == h[u][j] && h'[t][j] == h[t][j];
    } else if i <= |h'[u]| {
      assert h'[t][|h[u]|] == h[t][|h[u]|];
    }
  }

  lemma HeldGrows(h: Hist, h': Hist, log: Log, t: nat, i: nat, bound: nat, bound': nat)
    requires HistStep(h, h') && t in h && i <= |h[t]| && TermsWithin(h[t], t) && bound <= bound'
    requires Held(h, log, t, i, bound)
    ensures Held(h', log, t, i, bound')
  {
    if Agree(log, h[t], i) {
      assert forall j :: 0 <= j < i ==> h'[t][j] == h[t][j];
    } else {
      var u :| u in h && t < u <= bound && !Agree(h[u], h[t], i);
      StillDisagree(h, h', t, u, i);
    }
  }

  lemma HeldThroughGrows(h: Hist, h': Hist, log: Log, t: nat, upTo: nat, bound: nat, bound': nat)
    requires HistStep(h, h') && t in h && TermsWithin(h[t], t) && bound <= bound'
    requires HeldThrough(h, log, t, upTo, bound)
    ensures HeldThrough(h', log, t, upTo, bound')
  {
    forall i: nat | i <= upTo
      ensures Held(h', log, t, i, bound')
    {
      HeldGrows(h, h', log, t, i, bound, bound');
    }
  }

  // ----- the invariant -------------------------------------------------------------

  ghost predicate AcksValid(c: Cluster) {
    forall a :: a in c.acks ==> a.node in c.nodes && a.term <= c.nodes[a.node].currentTerm
  }

  ghost predicate AcksHeld(c: Cluster) {
    forall a :: a in c.acks && a.node in c.nodes ==>
      HeldThrough(c.hist, c.nodes[a.node].log, a.term, a.upTo, c.nodes[a.node].currentTerm)
  }

  function LastTerm(log: Log): nat { if log == [] then 0 else log[|log| - 1].term }

  /** The voter's check: (index, term) is at least as recent as the end of the log. */
  predicate AtLeast(index: nat, term: nat, log: Log) {
    term > LastTerm(log) || (term == LastTerm(log) && index >= |log|)
  }

  ghost predicate VotesUpToDate(c: Cluster) {
    forall m :: m in c.net && IsGrant(m) ==>
      Matches(c.hist, m.voterLog) && AtLeast(m.vote.lastLogIndex, m.vote.lastLogTerm, m.voterLog)
  }

  /** What a voter had acknowledged in earlier terms was in its log when it voted. */
  ghost predicate VotesCarry(c: Cluster) {
    forall m, a :: m in c.net && IsGrant(m) && a in c.acks && a.node == m.voter && a.term < m.vote.term ==>
      HeldThrough(c.hist, m.voterLog, a.term, a.upTo, m.vote.term)
  }

  ghost predicate CandidateLogs(c: Cluster) {
    forall m :: m in c.net && m.VoteCall? ==>
      && m.vote.candidateId in c.nodes
      && var s := c.nodes[m.vote.candidateId];
         && m.vote.term <= s.currentTerm
         && (m.vote.term == s.currentTerm && s.role == Candidate ==>
               m.vote.lastLogIndex == |s.log| && m.vote.lastLogTerm == LastTerm(s.log))
  }

  ghost predicate ElectionLog(c: Cluster, t: nat)
    requires t in c.elections
  {
    && t in c.hist && t >= 1
    && c.elections[t].log <= c.hist[t] && Matches(c.hist, c.elections[t].log)
    && TermsWithin(c.elections[t].log, t - 1)
  }

  ghost predicate ElectionLogs(c: Cluster) {
    forall t :: t in c.elections ==> ElectionLog(c, t)
  }

  ghost predicate ElectionVoters(c: Cluster) {
    forall t, v :: t in c.elections && v in c.elections[t].voterLogs ==>
      && Matches(c.hist, c.elections[t].voterLogs[v])
      && AtLeast(|c.elections[t].log|, LastTerm(c.elections[t].log), c.elections[t].voterLogs[v])
  }

  /** What the voter had acknowledged before term t, it held when it voted in t. */
  ghost predicate CarriedTo(c: Cluster, t: nat, a: Ack) {
    t in c.elections && a in c.acks && a.node in c.elections[t].voterLogs && a.term < t ==>
      HeldThrough(c.hist, c.elections[t].voterLogs[a.node], a.term, a.upTo, t - 1)
  }

  ghost predicate ElectionsCarry(c: Cluster) {
    forall t, a :: CarriedTo(c, t, a)
  }

  ghost predicate StrictCalls(c: Cluster) {
    forall m :: m in c.net && m.AppendCall? ==> FromHist(c.hist, m.append)
  }

  ghost predicate RepliesFromPeers(c: Cluster) {
    forall m :: m in c.net && m.AppendReply? ==>
      m.follower in c.nodes && m.follower != m.append.leaderId
  }

  /** The leader's bookkeeping is backed by acknowledgements. */
  ghost predicate Backed(c: Cluster, n: NodeId)
    requires n in c.nodes
  {
    var s := c.nodes[n];
    && s.matchIndex.Keys == c.nodes.Keys - {n}
    && Ack(n, s.currentTerm, |s.log|) in c.acks
    && (forall p :: p in s.nextIndex ==> s.nextIndex[p] <= |s.log| + 1)
    && (forall p :: p in s.matchIndex && s.matchIndex[p] > 0 ==> Acked(c, p, s.currentTerm, s.matchIndex[p]))
  }

  ghost predicate LeadersBacked(c: Cluster) {
    forall n :: n in c.nodes && c.nodes[n].role == Leader ==> Backed(c, n)
  }

  ghost predicate OrderInv(c: Cluster) {
    && AcksValid(c) && AcksHeld(c)
    && VotesUpToDate(c) && VotesCarry(c) && CandidateLogs(c)
    && ElectionLogs(c) && ElectionVoters(c) && ElectionsCarry(c)
    && StrictCalls(c) && RepliesFromPeers(c) && LeadersBacked(c)
  }

  // ----- the theorem, in any state that satisfies the invariant --------------------

  /** Index i of leader t is held by enough nodes, and is an entry of term t. */
  ghost predicate Counted(c: Cluster, t: nat, i: nat, holders: set<NodeId>) {
    && t in c.hist && 1 <= i <= |c.hist[t]| && c.hist[t][i - 1].term == t
    && holders <= c.nodes.Keys && |holders| >= CommitQuorum(|c.nodes|)
    && forall f :: f in holders ==> Acked(c, f, t, i)
  }

  /** A log at least as recent as one that has leader t's first i entries has them too. */
  lemma RecentHas(h: Hist, log: Log, vlog: Log, t: nat, i: nat)
    requires Matches(h, log) && Matches(h, vlog) && IsHistory(h, t)
    requires 1 <= i <= |h[t]| && h[t][i - 1].term == t && Agree(vlog, h[t], i)
    requires IsHistory(h, LastTerm(vlog)) && AtLeast(|log|, LastTerm(log), vlog)
    requires forall u :: u in h && t < u <= LastTerm(log) ==> Agree(h[u], h[t], i)
    ensures Agree(log, h[t], i)
  {
    var s, u := LastTerm(vlog), LastTerm(log);
    assert Agree(vlog, h[s], |vlog|);
    assert vlog[i - 1] == h[t][i - 1] && vlog[i - 1] == h[s][i - 1];
    assert t <= s;
    assert log[|log| - 1].term == u;
    assert Agree(log, h[u], |log|);
    if u != s {
      assert Agree(h[u], h[t], i);
    }
  }

  /** What the argument needs of the invariants. */
  ghost predicate ElectionsSound(c: Cluster) {
    && WonByQuorum(c) && HistMatch(c.hist) && c.hist.Keys == c.elections.Keys
    && ElectionLogs(c) && ElectionVoters(c) && ElectionsCarry(c)
  }

  /** LEADER COMPLETENESS, state form. */
  lemma {:induction false} CountedIsInLater(c: Cluster, t: nat, i: nat, holders: set<NodeId>, u: nat)
    requires ElectionsSound(c)
    requires Counted(c, t, i, holders) && u in c.hist && u > t
    ensures Agree(c.hist[u], c.hist[t], i)
    decreases u
  {
    var e := c.elections[u];
    forall w | w in c.hist && t < w < u
      ensures Agree(c.hist[w], c.hist[t], i)
    {
      CountedIsInLater(c, t, i, holders, w);
    }
    assert |c.nodes.Keys| == |c.nodes|;
    var v := QuorumsMeet(c.nodes.Keys, e.voterLogs.Keys, holders);
    VoterHas(c, t, i, u, v);
    LaterHas(c, t, i, u, v);
  }

  /** The voter in both quorums still had the entry when it voted. */
  lemma VoterHas(c: Cluster, t: nat, i: nat, u: nat, v: NodeId)
    requires ElectionsCarry(c) && t in c.hist && u in c.elections && u > t && i <= |c.hist[t]|
    requires v in c.elections[u].voterLogs
    requires Acked(c, v, t, i)
    requires forall w :: w in c.hist && t < w < u ==> Agree(c.hist[w], c.hist[t], i)
    ensures Agree(c.elections[u].voterLogs[v], c.hist[t], i)
  {
    var a :| a in c.acks && a.node == v && a.term == t && a.upTo >= i;
    assert CarriedTo(c, u, a);
    assert Held(c.hist, c.elections[u].voterLogs[v], t, i, u - 1);
  }

  lemma LaterHas(c: Cluster, t: nat, i: nat, u: nat, v: NodeId)
    requires HistMatch(c.hist) && ElectionLogs(c) && ElectionVoters(c)
    requires t in c.hist && u in c.elections && v in c.elections[u].voterLogs && u > t
    requires 1 <= i <= |c.hist[t]| && c.hist[t][i - 1].term == t
    requires Agree(c.elections[u].voterLogs[v], c.hist[t], i)
    requires forall w :: w in c.hist && t < w < u ==> Agree(c.hist[w], c.hist[t], i)
    ensures Agree(c.hist[u], c.hist[t], i)
  {
    var log, vlog := c.elections[u].log, c.elections[u].voterLogs[v];
    assert vlog[|vlog| - 1].term in c.hist;
    assert IsHistory(c.hist, LastTerm(vlog)) && IsHistory(c.hist, t);
    assert LastTerm(log) <= u - 1;
    RecentHas(c.hist, log, vlog, t, i);
  }

  // ----- the step of one node, as far as acknowledgements can tell -------------------

  /** What n's log shared with a leader of a term it has reached, it still
      shares, unless a later leader lacked it. */
  ghost predicate Kept(h: Hist, s: NodeState, s': NodeState) {
    forall t, i: nat :: t in h && t <= s.currentTerm && i <= |h[t]| && Agree(s.log, h[t], i) ==>
      Held(h, s'.log, t, i, s'.currentTerm)
  }

  ghost predicate OrderStep(c: Cluster, c': Cluster, n: NodeId) {
    && n in c.nodes && n in c'.nodes
    && HistStep(c.hist, c'.hist)
    && Kept(c.hist, c.nodes[n], c'.nodes[n])
    && NewAcksHeld(c, c', n)
    && NewVotes(c, c', n)
    && (c'.nodes[n].role == Candidate && c'.nodes[n].currentTerm == c.nodes[n].currentTerm ==>
          c.nodes[n].role == Candidate && c'.nodes[n].log == c.nodes[n].log)
    && (forall m :: m in c'.net && m !in c.net && m.AppendCall? ==> FromHist(c.hist, m.append))
    && (forall m :: m in c'.net && m !in c.net && m.AppendReply? ==> m.follower == n && n != m.append.leaderId)
    && (c'.nodes[n].role == Leader ==> Backed(c', n))
  }

  ghost predicate NewAcksHeld(c: Cluster, c': Cluster, n: NodeId)
    requires n in c.nodes && n in c'.nodes
  {
    && c.acks <= c'.acks
    && forall a :: a in c'.acks && a !in c.acks ==>
         && a.node == n && a.term == c'.nodes[n].currentTerm
         && a.term in c'.hist && Agree(c'.nodes[n].log, c'.hist[a.term], a.upTo)
  }

  ghost predicate NewVotes(c: Cluster, c': Cluster, n: NodeId)
    requires n in c.nodes && n in c'.nodes
  {
    && (forall m :: m in c'.net && m !in c.net && IsGrant(m) ==>
          m.voterLog == c.nodes[n].log && AtLeast(m.vote.lastLogIndex, m.vote.lastLogTerm, m.voterLog))
    && (forall m :: m in c'.net && m !in c.net && m.VoteCall? ==>
          && m.vote.candidateId == n && m.vote.term == c'.nodes[n].currentTerm
          && m.vote.lastLogIndex == |c'.nodes[n].log| && m.vote.lastLogTerm == LastTerm(c'.nodes[n].log))
  }

  lemma SameLogKept(h: Hist, s: NodeState, s': NodeState)
    requires s.log <= s'.log
    ensures Kept(h, s, s')
  {
  }

  /** Handling a request that is not stale keeps what log and sender share. */
  lemma TakeKeeps(h: Hist, s: NodeState, req: AppendRequest, s': NodeState, r: AppendResponse, t: nat, i: nat)
    requires FromHist(h, req) && Outcome(h, s, req, s', r)
    requires t in h && t <= s.currentTerm && i <= |h[t]| && Agree(s.log, h[t], i)
    requires
      || !r.success || req.entries == [] || req.Covers() >= |s.log| || req.Covers() >= |h[req.term]|
      || s.log[req.Covers()].term != h[req.term][req.Covers()].term
    ensures Held(h, s'.log, t, i, s'.currentTerm)
  {
    if s'.log != s.log {
      var u := req.term;
      if !Agree(h[u], h[t], i) {
        assert t < u;
      } else if !r.success {
        assert i < req.prevLogIndex;
      } else {
        assert i <= req.Covers();
      }
    }
  }

  lemma TakeAppendKept(c: Cluster, n: NodeId, append: AppendRequest)
    requires LogInv(c) && StrictCalls(c) && Enabled(c, n, TakeAppend(append)) && NotStale(c, n, TakeAppend(append))
    ensures Outcome(c.hist, c.nodes[n], append,
                    HandleAppendEntries(c.nodes[n], append).0, HandleAppendEntries(c.nodes[n], append).1)
    ensures Kept(c.hist, c.nodes[n], HandleAppendEntries(c.nodes[n], append).0)
  {
    var s := c.nodes[n];
    var m := AppendCall(n, append);
    assert m in c.net && m.AppendCall?;
    assert GoodLog(c.hist, s);
    CallIsFromHistory(c, n, append);
    AppendOutcome(c.hist, s, append);
    AcceptsExact(s, append);
    forall t, i: nat | t in c.hist && t <= s.currentTerm && i <= |c.hist[t]| && Agree(s.log, c.hist[t], i)
      ensures Held(c.hist, HandleAppendEntries(s, append).0.log, t, i, HandleAppendEntries(s, append).0.currentTerm)
    {
      TakeKeeps(c.hist, s, append, HandleAppendEntries(s, append).0, HandleAppendEntries(s, append).1, t, i);
    }
  }

  lemma HistStepOf(c: Cluster, n: NodeId, e: Event)
    requires LogInv(c) && Enabled(c, n, e) && (e.Win? ==> c.nodes[n].currentTerm !in c.elections)
    ensures HistStep(c.hist, NewHist(c, n, e))
  {
    assert GoodLog(c.hist, c.nodes[n]);
    if e.Propose? {
      assert IsAppend(c.nodes[n].log, React(c, n, e).log, c.nodes[n].currentTerm);
    }
  }

  lemma TimeoutOrderStep(c: Cluster, n: NodeId)
    requires LogInv(c) && n in c.nodes
    ensures OrderStep(c, Handle(c, n, Timeout), n)
  {
    assert GoodLog(c.hist, c.nodes[n]);
    SameLogKept(c.hist, c.nodes[n], React(c, n, Timeout));
  }

  lemma VoteHandlerLog(s: NodeState, vote: VoteRequest)
    requires Plain(s)
    ensures var (s', r) := HandleRequestVote(s, vote);
            && s'.log == s.log
            && (s'.role != Follower ==> s' == s.(votedFor := s'.votedFor))
            && (r.voteGranted ==> AtLeast(vote.lastLogIndex, vote.lastLogTerm, s.log))
  {
  }

  lemma AnswerVoteOrderStep(c: Cluster, n: NodeId, vote: VoteRequest)
    requires LogInv(c) && n in c.nodes
    requires c.nodes[n].role == Leader ==> Backed(c, n)
    ensures OrderStep(c, Handle(c, n, AnswerVote(vote)), n)
  {
    assert GoodLog(c.hist, c.nodes[n]);
    VoteHandlerLog(c.nodes[n], vote);
    SameLogKept(c.hist, c.nodes[n], React(c, n, AnswerVote(vote)));
  }

  lemma WinOrderStep(c: Cluster, n: NodeId, e: Event)
    requires LogInv(c) && Enabled(c, n, e) && e.Win? && c.nodes[n].currentTerm !in c.elections
    ensures OrderStep(c, Handle(c, n, e), n)
  {
    HistStepOf(c, n, e);
    ElectedShape(c, n, e.vote, e.voterLogs);
    ElectedOrderStep(c, Handle(c, n, e), n, |e.voterLogs.Keys|);
  }

  lemma ElectedOrderStep(c: Cluster, c': Cluster, n: NodeId, votes: nat)
    requires LogInv(c) && n in c.nodes && HistStep(c.hist, c'.hist)
    requires c'.hist == c.hist[c.nodes[n].currentTerm := c.nodes[n].log] && c'.net == c.net
    requires c'.nodes == c.nodes[n := c.nodes[n].(votesReceived := votes).BecomeLeader(n, c.nodes.Keys - {n})]
    requires c'.acks == c.acks + {Ack(n, c.nodes[n].currentTerm, |c.nodes[n].log|)}
    ensures OrderStep(c, c', n)
  {
    assert GoodLog(c.hist, c.nodes[n]);
    SameLogKept(c.hist, c.nodes[n], c'.nodes[n]);
  }

  lemma StepDownOrderStep(c: Cluster, n: NodeId, e: Event)
    requires LogInv(c) && Enabled(c, n, e) && e.StepDown?
    ensures OrderStep(c, Handle(c, n, e), n)
  {
    SameLogKept(c.hist, c.nodes[n], React(c, n, e));
  }

  lemma ProposeOrderStep(c: Cluster, n: NodeId, e: Event)
    requires LogInv(c) && Enabled(c, n, e) && e.Propose? && Backed(c, n)
    ensures OrderStep(c, Handle(c, n, e), n)
  {
    var c' := Handle(c, n, e);
    HistStepOf(c, n, e);
    assert GoodLog(c.hist, c.nodes[n]);
    SameLogKept(c.hist, c.nodes[n], c'.nodes[n]);
  }

  lemma SendOrderStep(c: Cluster, n: NodeId, e: Event)
    requires LogInv(c) && Enabled(c, n, e) && (e.Replicate? || e.Beat?) && Backed(c, n)
    ensures OrderStep(c, Handle(c, n, e), n)
  {
    var s := c.nodes[n];
    assert GoodLog(c.hist, s);
    SameLogKept(c.hist, s, s);
    if e.Replicate? {
      ReplicationQuotes(c.hist, s, n, e.peer);
    }
  }

  /** What taking a request does to the cluster. */
  lemma Taken(c: Cluster, n: NodeId, append: AppendRequest)
    requires n in c.nodes
    ensures var c', (s', r) := Handle(c, n, TakeAppend(append)), HandleAppendEntries(c.nodes[n], append);
            && c'.nodes == c.nodes[n := s'] && c'.hist == c.hist && c'.net == c.net + {AppendReply(n, append, r)}
            && c'.acks == if r.success && SharesThrough(c.hist, append.term, s'.log, r.matchIndex)
                          then c.acks + {Ack(n, append.term, r.matchIndex)} else c.acks
  {
  }

  lemma TakenOrderStep(c: Cluster, c': Cluster, n: NodeId, append: AppendRequest, s': NodeState, r: AppendResponse)
    requires n in c.nodes && Outcome(c.hist, c.nodes[n], append, s', r) && Kept(c.hist, c.nodes[n], s')
    requires append.leaderId != n && (c.nodes[n].role == Leader ==> Backed(c, n))
    requires c'.nodes == c.nodes[n := s'] && c'.hist == c.hist && c'.net == c.net + {AppendReply(n, append, r)}
    requires c'.acks == if r.success && SharesThrough(c.hist, append.term, s'.log, r.matchIndex)
                        then c.acks + {Ack(n, append.term, r.matchIndex)} else c.acks
    ensures OrderStep(c, c', n)
  {
    if r.success && SharesThrough(c.hist, append.term, s'.log, r.matchIndex) {
      SharedAgrees(c.hist, append.term, s'.log, r.matchIndex);
    }
  }

  lemma SharedAgrees(h: Hist, t: nat, log: Log, m: nat)
    requires SharesThrough(h, t, log, m)
    ensures Agree(log, h[t], m)
  {
    forall j | 0 <= j < m ensures log[j] == h[t][j] {
      assert log[j] == log[..m][j] && h[t][j] == h[t][..m][j];
    }
  }

  lemma TakeAppendOrderStep(c: Cluster, n: NodeId, e: Event)
    requires LogInv(c) && StrictCalls(c) && CallsFromLeaders(c)
    requires Enabled(c, n, e) && e.TakeAppend? && NotStale(c, n, e)
    requires c.nodes[n].role == Leader ==> Backed(c, n)
    ensures OrderStep(c, Handle(c, n, e), n)
  {
    var (s', r) := HandleAppendEntries(c.nodes[n], e.append);
    assert Outcome(c.hist, c.nodes[n], e.append, s', r) && Kept(c.hist, c.nodes[n], s') by {
      TakeAppendKept(c, n, e.append);
    }
    assert e.append.leaderId != n by {
      var m := AppendCall(n, e.append);
      assert m in c.net && m.AppendCall?;
    }
    Taken(c, n, e.append);
    TakenOrderStep(c, Handle(c, n, e), n, e.append, s', r);
  }

  lemma ReplyKeepsBacking(c: Cluster, n: NodeId, e: Event)
    requires n in c.nodes && Plain(c.nodes[n]) && e.TakeReply? && Truthful(c, n, e)
    requires c.nodes[n].role == Leader ==> Backed(c, n)
    requires e.follower in c.nodes && e.follower != n
    requires Enters(c, n, e) ==> e.result.matchIndex <= |c.nodes[n].log|
    ensures var s' := HandleAppendReply(c.nodes[n], e.follower, e.result);
            && s'.log == c.nodes[n].log
            && (s'.role != Follower ==> s'.role == c.nodes[n].role && s'.currentTerm == c.nodes[n].currentTerm)
            && (s'.role == Leader ==> Backed(c.(nodes := c.nodes[n := s']), n))
  {
    var s, r := c.nodes[n], e.result;
    if r.term <= s.currentTerm && s.role == Leader && r.success {
      assert Backed(c.(nodes := c.nodes[n := RecordMatch(s, e.follower, r.matchIndex)]), n);
    }
  }

  lemma TakeReplyOrderStep(c: Cluster, n: NodeId, e: Event)
    requires LogInv(c) && RepliesFromPeers(c) && AcksHeld(c) && Enabled(c, n, e) && e.TakeReply? && Truthful(c, n, e)
    requires c.nodes[n].role == Leader ==> Backed(c, n)
    ensures OrderStep(c, Handle(c, n, e), n)
  {
    var c' := Handle(c, n, e);
    assert GoodLog(c.hist, c.nodes[n]);
    var m := AppendReply(e.follower, e.append, e.result);
    assert m in c.net && m.AppendReply?;
    if c.nodes[n].role == Leader && e.result.success {
      if e.result.term <= c.nodes[n].currentTerm && e.result.matchIndex > 0 {
        var a :| && a in c.acks && a.node == e.follower && a.term == c.nodes[n].currentTerm
                 && a.upTo >= e.result.matchIndex;
      }
    }
    ReplyKeepsBacking(c, n, e);
    SameLogKept(c.hist, c.nodes[n], c'.nodes[n]);
  }

  lemma CrashOrderStep(c: Cluster, n: NodeId, e: Event, writes: nat, keeps: nat)
    requires n in c.nodes
    ensures OrderStep(c, Do(c, Crash(n, e, writes, keeps)), n)
  {
    SameLogKept(c.hist, c.nodes[n], Torn(c.nodes[n], React(c, n, e), writes));
  }

  lemma StepIsOrderStep(c: Cluster, step: Step)
    requires ElectionInv(c) && LogInv(c) && OrderInv(c)
    requires Allowed(c, step, InOrder)
    ensures OrderStep(c, Do(c, step), step.node)
  {
    var n, e := step.node, step.event;
    if step.Crash? {
      CrashOrderStep(c, n, e, step.writes, step.keeps);
    } else if e.Timeout? || e.AnswerVote? || e.Win? || e.StepDown? {
      VotingOrderStep(c, n, e);
    } else {
      ReplicatingOrderStep(c, n, e);
    }
  }

  lemma VotingOrderStep(c: Cluster, n: NodeId, e: Event)
    requires ElectionInv(c) && LogInv(c) && OrderInv(c) && Allowed(c, Run(n, e), InOrder)
    requires e.Timeout? || e.AnswerVote? || e.Win? || e.StepDown?
    ensures OrderStep(c, Handle(c, n, e), n)
  {
    match e
    case Timeout => TimeoutOrderStep(c, n);
    case AnswerVote(vote) => AnswerVoteOrderStep(c, n, vote);
    case Win(_, _) => OwnTerm(c, n, e); WinOrderStep(c, n, e);
    case StepDown(_) => StepDownOrderStep(c, n, e);
  }

  lemma ReplicatingOrderStep(c: Cluster, n: NodeId, e: Event)
    requires ElectionInv(c) && LogInv(c) && OrderInv(c) && Allowed(c, Run(n, e), InOrder)
    requires e.Propose? || e.Replicate? || e.Beat? || e.TakeAppend? || e.TakeReply?
    ensures OrderStep(c, Handle(c, n, e), n)
  {
    match e
    case Propose(_) => ProposeOrderStep(c, n, e);
    case Replicate(_) => SendOrderStep(c, n, e);
    case Beat(_) => SendOrderStep(c, n, e);
    case TakeAppend(_) => TakeAppendOrderStep(c, n, e);
    case TakeReply(_, _, _) => TakeReplyOrderStep(c, n, e);
  }

  // ----- every step keeps the invariant ---------------------------------------------

  lemma AcksHeldKept(c: Cluster, c': Cluster, n: NodeId)
    requires LogInv(c) && AcksValid(c) && AcksHeld(c) && LogStep(c, c', n) && OrderStep(c, c', n)
    requires c'.nodes[n].currentTerm >= c.nodes[n].currentTerm
    ensures AcksValid(c') && AcksHeld(c')
  {
    forall a | a in c'.acks && a.node in c'.nodes
      ensures HeldThrough(c'.hist, c'.nodes[a.node].log, a.term, a.upTo, c'.nodes[a.node].currentTerm)
    {
      if a in c.acks {
        AckHeldKept(c, c', n, a);
      } else {
        assert forall i: nat :: i <= a.upTo ==> Held(c'.hist, c'.nodes[n].log, a.term, i, c'.nodes[n].currentTerm);
      }
    }
  }

  lemma AckHeldKept(c: Cluster, c': Cluster, n: NodeId, a: Ack)
    requires LogInv(c) && LogStep(c, c', n) && OrderStep(c, c', n)
    requires c'.nodes[n].currentTerm >= c.nodes[n].currentTerm
    requires a in c.acks && a.node in c.nodes && a.term <= c.nodes[a.node].currentTerm
    requires HeldThrough(c.hist, c.nodes[a.node].log, a.term, a.upTo, c.nodes[a.node].currentTerm)
    ensures HeldThrough(c'.hist, c'.nodes[a.node].log, a.term, a.upTo, c'.nodes[a.node].currentTerm)
  {
    var f := a.node;
    var s, s' := c.nodes[f], c'.nodes[f];
    assert IsHistory(c.hist, a.term);
    assert HeldThrough(c.hist, s'.log, a.term, a.upTo, s'.currentTerm) by {
      forall i: nat | i <= a.upTo
        ensures Held(c.hist, s'.log, a.term, i, s'.currentTerm)
      {
        assert Held(c.hist, s.log, a.term, i, s.currentTerm);
      }
    }
    HeldThroughGrows(c.hist, c'.hist, s'.log, a.term, a.upTo, s'.currentTerm, s'.currentTerm);
  }

  lemma VotesUpToDateKept(c: Cluster, c': Cluster, n: NodeId)
    requires LogInv(c) && VotesUpToDate(c) && LogStep(c, c', n) && OrderStep(c, c', n)
    ensures VotesUpToDate(c')
  {
    forall m | m in c'.net && IsGrant(m)
      ensures Matches(c'.hist, m.voterLog) && AtLeast(m.vote.lastLogIndex, m.vote.lastLogTerm, m.voterLog)
    {
      assert GoodLog(c.hist, c.nodes[n]);
      MatchesGrows(c.hist, c'.hist, m.voterLog);
    }
  }

  lemma VotesCarryKept(c: Cluster, c': Cluster, n: NodeId)
    requires LogInv(c) && VotesInPast(c') && VotesCarry(c) && AcksValid(c) && AcksHeld(c)
    requires BallotStep(c, c', n) && OrderStep(c, c', n)
    ensures VotesCarry(c')
  {
    forall m, a | m in c'.net && IsGrant(m) && a in c'.acks && a.node == m.voter && a.term < m.vote.term
      ensures HeldThrough(c'.hist, m.voterLog, a.term, a.upTo, m.vote.term)
    {
      assert m.vote.term <= c'.nodes[m.voter].currentTerm;
      assert a in c.acks;
      if m in c.net {
        assert HeldThrough(c.hist, m.voterLog, a.term, a.upTo, m.vote.term);
        assert IsHistory(c.hist, a.term);
        HeldThroughGrows(c.hist, c'.hist, m.voterLog, a.term, a.upTo, m.vote.term, m.vote.term);
      } else {
        var s := c.nodes[n];
        assert HeldThrough(c.hist, s.log, a.term, a.upTo, s.currentTerm);
        assert IsHistory(c.hist, a.term);
        HeldThroughGrows(c.hist, c'.hist, s.log, a.term, a.upTo, s.currentTerm, m.vote.term);
      }
    }
  }

  lemma CandidateLogsKept(c: Cluster, c': Cluster, n: NodeId)
    requires CandidateLogs(c) && BallotStep(c, c', n) && OrderStep(c, c', n)
    ensures CandidateLogs(c')
  {
  }

  lemma WinnerLog(c: Cluster, c': Cluster, n: NodeId)
    requires LogInv(c) && LogStep(c, c', n) && Wins(c, c', n) && c.nodes[n].currentTerm !in c.elections
    requires c'.nodes[n].currentTerm == c.nodes[n].currentTerm
    ensures ElectionLog(c', c.nodes[n].currentTerm)
  {
    var s := c.nodes[n];
    assert GoodLog(c.hist, s) && GoodLog(c'.hist, c'.nodes[n]);
    MatchesGrows(c.hist, c'.hist, s.log);
    WithinEarlier(c.hist, s.log, s.currentTerm);
  }

  /** A log without entries of term t, of which there is no history, is of earlier terms. */
  lemma WithinEarlier(h: Hist, log: Log, t: nat)
    requires Matches(h, log) && TermsWithin(log, t) && t !in h && t >= 1
    ensures TermsWithin(log, t - 1)
  {
  }

  lemma ElectionLogsKept(c: Cluster, c': Cluster, n: NodeId)
    requires LogInv(c) && ElectionLogs(c) && LogStep(c, c', n) && ElectionsKept(c, c')
    requires c'.elections == c.elections || Wins(c, c', n)
    requires Wins(c, c', n) ==> ElectionLog(c', c.nodes[n].currentTerm)
    ensures ElectionLogs(c')
  {
    forall t | t in c'.elections
      ensures ElectionLog(c', t)
    {
      if t in c.elections {
        assert ElectionLog(c, t);
        MatchesGrows(c.hist, c'.hist, c.elections[t].log);
      }
    }
  }

  lemma ElectionVotersKept(c: Cluster, c': Cluster, n: NodeId)
    requires LogInv(c) && LogStep(c, c', n) && ElectionsKept(c, c')
    requires ElectionVoters(c) && VotesUpToDate(c) && CandidateLogs(c)
    requires c'.elections == c.elections || Wins(c, c', n)
    ensures ElectionVoters(c')
  {
    forall t, v | t in c'.elections && v in c'.elections[t].voterLogs
      ensures && Matches(c'.hist, c'.elections[t].voterLogs[v])
              && AtLeast(|c'.elections[t].log|, LastTerm(c'.elections[t].log), c'.elections[t].voterLogs[v])
    {
      var e := c'.elections[t];
      if t !in c.elections {
        var m := VoteReply(v, e.vote, VoteResponse(e.vote.term, true), e.voterLogs[v]);
        assert m in c.net && IsGrant(m);
        var m' := VoteCall(e.vote);
        assert m' in c.net && m'.VoteCall?;
      }
      MatchesGrows(c.hist, c'.hist, e.voterLogs[v]);
    }
  }

  lemma ElectionsCarryKept(c: Cluster, c': Cluster, n: NodeId)
    requires HistMatch(c.hist) && HistStep(c.hist, c'.hist) && ElectionsKept(c, c')
    requires n in c.nodes && n in c'.nodes && NewAcksHeld(c, c', n)
    requires ElectionsCarry(c) && VotesCarry(c) && VotesInPast(c') && WonByQuorum(c')
    requires c'.elections == c.elections || (Wins(c, c', n) && c.nodes[n].currentTerm !in c.hist)
    ensures ElectionsCarry(c')
  {
    forall t, a
      ensures CarriedTo(c', t, a)
    {
      if t in c'.elections && a in c'.acks && a.node in c'.elections[t].voterLogs && a.term < t {
        OldAck(c, c', n, t, a);
        CarriedByVoter(c, c', n, t, a);
      }
    }
  }

  /** Voters of term t acknowledge no more entries of earlier leaders. */
  lemma OldAck(c: Cluster, c': Cluster, n: NodeId, t: nat, a: Ack)
    requires n in c.nodes && n in c'.nodes && NewAcksHeld(c, c', n)
    requires VotesInPast(c') && WonByQuorum(c')
    requires t in c'.elections && a in c'.acks && a.node in c'.elections[t].voterLogs && a.term < t
    ensures a in c.acks
  {
    VoterReached(c', t, a.node);
  }

  lemma VoterReached(c: Cluster, t: nat, v: NodeId)
    requires VotesInPast(c) && WonByQuorum(c) && t in c.elections && v in c.elections[t].voterLogs
    ensures v in c.nodes && c.nodes[v].currentTerm >= t
  {
    var e := c.elections[t];
    var m := VoteReply(v, e.vote, VoteResponse(t, true), e.voterLogs[v]);
    assert m in c.net && IsGrant(m);
  }

  lemma CarriedByVoter(c: Cluster, c': Cluster, n: NodeId, t: nat, a: Ack)
    requires HistMatch(c.hist) && HistStep(c.hist, c'.hist) && ElectionsKept(c, c')
    requires ElectionsCarry(c) && VotesCarry(c)
    requires c'.elections == c.elections || (Wins(c, c', n) && c.nodes[n].currentTerm !in c.hist)
    requires t in c'.elections && a in c.acks && a.node in c'.elections[t].voterLogs && a.term < t
    ensures HeldThrough(c'.hist, c'.elections[t].voterLogs[a.node], a.term, a.upTo, t - 1)
  {
    var e := c'.elections[t];
    var vlog := e.voterLogs[a.node];
    assert CarriedTo(c, t, a);
    if t !in c.elections {
      var m := VoteReply(a.node, e.vote, VoteResponse(e.vote.term, true), vlog);
      assert m in c.net && IsGrant(m);
      HeldBefore(c.hist, vlog, a.term, a.upTo, t);
    }
    assert HeldThrough(c.hist, vlog, a.term, a.upTo, t - 1);
    assert IsHistory(c.hist, a.term);
    HeldThroughGrows(c.hist, c'.hist, vlog, a.term, a.upTo, t - 1, t - 1);
  }

  lemma HeldBefore(h: Hist, log: Log, t: nat, upTo: nat, bound: nat)
    requires HeldThrough(h, log, t, upTo, bound) && bound !in h && bound > 0
    ensures HeldThrough(h, log, t, upTo, bound - 1)
  {
    var b: nat := bound - 1;
    forall i: nat | i <= upTo
      ensures Held(h, log, t, i, b)
    {
      assert Held(h, log, t, i, bound);
    }
  }

  lemma StrictCallsKept(c: Cluster, c': Cluster, n: NodeId)
    requires StrictCalls(c) && RepliesFromPeers(c) && LogStep(c, c', n) && OrderStep(c, c', n)
    ensures StrictCalls(c') && RepliesFromPeers(c')
  {
    forall m | m in c'.net && m.AppendCall?
      ensures FromHist(c'.hist, m.append)
    {
      FromHistGrows(c.hist, c'.hist, m.append);
    }
  }

  lemma LeadersBackedKept(c: Cluster, c': Cluster, n: NodeId)
    requires LeadersBacked(c) && LogStep(c, c', n) && OrderStep(c, c', n)
    ensures LeadersBacked(c')
  {
    forall k | k in c'.nodes && c'.nodes[k].role == Leader
      ensures Backed(c', k)
    {
      if k != n {
        assert Backed(c, k);
      }
    }
  }

  lemma OrderInvStep(c: Cluster, step: Step)
    requires ElectionInv(c) && LogInv(c) && OrderInv(c)
    requires Allowed(c, step, InOrder)
    ensures OrderInv(Do(c, step))
  {
    var n, c' := step.node, Do(c, step);
    StepIsBallotStep(c, step);
    StepIsLogStep(c, step);
    StepIsOrderStep(c, step);
    ElectionsStable(c, c', n);
    ElectionInvStep(c, step);
    OrderInvKept(c, c', n);
  }

  lemma OrderInvKept(c: Cluster, c': Cluster, n: NodeId)
    requires ElectionInv(c) && ElectionInv(c') && LogInv(c) && OrderInv(c)
    requires BallotStep(c, c', n) && LogStep(c, c', n) && OrderStep(c, c', n) && ElectionsKept(c, c')
    requires Wins(c, c', n) ==> c.nodes[n].currentTerm !in c.elections
    ensures OrderInv(c')
  {
    AcksHeldKept(c, c', n);
    VotesUpToDateKept(c, c', n);
    VotesCarryKept(c, c', n);
    CandidateLogsKept(c, c', n);
    if Wins(c, c', n) {
      WinnerLog(c, c', n);
    }
    ElectionLogsKept(c, c', n);
    ElectionVotersKept(c, c', n);
    ElectionsCarryKept(c, c', n);
    StrictCallsKept(c, c', n);
    LeadersBackedKept(c, c', n);
  }

  lemma OrderInvInit(ids: set<NodeId>)
    ensures OrderInv(Init(ids))
  {
  }
}
