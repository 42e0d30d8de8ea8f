/** Where the code does less than the Raft paper, and exactly when that is harmless.
    Each condition that a Discipline adds is matched to the property it protects,
    both ways, and each lower Discipline has a run that breaks the next property. */
module Necessity {
  import opened Types
  import opened RaftSpec
  import opened CommitRule
  import opened Cluster
  import opened Elections
  import opened Logs
  import opened Acknowledgements
  import RaftSafety

  // ----- the conditions are exact -------------------------------------------------------

  /** A step-down opens no vote that the node would have refused, in any term it has
      reached, exactly when it is Monotone. */
  lemma StepDownExact(c: Cluster, n: NodeId, e: Event)
    requires Enabled(c, n, e) && e.StepDown?
    ensures var s, s' := c.nodes[n], React(c, n, e);
            Monotone(c, n, e) <==>
              forall vote: VoteRequest :: vote.term <= s.currentTerm && Grants(s', vote) ==> Grants(s, vote)
  {
    var s, s', t := c.nodes[n], React(c, n, e), SeenTerm(e.seen);
    if !Monotone(c, n, e) {
      var other := if s.votedFor.Some? then s.votedFor.value + 1 else 0;
      var vote := VoteRequest(t, other, s.LastLogIndex(), s.LastLogTerm());
      assert Grants(s', vote) && !Grants(s, vote);
    }
  }

  /** Storing the entries of an accepted request keeps everything the follower
      shares with the sender exactly when the request is not stale. */
  lemma StaleExact(c: Cluster, s: NodeState, req: AppendRequest)
    requires GoodLog(c.hist, s) && IsHistory(c.hist, req.term) && FromHist(c.hist, req) && req.entries != []
    requires HandleAppendEntries(s, req).1.success
    ensures var s', h := HandleAppendEntries(s, req).0, c.hist[req.term];
            !IsStale(c, s, req) <==> (forall i: nat :: Agree(s.log, h, i) ==> Agree(s'.log, h, i))
  {
    var s', h := HandleAppendEntries(s, req).0, c.hist[req.term];
    AppendOutcome(c.hist, s, req);
    var k := req.Covers();
    if IsStale(c, s, req) {
      SameTermAgree(c.hist, s.log, h, k + 1);
      assert !Agree(s'.log, h, k + 1);
    } else {
      forall i: nat | Agree(s.log, h, i)
        ensures Agree(s'.log, h, i)
      {
        assert i <= k;
      }
    }
  }

  /** A log shares its first m entries with a leader exactly when both have an entry of
      the same term there. */
  lemma SharesExact(h: Hist, t: nat, log: Log, m: nat)
    requires Matches(h, log) && IsHistory(h, t)
    ensures SharesThrough(h, t, log, m) <==>
              m == 0 || (m <= |h[t]| && m <= |log| && log[m - 1].term == h[t][m - 1].term)
  {
    if 0 < m <= |h[t]| && m <= |log| {
      if log[m - 1].term == h[t][m - 1].term {
        SameTermAgree(h, log, h[t], m);
      } else if SharesThrough(h, t, log, m) {
        SharedAgrees(h, t, log, m);
      }
    }
  }

  /** The index an accepting follower reports is one it shares with the sender, so that
      counting it is truthful, exactly when both have an entry of the same term there. */
  lemma ReportExact(h: Hist, s: NodeState, req: AppendRequest)
    requires GoodLog(h, s) && IsHistory(h, req.term) && FromHist(h, req)
    requires HandleAppendEntries(s, req).1.success
    ensures var (s', r) := HandleAppendEntries(s, req);
            var m := r.matchIndex;
            SharesThrough(h, req.term, s'.log, m) <==>
              m == 0 || (m <= |h[req.term]| && m <= |s'.log| && s'.log[m - 1].term == h[req.term][m - 1].term)
  {
    var (s', r) := HandleAppendEntries(s, req);
    assert Matches(h, s'.log) by {
      AppendOutcome(h, s, req);
      OutcomeIsGood(h, s, req, s', r);
    }
    SharesExact(h, req.term, s'.log, r.matchIndex);
  }

  /** An accepting follower reports exactly what the request established, and so tells
      the truth, exactly when the request carries entries or stops at the end of its log. */
  lemma ReportsCovered(h: Hist, s: NodeState, req: AppendRequest)
    requires GoodLog(h, s) && IsHistory(h, req.term) && FromHist(h, req)
    requires HandleAppendEntries(s, req).1.success
    ensures var (s', r) := HandleAppendEntries(s, req);
            && (r.matchIndex == req.Covers() <==> req.entries != [] || s.LastLogIndex() == req.prevLogIndex)
            && (r.matchIndex == req.Covers() ==> SharesThrough(h, req.term, s'.log, r.matchIndex))
  {
    AppendOutcome(h, s, req);
  }

  /** A raised commit index covers the sender's own entries exactly when the two
      entries there have the same term; after storing entries they always do. */
  lemma CommitExact(h: Hist, s: NodeState, req: AppendRequest)
    requires GoodLog(h, s) && IsHistory(h, req.term) && FromHist(h, req)
    requires HandleAppendEntries(s, req).0.commitIndex > s.commitIndex
    ensures var s' := HandleAppendEntries(s, req).0;
            var k := s'.commitIndex;
            && k <= |s'.log|
            && (Agree(s'.log, h[req.term], k) <==>
                  k <= |h[req.term]| && s'.log[k - 1].term == h[req.term][k - 1].term)
            && (req.entries != [] ==> Agree(s'.log, h[req.term], k))
  {
    var (s', r) := HandleAppendEntries(s, req);
    AppendOutcome(h, s, req);
    OutcomeIsGood(h, s, req, s', r);
    RaiseWithinLog(s, req);
    var k := s'.commitIndex;
    if k <= |h[req.term]| && s'.log[k - 1].term == h[req.term][k - 1].term {
      SameTermAgree(h, s'.log, h[req.term], k);
    }
  }

  // ----- building runs ---------------------------------------------------------------------

  /** A run under construction; what it is to be a run is closed until asked for. */
  ghost predicate Grown(run: seq<Cluster>, steps: seq<Step>, d: Discipline) {
    && |run| == |steps| + 1
    && forall k: nat :: Asked(k) ==> IsRun(run, steps, d)
  }

  lemma Start(d: Discipline) returns (run: seq<Cluster>, steps: seq<Step>)
    ensures Grown(run, steps, d) && run == [Init({1, 2, 3})] && steps == []
  {
    run, steps := [Init({1, 2, 3})], [];
  }

  lemma Then(run: seq<Cluster>, steps: seq<Step>, d: Discipline, n: NodeId, e: Event)
    returns (run': seq<Cluster>, steps': seq<Step>)
    requires Grown(run, steps, d) && Allowed(run[|run| - 1], Run(n, e), d)
    ensures Grown(run', steps', d) && run'[|run'| - 1] == Handle(run[|run| - 1], n, e)
  {
    assert Asked(0);
    var c, step := Handle(run[|run| - 1], n, e), Run(n, e);
    run', steps' := run + [c], steps + [step];
    assert IsNext(run', steps', d, |steps|);
    Extended(run, steps, d, c, step);
  }

  lemma Extended(run: seq<Cluster>, steps: seq<Step>, d: Discipline, c: Cluster, step: Step)
    requires IsRun(run, steps, d) && IsNext(run + [c], steps + [step], d, |steps|)
    ensures IsRun(run + [c], steps + [step], d)
  {
    var ids :| run[0] == Init(ids);
    assert (run + [c])[0] == Init(ids);
    forall i: nat | i < |steps + [step]|
      ensures IsNext(run + [c], steps + [step], d, i)
    {
      if i < |steps| {
        ExtendedAt(run, steps, d, c, step, i);
      }
    }
  }

  lemma ExtendedAt(run: seq<Cluster>, steps: seq<Step>, d: Discipline, c: Cluster, step: Step, i: nat)
    requires IsRun(run, steps, d) && i < |steps|
    ensures IsNext(run + [c], steps + [step], d, i)
  {
    assert IsNext(run, steps, d, i);
    SameNext(run, steps, run + [c], steps + [step], d, i);
  }

  lemma SameNext(run: seq<Cluster>, steps: seq<Step>, run': seq<Cluster>, steps': seq<Step>, d: Discipline, i: nat)
    requires i + 1 < |run| <= |run'| && i < |steps| <= |steps'| && IsNext(run, steps, d, i)
    requires run'[i] == run[i] && run'[i + 1] == run[i + 1] && steps'[i] == steps[i]
    ensures IsNext(run', steps', d, i)
  {
  }

  /** The cluster after node n has run the handler of e. */
  ghost predicate After(run: seq<Cluster>, steps: seq<Step>, d: Discipline, n: NodeId, s': NodeState,
                        sent: set<Message>, run': seq<Cluster>, steps': seq<Step>)
  {
    && Grown(run, steps, d) && Grown(run', steps', d)
    && var c, c' := run[|run| - 1], run'[|run'| - 1];
       c'.nodes == c.nodes[n := s'] && c'.net == c.net + sent && c.acks <= c'.acks
  }

  lemma TimesOut(run: seq<Cluster>, steps: seq<Step>, d: Discipline, n: NodeId)
    returns (run': seq<Cluster>, steps': seq<Step>)
    requires Grown(run, steps, d) && n in run[|run| - 1].nodes
    ensures var s' := run[|run| - 1].nodes[n].BecomeCandidate(n);
            var vote := Candidacy(s', n);
            After(run, steps, d, n, s',
                  {VoteCall(vote), VoteReply(n, vote, VoteResponse(vote.term, true), s'.log)}, run', steps')
  {
    run', steps' := Then(run, steps, d, n, Timeout);
  }

  lemma Votes(run: seq<Cluster>, steps: seq<Step>, d: Discipline, n: NodeId, vote: VoteRequest)
    returns (run': seq<Cluster>, steps': seq<Step>)
    requires Grown(run, steps, d) && n in run[|run| - 1].nodes
    requires VoteCall(vote) in run[|run| - 1].net && vote.candidateId != n
    ensures var s := run[|run| - 1].nodes[n];
            var (s', r) := HandleRequestVote(s, vote);
            After(run, steps, d, n, s', {VoteReply(n, vote, r, s.log)}, run', steps')
  {
    run', steps' := Then(run, steps, d, n, AnswerVote(vote));
  }

  lemma QuorumOfThree(c: Cluster, n: NodeId, vote: VoteRequest, v: NodeId, log: Log, voterLogs: map<NodeId, Log>)
    requires c.nodes.Keys == {1, 2, 3} && n in c.nodes && v in c.nodes && v != n
    requires voterLogs == map[n := c.nodes[n].log, v := log] && vote.candidateId == n && VoteCall(vote) in c.net
    requires VoteReply(n, vote, VoteResponse(vote.term, true), c.nodes[n].log) in c.net
    requires VoteReply(v, vote, VoteResponse(vote.term, true), log) in c.net
    ensures HasQuorum(c, n, vote, voterLogs) && |voterLogs.Keys| == 2
  {
    assert |c.nodes| == |c.nodes.Keys| == 3;
    assert voterLogs.Keys == {n, v};
  }

  /** Node n wins with its own vote and that of peer v. */
  lemma WinsWith(run: seq<Cluster>, steps: seq<Step>, d: Discipline, n: NodeId, vote: VoteRequest, v: NodeId, log: Log)
    returns (run': seq<Cluster>, steps': seq<Step>)
    requires Grown(run, steps, d)
    requires var c := run[|run| - 1];
             && c.nodes.Keys == {1, 2, 3} && n in c.nodes && v in c.nodes && v != n
             && c.nodes[n].role == Candidate && c.nodes[n].currentTerm == vote.term
             && vote.candidateId == n && VoteCall(vote) in c.net
             && VoteReply(n, vote, VoteResponse(vote.term, true), c.nodes[n].log) in c.net
             && VoteReply(v, vote, VoteResponse(vote.term, true), log) in c.net
    ensures var c := run[|run| - 1];
            var s' := c.nodes[n].(votesReceived := 2).BecomeLeader(n, c.nodes.Keys - {n});
            After(run, steps, d, n, s', {}, run', steps')
  {
    var c := run[|run| - 1];
    var voterLogs := map[n := c.nodes[n].log, v := log];
    QuorumOfThree(c, n, vote, v, log, voterLogs);
    ElectedShape(c, n, vote, voterLogs);
    run', steps' := Then(run, steps, d, n, Win(vote, voterLogs));
  }

  lemma StepsDown(run: seq<Cluster>, steps: seq<Step>, n: NodeId, m: Message)
    returns (run': seq<Cluster>, steps': seq<Step>)
    requires Grown(run, steps, Unrestricted) && n in run[|run| - 1].nodes
    requires m in run[|run| - 1].net && IsHigherReply(m, n)
    ensures var s' := run[|run| - 1].nodes[n].BecomeFollower(SeenTerm(m));
            After(run, steps, Unrestricted, n, s', {}, run', steps')
  {
    run', steps' := Then(run, steps, Unrestricted, n, StepDown(m));
  }

  // ----- a late vote reply makes two leaders of one term ----------------------------------------

  /** Nodes 1 and 2 have asked for votes, in terms 1 and 2; node 2 has refused node 1. */
  lemma Rivals() returns (run: seq<Cluster>, steps: seq<Step>)
    ensures Grown(run, steps, Unrestricted)
    ensures var c, vote := run[|run| - 1], VoteRequest(2, 2, 0, 0);
            && c.nodes.Keys == {1, 2, 3} && c.nodes[3] == FRESH
            && c.nodes[1] == FRESH.BecomeCandidate(1) && c.nodes[2] == FRESH.BecomeCandidate(2).BecomeCandidate(2)
            && VoteCall(vote) in c.net && VoteReply(2, vote, VoteResponse(2, true), []) in c.net
            && VoteReply(2, VoteRequest(1, 1, 0, 0), VoteResponse(2, false), []) in c.net
  {
    var d := Unrestricted;
    run, steps := Start(d);
    run, steps := TimesOut(run, steps, d, 1);
    run, steps := TimesOut(run, steps, d, 2);
    run, steps := TimesOut(run, steps, d, 2);
    run, steps := Votes(run, steps, d, 2, VoteRequest(1, 1, 0, 0));
  }

  /** Node 3 is elected in term 2 with the vote of node 1. */
  lemma OneLeaderSoFar() returns (run: seq<Cluster>, steps: seq<Step>)
    ensures Grown(run, steps, Unrestricted)
    ensures var c, vote := run[|run| - 1], VoteRequest(2, 2, 0, 0);
            && c.nodes.Keys == {1, 2, 3}
            && c.nodes[3].role == Leader && c.nodes[3].currentTerm == 2
            && c.nodes[2].role == Candidate && c.nodes[2].currentTerm == 2 && c.nodes[2].log == []
            && c.nodes[1].currentTerm == 2 && c.nodes[1].votedFor == Some(3)
            && c.nodes[1].log == [] && c.nodes[1].logOffset == 0 && c.nodes[1].snapshot.None?
            && VoteCall(vote) in c.net && VoteReply(2, vote, VoteResponse(2, true), []) in c.net
            && VoteReply(2, VoteRequest(1, 1, 0, 0), VoteResponse(2, false), []) in c.net
  {
    var d := Unrestricted;
    run, steps := Rivals();
    run, steps := TimesOut(run, steps, d, 3);
    run, steps := TimesOut(run, steps, d, 3);
    run, steps := Votes(run, steps, d, 1, VoteRequest(2, 3, 0, 0));
    run, steps := WinsWith(run, steps, d, 3, VoteRequest(2, 3, 0, 0), 1, []);
  }

  /** Node 1 steps down on the late answer, whose term it already has, forgets its
      vote and votes again. */
  lemma TwoLeaders() returns (run: seq<Cluster>, steps: seq<Step>)
    ensures IsRun(run, steps, Unrestricted)
    ensures var c := run[|run| - 1];
            && 2 in c.nodes && 3 in c.nodes && c.nodes[2].role == Leader && c.nodes[3].role == Leader
            && c.nodes[2].currentTerm == c.nodes[3].currentTerm
  {
    run, steps := OneLeaderSoFar();
    run, steps := StepsDown(run, steps, 1, VoteReply(2, VoteRequest(1, 1, 0, 0), VoteResponse(2, false), []));
    run, steps := Votes(run, steps, Unrestricted, 1, VoteRequest(2, 2, 0, 0));
    run, steps := WinsWith(run, steps, Unrestricted, 2, VoteRequest(2, 2, 0, 0), 1, []);
    assert Asked(0);
  }

  /** Node 1 has moved on to term 3; the late answer takes it back to term 2, where it
      votes again. */
  lemma TermGoesBack() returns (run: seq<Cluster>, steps: seq<Step>)
    ensures IsRun(run, steps, Unrestricted)
    ensures var c := run[|run| - 1];
            && 2 in c.nodes && 3 in c.nodes && c.nodes[2].role == Leader && c.nodes[3].role == Leader
            && c.nodes[2].currentTerm == c.nodes[3].currentTerm
  {
    run, steps := OneLeaderSoFar();
    run, steps := TimesOut(run, steps, Unrestricted, 1);
    run, steps := StepsDown(run, steps, 1, VoteReply(2, VoteRequest(1, 1, 0, 0), VoteResponse(2, false), []));
    run, steps := Votes(run, steps, Unrestricted, 1, VoteRequest(2, 2, 0, 0));
    run, steps := WinsWith(run, steps, Unrestricted, 2, VoteRequest(2, 2, 0, 0), 1, []);
    assert Asked(0);
  }

  // ----- a late request lets a later leader lack a committed entry ---------------------------------

  lemma Proposes(run: seq<Cluster>, steps: seq<Step>, d: Discipline, n: NodeId, command: Command)
    returns (run': seq<Cluster>, steps': seq<Step>)
    requires Grown(run, steps, d) && n in run[|run| - 1].nodes && run[|run| - 1].nodes[n].role == Leader
    ensures After(run, steps, d, n, run[|run| - 1].nodes[n].AppendEntry(command), {}, run', steps')
  {
    run', steps' := Then(run, steps, d, n, Propose(command));
  }

  /** The replication round of s for the peer sends req; closed until asked for. */
  ghost predicate Offers(s: NodeState, n: NodeId, peer: NodeId, req: AppendRequest) {
    forall k: nat :: Asked(k) ==> Replication(s, n, peer) == SendAppend(req)
  }

  lemma Sends(run: seq<Cluster>, steps: seq<Step>, d: Discipline, n: NodeId, peer: NodeId, req: AppendRequest)
    returns (run': seq<Cluster>, steps': seq<Step>)
    requires Grown(run, steps, d)
    requires var c := run[|run| - 1];
             && n in c.nodes && peer in c.nodes && peer != n && c.nodes[n].role == Leader
             && Offers(c.nodes[n], n, peer, req)
    ensures After(run, steps, d, n, run[|run| - 1].nodes[n], {AppendCall(peer, req)}, run', steps')
  {
    assert Asked(0);
    run', steps' := Then(run, steps, d, n, Replicate(peer));
  }

  lemma Beats(run: seq<Cluster>, steps: seq<Step>, d: Discipline, n: NodeId, peer: NodeId)
    returns (run': seq<Cluster>, steps': seq<Step>)
    requires Grown(run, steps, d)
    requires var c := run[|run| - 1]; n in c.nodes && peer in c.nodes && peer != n && c.nodes[n].role == Leader
    ensures var s := run[|run| - 1].nodes[n];
            After(run, steps, d, n, s, {AppendCall(peer, Heartbeat(s, n))}, run', steps')
  {
    run', steps' := Then(run, steps, d, n, Beat(peer));
  }

  lemma Takes(run: seq<Cluster>, steps: seq<Step>, d: Discipline, n: NodeId, req: AppendRequest)
    returns (run': seq<Cluster>, steps': seq<Step>)
    requires Grown(run, steps, d) && n in run[|run| - 1].nodes && AppendCall(n, req) in run[|run| - 1].net
    requires d.Monotonic? || (!d.Verified? && (req.entries == [] || req.Covers() >= |run[|run| - 1].nodes[n].log|))
    ensures var (s', r) := HandleAppendEntries(run[|run| - 1].nodes[n], req);
            After(run, steps, d, n, s', {AppendReply(n, req, r)}, run', steps')
  {
    run', steps' := Then(run, steps, d, n, TakeAppend(req));
  }

  lemma Counts(run: seq<Cluster>, steps: seq<Step>, d: Discipline, n: NodeId, peer: NodeId,
               req: AppendRequest, r: AppendResponse)
    returns (run': seq<Cluster>, steps': seq<Step>)
    requires Grown(run, steps, d) && n in run[|run| - 1].nodes && AppendReply(peer, req, r) in run[|run| - 1].net
    requires req.leaderId == n && !d.Verified?
    requires d.CountsTruly() ==> Acked(run[|run| - 1], peer, run[|run| - 1].nodes[n].currentTerm, r.matchIndex)
    requires d.Dated? ==> Acked(run[|run| - 1], peer, req.term, r.matchIndex)
    ensures After(run, steps, d, n, HandleAppendReply(run[|run| - 1].nodes[n], peer, r), {}, run', steps')
  {
    run', steps' := Then(run, steps, d, n, TakeReply(peer, req, r));
  }

  /** A peer that is believed to have nothing is sent the whole log. */
  lemma WholeLogSent(s: NodeState, n: NodeId, peer: NodeId)
    requires s.NextIndexOf(peer) == 1 && s.logOffset == 0 && s.log != [] && s.LastLogIndex() == |s.log|
    ensures Offers(s, n, peer, AppendRequest(s.currentTerm, n, 0, 0, s.log, s.commitIndex))
  {
    assert s.GetEntriesFrom(1) == s.log;
  }

  /** A peer that is believed to be level is sent what it may not know to be committed. */
  lemma ProbeSent(s: NodeState, n: NodeId, peer: NodeId)
    requires s.NextIndexOf(peer) == |s.log| + 1 && s.logOffset == 0 && s.log != [] && s.LastLogIndex() == |s.log|
    requires s.MatchIndexOf(peer) < s.commitIndex
    ensures Offers(s, n, peer, AppendRequest(s.currentTerm, n, |s.log|, s.LastLogTerm(), [], s.commitIndex))
  {
    assert s.GetEntriesFrom(|s.log| + 1) == [];
  }

  lemma FirstEntry(s: NodeState, command: Command)
    requires s.log == [] && s.logOffset == 0
    ensures s.AppendEntry(command).log == [LogEntry(s.currentTerm, 1, command)]
  {
  }

  lemma EmptyTakes(s: NodeState, req: AppendRequest)
    requires s.log == [] && s.logOffset == 0 && req.prevLogIndex == 0 && req.entries != []
    ensures StoreEntries(s, req) == s.(log := req.entries)
  {
    assert [] + req.entries == req.entries;
  }

  /** A node without a log stores whatever starts at the beginning. */
  lemma EmptyStores(s: NodeState, req: AppendRequest)
    requires s.log == [] && s.logOffset == 0 && req.prevLogIndex == 0 && req.entries != [] && req.term >= s.currentTerm
    ensures var (s', r) := HandleAppendEntries(s, req);
            && s'.log == req.entries && s'.logOffset == 0 && s'.currentTerm == req.term
            && r == AppendResponse(req.term, true, req.entries[|req.entries| - 1].index)
  {
    EmptyTakes(Acknowledge(s, req), req);
  }

  lemma PointReached(s: NodeState, k: nat)
    requires CommitPoint(s.matchIndex, s.LastLogIndex()) == k > s.commitIndex
    requires s.GetEntry(k).Some? && s.GetEntry(k).value.term == s.currentTerm
    ensures AdvanceCommit(s) == s.(commitIndex := k)
  {
  }

  /** In a cluster of three, the leader and one peer suffice. */
  lemma CommitOfThree(s: NodeState, peer: NodeId, other: NodeId, r: AppendResponse, k: nat)
    requires s.role == Leader && s.matchIndex == map[peer := 0, other := 0] && peer != other
    requires s.logOffset == 0 && s.LastLogIndex() == k && |s.log| == k > s.commitIndex
    requires s.log[k - 1].term == s.currentTerm
    requires r == AppendResponse(s.currentTerm, true, k)
    ensures HandleAppendReply(s, peer, r) == RecordMatch(s, peer, k).(commitIndex := k)
  {
    var s' := RecordMatch(s, peer, k);
    assert CommitPoint(s'.matchIndex, k) == k by {
      assert s'.matchIndex == map[peer := k, other := 0];
      PointOfThree(s'.matchIndex, peer, other, k);
      CommitPointUnique(s'.matchIndex, k, k);
    }
    assert s'.GetEntry(k) == Some(s.log[k - 1]);
    PointReached(s', k);
  }

  lemma PointOfThree(m: map<NodeId, nat>, peer: NodeId, other: NodeId, k: nat)
    requires m == map[peer := k, other := 0] && peer != other && k > 0
    ensures IsCommitPoint(m, k, k)
  {
    assert Holders(m, k) == {peer};
    assert |m| == |m.Keys| == |{peer, other}| == 2;
    forall j: nat | j > k
      ensures HeldBy(m, k, j) < CommitQuorum(3)
    {
      assert Holders(m, j) == {};
    }
  }

  /** Node 1 leads term 1. */
  lemma FirstTerm(d: Discipline) returns (run: seq<Cluster>, steps: seq<Step>)
    ensures Grown(run, steps, d)
    ensures var c, vote := run[|run| - 1], VoteRequest(1, 1, 0, 0);
            && c.nodes.Keys == {1, 2, 3} && c.nodes[3] == FRESH && c.nodes[2] == HandleRequestVote(FRESH, vote).0
            && c.nodes[1] == FRESH.BecomeCandidate(1).(votesReceived := 2).BecomeLeader(1, {2, 3})
  {
    var vote := VoteRequest(1, 1, 0, 0);
    run, steps := Start(d);
    run, steps := TimesOut(run, steps, d, 1);
    run, steps := Votes(run, steps, d, 2, vote);
    run, steps := WinsWith(run, steps, d, 1, vote, 2, []);
    assert {1, 2, 3} - {1} == {2, 3};
  }

  const FIRST := LogEntry(1, 1, Noop)
  const SECOND := LogEntry(1, 2, Noop)
  const SHORT := AppendRequest(1, 1, 0, 0, [FIRST], 0)
  const LONG := AppendRequest(1, 1, 0, 0, [FIRST, SECOND], 0)

  /** Node 1 has sent node 2 one entry. */
  lemma OneSent(d: Discipline) returns (run: seq<Cluster>, steps: seq<Step>)
    ensures Grown(run, steps, d)
    ensures var c := run[|run| - 1];
            && c.nodes.Keys == {1, 2, 3} && c.nodes[3] == FRESH
            && c.nodes[2] == HandleRequestVote(FRESH, VoteRequest(1, 1, 0, 0)).0
            && c.nodes[1] == FRESH.BecomeCandidate(1).(votesReceived := 2).BecomeLeader(1, {2, 3}).(log := [FIRST])
            && AppendCall(2, SHORT) in c.net
  {
    run, steps := FirstTerm(d);
    FirstEntry(run[|run| - 1].nodes[1], Noop);
    run, steps := Proposes(run, steps, d, 1, Noop);
    WholeLogSent(run[|run| - 1].nodes[1], 1, 2);
    run, steps := Sends(run, steps, d, 1, 2, SHORT);
  }

  /** Node 1 has sent node 2 first one entry, then both. */
  lemma BothSent() returns (run: seq<Cluster>, steps: seq<Step>)
    ensures Grown(run, steps, Monotonic)
    ensures var c := run[|run| - 1];
            && c.nodes.Keys == {1, 2, 3} && c.nodes[3] == FRESH
            && c.nodes[2] == HandleRequestVote(FRESH, VoteRequest(1, 1, 0, 0)).0
            && c.nodes[1].role == Leader && c.nodes[1].currentTerm == 1 && c.nodes[1].log == [FIRST, SECOND]
            && c.nodes[1].logOffset == 0 && c.nodes[1].commitIndex == 0 && c.nodes[1].matchIndex == map[2 := 0, 3 := 0]
            && AppendCall(2, SHORT) in c.net && AppendCall(2, LONG) in c.net
  {
    var d := Monotonic;
    run, steps := OneSent(d);
    run, steps := Proposes(run, steps, d, 1, Noop);
    assert run[|run| - 1].nodes[1].log == [FIRST, SECOND];
    WholeLogSent(run[|run| - 1].nodes[1], 1, 2);
    run, steps := Sends(run, steps, d, 1, 2, LONG);
  }

  /** Node 2 has stored both entries and said so. */
  lemma BothStored() returns (run: seq<Cluster>, steps: seq<Step>)
    ensures Grown(run, steps, Monotonic)
    ensures var c := run[|run| - 1];
            && c.nodes.Keys == {1, 2, 3} && c.nodes[3] == FRESH && AppendCall(2, SHORT) in c.net
            && c.nodes[1].role == Leader && c.nodes[1].currentTerm == 1 && c.nodes[1].log == [FIRST, SECOND]
            && c.nodes[1].logOffset == 0 && c.nodes[1].commitIndex == 0 && c.nodes[1].matchIndex == map[2 := 0, 3 := 0]
            && c.nodes[2].currentTerm == 1 && c.nodes[2].log == [FIRST, SECOND] && c.nodes[2].logOffset == 0
            && AppendReply(2, LONG, AppendResponse(1, true, 2)) in c.net
  {
    run, steps := BothSent();
    EmptyStores(run[|run| - 1].nodes[2], LONG);
    run, steps := Takes(run, steps, Monotonic, 2, LONG);
  }

  /** Node 2 acknowledges both entries and node 1 commits them. */
  lemma BothCommitted() returns (run: seq<Cluster>, steps: seq<Step>)
    ensures Grown(run, steps, Monotonic)
    ensures var c := run[|run| - 1];
            && c.nodes.Keys == {1, 2, 3} && c.nodes[3] == FRESH && AppendCall(2, SHORT) in c.net
            && c.nodes[1].role == Leader && c.nodes[1].commitIndex == 2 && c.nodes[1].log == [FIRST, SECOND]
            && c.nodes[1].currentTerm == 1
            && c.nodes[2].currentTerm == 1 && c.nodes[2].log == [FIRST, SECOND] && c.nodes[2].logOffset == 0
  {
    run, steps := BothStored();
    var r := AppendResponse(1, true, 2);
    CommitOfThree(run[|run| - 1].nodes[1], 2, 3, r, 2);
    run, steps := Counts(run, steps, Monotonic, 1, 2, LONG, r);
  }

  /** The first request arrives late and node 2 drops the second entry. */
  lemma CommittedThenCut() returns (run: seq<Cluster>, steps: seq<Step>)
    ensures Grown(run, steps, Monotonic)
    ensures var c := run[|run| - 1];
            && c.nodes.Keys == {1, 2, 3} && c.nodes[3] == FRESH
            && c.nodes[1].role == Leader && c.nodes[1].commitIndex == 2 && c.nodes[1].log == [FIRST, SECOND]
            && c.nodes[2].currentTerm == 1 && c.nodes[2].log == [FIRST] && c.nodes[2].logOffset == 0
            && c.nodes[1].currentTerm == 1
  {
    run, steps := BothCommitted();
    run, steps := Takes(run, steps, Monotonic, 2, SHORT);
    assert run[|run| - 1].nodes[2].log == [FIRST];
  }

  /** Node 2 leads term 2 without an entry that node 1 committed in term 1. */
  lemma LostCommit() returns (run: seq<Cluster>, steps: seq<Step>)
    ensures IsRun(run, steps, Monotonic)
    ensures var c := run[|run| - 1];
            && 1 in c.nodes && 2 in c.nodes
            && c.nodes[2].role == Leader && c.nodes[2].currentTerm > c.nodes[1].currentTerm
            && c.nodes[1].commitIndex <= |c.nodes[1].log|
            && !(c.nodes[1].log[..c.nodes[1].commitIndex] <= c.nodes[2].log)
  {
    var d := Monotonic;
    run, steps := CommittedThenCut();
    run, steps := TimesOut(run, steps, d, 2);
    var vote := VoteRequest(2, 2, 1, 1);
    run, steps := Votes(run, steps, d, 3, vote);
    run, steps := WinsWith(run, steps, d, 2, vote, 3, []);
    assert Asked(0);
  }

  // ----- a heartbeat commits an entry the leader never had -----------------------------------------

  const OTHER := LogEntry(2, 1, Noop)
  const CARRY := AppendRequest(2, 2, 0, 0, [OTHER], 0)

  /** Node 1 holds an entry of term 1 nobody else has; node 2 asks for votes in term 2. */
  lemma SecondCandidate() returns (run: seq<Cluster>, steps: seq<Step>)
    ensures Grown(run, steps, InOrder)
    ensures var c, vote := run[|run| - 1], VoteRequest(2, 2, 0, 0);
            && c.nodes.Keys == {1, 2, 3} && c.nodes[3] == FRESH
            && c.nodes[1].currentTerm == 1 && c.nodes[1].log == [FIRST] && c.nodes[1].commitIndex == 0
            && c.nodes[2] == HandleRequestVote(FRESH, VoteRequest(1, 1, 0, 0)).0.BecomeCandidate(2)
            && VoteCall(vote) in c.net && VoteReply(2, vote, VoteResponse(2, true), []) in c.net
  {
    var d := InOrder;
    run, steps := FirstTerm(d);
    FirstEntry(run[|run| - 1].nodes[1], Noop);
    run, steps := Proposes(run, steps, d, 1, Noop);
    run, steps := TimesOut(run, steps, d, 2);
  }

  /** Node 2 is elected by node 3. */
  lemma SecondTerm() returns (run: seq<Cluster>, steps: seq<Step>)
    ensures Grown(run, steps, InOrder)
    ensures var c := run[|run| - 1];
            && c.nodes.Keys == {1, 2, 3}
            && c.nodes[1].currentTerm == 1 && c.nodes[1].log == [FIRST] && c.nodes[1].commitIndex == 0
            && c.nodes[2].role == Leader && c.nodes[2].currentTerm == 2 && c.nodes[2].log == []
            && c.nodes[2].logOffset == 0 && c.nodes[2].commitIndex == 0 && c.nodes[2].snapshot.None?
            && c.nodes[2].matchIndex == map[1 := 0, 3 := 0] && c.nodes[2].nextIndex == map[1 := 1, 3 := 1]
            && c.nodes[3].currentTerm == 2 && c.nodes[3].log == [] && c.nodes[3].logOffset == 0
  {
    var d := InOrder;
    run, steps := SecondCandidate();
    var vote := VoteRequest(2, 2, 0, 0);
    run, steps := Votes(run, steps, d, 3, vote);
    run, steps := WinsWith(run, steps, d, 2, vote, 3, []);
    assert {1, 2, 3} - {2} == {1, 3};
  }

  /** Node 2 appends an entry that it can send to node 3 and count at once. */
  lemma OtherProposed() returns (run: seq<Cluster>, steps: seq<Step>)
    ensures Grown(run, steps, InOrder)
    ensures var c := run[|run| - 1];
            && c.nodes.Keys == {1, 2, 3}
            && c.nodes[1].currentTerm == 1 && c.nodes[1].log == [FIRST] && c.nodes[1].commitIndex == 0
            && c.nodes[2].role == Leader && c.nodes[2].currentTerm == 2 && c.nodes[2].log == [OTHER]
            && c.nodes[2].logOffset == 0 && c.nodes[2].commitIndex == 0
            && c.nodes[2].matchIndex == map[1 := 0, 3 := 0] && Prompt(c, 2, 3, CARRY)
            && HandleAppendEntries(c.nodes[3], CARRY).1 == AppendResponse(2, true, 1)
  {
    run, steps := SecondTerm();
    FirstEntry(run[|run| - 1].nodes[2], Noop);
    run, steps := Proposes(run, steps, InOrder, 2, Noop);
    WholeLogSent(run[|run| - 1].nodes[2], 2, 3);
    EmptyStores(run[|run| - 1].nodes[3], CARRY);
  }

  lemma OtherCommitted() returns (run: seq<Cluster>, steps: seq<Step>)
    ensures Grown(run, steps, InOrder)
    ensures var c := run[|run| - 1];
            && c.nodes.Keys == {1, 2, 3}
            && c.nodes[1].currentTerm == 1 && c.nodes[1].log == [FIRST] && c.nodes[1].commitIndex == 0
            && c.nodes[2].role == Leader && c.nodes[2].currentTerm == 2 && c.nodes[2].log == [OTHER]
            && c.nodes[2].commitIndex == 1
  {
    run, steps := OtherProposed();
    CommitOfThree(run[|run| - 1].nodes[2], 3, 1, AppendResponse(2, true, 1), 1);
    run, steps := Exchanges(run, steps, 2, 3, CARRY);
  }

  /** Allowed, closed until asked for. */
  ghost predicate Permitted(c: Cluster, n: NodeId, e: Event, d: Discipline) {
    forall k: nat :: Asked(k) ==> Allowed(c, Run(n, e), d)
  }

  lemma ThenPermitted(run: seq<Cluster>, steps: seq<Step>, d: Discipline, n: NodeId, e: Event)
    returns (run': seq<Cluster>, steps': seq<Step>)
    requires Grown(run, steps, d) && n in run[|run| - 1].nodes && Permitted(run[|run| - 1], n, e, d)
    ensures Grown(run', steps', d) && run'[|run'| - 1] == Handle(run[|run| - 1], n, e)
  {
    assert Asked(0);
    run', steps' := Then(run, steps, d, n, e);
  }

  /** An exchange that goes through at once. */
  ghost predicate Prompt(c: Cluster, n: NodeId, peer: NodeId, req: AppendRequest) {
    && n in c.nodes && peer in c.nodes && n != peer && c.nodes[n].role == Leader
    && Offers(c.nodes[n], n, peer, req)
    && (HandleAppendEntries(c.nodes[peer], req).1.success ==>
          HandleAppendEntries(c.nodes[peer], req).1.matchIndex == |c.nodes[n].log|)
  }

  lemma ExchangePermitted(run: seq<Cluster>, steps: seq<Step>, n: NodeId, peer: NodeId, req: AppendRequest)
    requires Grown(run, steps, InOrder) && Prompt(run[|run| - 1], n, peer, req)
    ensures var c := run[|run| - 1];
            var c1 := Handle(c, n, Replicate(peer));
            && peer in c1.nodes && Permitted(c, n, Replicate(peer), InOrder)
            && Permitted(c1, peer, TakeAppend(req), InOrder)
            && Permitted(Handle(c1, peer, TakeAppend(req)), n,
                         TakeReply(peer, req, HandleAppendEntries(c.nodes[peer], req).1), InOrder)
  {
    assert LogInv(run[|run| - 1]) by {
      assert Asked(0);
      RaftSafety.InvRun(run, steps, InOrder, |run| - 1);
    }
    assert Replication(run[|run| - 1].nodes[n], n, peer) == SendAppend(req) by { assert Asked(0); }
    RaftSafety.ExchangeInOrder(run[|run| - 1], n, peer, req);
  }

  /** Request, handler and reply, one after the other. */
  lemma Exchanges(run: seq<Cluster>, steps: seq<Step>, n: NodeId, peer: NodeId, req: AppendRequest)
    returns (run': seq<Cluster>, steps': seq<Step>)
    requires Grown(run, steps, InOrder) && Prompt(run[|run| - 1], n, peer, req)
    ensures Grown(run', steps', InOrder)
    ensures var c, (s', r) := run[|run| - 1], HandleAppendEntries(run[|run| - 1].nodes[peer], req);
            run'[|run'| - 1].nodes == c.nodes[peer := s'][n := HandleAppendReply(c.nodes[n], peer, r)]
  {
    var c := run[|run| - 1];
    ExchangePermitted(run, steps, n, peer, req);
    assert Handle(c, n, Replicate(peer)).nodes == c.nodes;
    run', steps' := ThenPermitted(run, steps, InOrder, n, Replicate(peer));
    Taken(run'[|run'| - 1], peer, req);
    run', steps' := ThenPermitted(run', steps', InOrder, peer, TakeAppend(req));
    run', steps' := ThenPermitted(run', steps', InOrder, n,
                                  TakeReply(peer, req, HandleAppendEntries(c.nodes[peer], req).1));
  }

  /** Nodes 1 and 2 both consider index 1 committed, with different entries. */
  lemma SplitCommit() returns (run: seq<Cluster>, steps: seq<Step>)
    ensures IsRun(run, steps, InOrder)
    ensures var c := run[|run| - 1];
            && 1 in c.nodes && 2 in c.nodes && c.nodes[1].commitIndex >= 1 && c.nodes[2].commitIndex >= 1
            && |c.nodes[1].log| >= 1 && |c.nodes[2].log| >= 1 && c.nodes[1].log[0] != c.nodes[2].log[0]
  {
    run, steps := OtherCommitted();
    run, steps := Beats(run, steps, InOrder, 2, 1);
    var beat := AppendRequest(2, 2, 0, 0, [], 1);
    assert AppendCall(1, beat) in run[|run| - 1].net;
    run, steps := Takes(run, steps, InOrder, 1, beat);
    assert Asked(0);
  }

  // ----- a reply that over-reports commits an entry its sender lacks ---------------------------------

  const MINE := LogEntry(2, 2, Noop)
  const PROBE := AppendRequest(2, 2, 1, 1, [], 1)

  /** Node 2 has stored the first entry of term 1 and said so. */
  lemma FirstStored() returns (run: seq<Cluster>, steps: seq<Step>)
    ensures Grown(run, steps, Fresh)
    ensures var c := run[|run| - 1];
            && c.nodes.Keys == {1, 2, 3} && c.nodes[3] == FRESH
            && c.nodes[1] == FRESH.BecomeCandidate(1).(votesReceived := 2).BecomeLeader(1, {2, 3}).(log := [FIRST])
            && c.nodes[2].currentTerm == 1 && c.nodes[2].role == Follower && c.nodes[2].log == [FIRST]
            && c.nodes[2].logOffset == 0 && c.nodes[2].snapshot.None? && c.nodes[2].commitIndex == 0
            && AppendReply(2, SHORT, AppendResponse(1, true, 1)) in c.net
  {
    run, steps := OneSent(Fresh);
    EmptyStores(run[|run| - 1].nodes[2], SHORT);
    run, steps := Takes(run, steps, Fresh, 2, SHORT);
  }

  /** Nodes 1 and 2 have committed the first entry of term 1. */
  lemma FirstCommitted() returns (run: seq<Cluster>, steps: seq<Step>)
    ensures Grown(run, steps, Fresh)
    ensures var c := run[|run| - 1];
            && c.nodes.Keys == {1, 2, 3} && c.nodes[3] == FRESH
            && c.nodes[1].role == Leader && c.nodes[1].currentTerm == 1 && c.nodes[1].log == [FIRST]
            && c.nodes[1].logOffset == 0 && c.nodes[1].snapshot.None? && c.nodes[1].commitIndex == 1
            && c.nodes[2].currentTerm == 1 && c.nodes[2].role == Follower && c.nodes[2].log == [FIRST]
            && c.nodes[2].logOffset == 0 && c.nodes[2].snapshot.None? && c.nodes[2].commitIndex == 0
  {
    run, steps := FirstStored();
    var r := AppendResponse(1, true, 1);
    CommitOfThree(run[|run| - 1].nodes[1], 2, 3, r, 1);
    run, steps := Counts(run, steps, Fresh, 1, 2, SHORT, r);
  }

  /** Node 2 learns of the commit; node 1 appends an entry that nobody else gets. */
  lemma LeftBehind() returns (run: seq<Cluster>, steps: seq<Step>)
    ensures Grown(run, steps, Fresh)
    ensures var c := run[|run| - 1];
            && c.nodes.Keys == {1, 2, 3} && c.nodes[3] == FRESH
            && c.nodes[1].currentTerm == 1 && c.nodes[1].log == [FIRST, SECOND]
            && c.nodes[1].logOffset == 0 && c.nodes[1].snapshot.None? && c.nodes[1].commitIndex == 1
            && c.nodes[2].currentTerm == 1 && c.nodes[2].role == Follower && c.nodes[2].log == [FIRST]
            && c.nodes[2].logOffset == 0 && c.nodes[2].snapshot.None? && c.nodes[2].commitIndex == 1
  {
    var d := Fresh;
    run, steps := FirstCommitted();
    run, steps := Beats(run, steps, d, 1, 2);
    run, steps := Takes(run, steps, d, 2, AppendRequest(1, 1, 0, 0, [], 1));
    run, steps := Proposes(run, steps, d, 1, Noop);
    assert run[|run| - 1].nodes[1].log == [FIRST, SECOND];
  }

  /** Node 2 leads term 2, probes node 1 and appends an entry of its own. */
  lemma Probed() returns (run: seq<Cluster>, steps: seq<Step>)
    ensures Grown(run, steps, Fresh)
    ensures var c := run[|run| - 1];
            && c.nodes.Keys == {1, 2, 3}
            && c.nodes[1].currentTerm == 1 && c.nodes[1].log == [FIRST, SECOND]
            && c.nodes[1].logOffset == 0 && c.nodes[1].snapshot.None? && c.nodes[1].commitIndex == 1
            && c.nodes[2].role == Leader && c.nodes[2].currentTerm == 2 && c.nodes[2].log == [FIRST, MINE]
            && c.nodes[2].logOffset == 0 && c.nodes[2].commitIndex == 1 && c.nodes[2].matchIndex == map[1 := 0, 3 := 0]
            && c.nodes[3].currentTerm == 2 && c.nodes[3].log == [] && c.nodes[3].logOffset == 0
            && c.nodes[3].snapshot.None? && AppendCall(1, PROBE) in c.net
  {
    var d := Fresh;
    run, steps := LeftBehind();
    run, steps := TimesOut(run, steps, d, 2);
    var vote := VoteRequest(2, 2, 1, 1);
    run, steps := Votes(run, steps, d, 3, vote);
    run, steps := WinsWith(run, steps, d, 2, vote, 3, []);
    assert {1, 2, 3} - {2} == {1, 3};
    ProbeSent(run[|run| - 1].nodes[2], 2, 1);
    run, steps := Sends(run, steps, d, 2, 1, PROBE);
    run, steps := Proposes(run, steps, d, 2, Noop);
    assert run[|run| - 1].nodes[2].log == [FIRST, MINE];
  }

  /** Node 1 accepts the probe and reports its whole log; node 2 counts that for its entry. */
  lemma OverReported() returns (run: seq<Cluster>, steps: seq<Step>)
    ensures Grown(run, steps, Fresh)
    ensures var c := run[|run| - 1];
            && c.nodes.Keys == {1, 2, 3}
            && c.nodes[1].currentTerm == 2 && c.nodes[1].log == [FIRST, SECOND]
            && c.nodes[1].logOffset == 0 && c.nodes[1].snapshot.None?
            && c.nodes[2].currentTerm == 2 && c.nodes[2].log == [FIRST, MINE] && c.nodes[2].commitIndex == 2
            && c.nodes[3].currentTerm == 2 && c.nodes[3].log == [] && c.nodes[3].logOffset == 0
            && c.nodes[3].snapshot.None?
  {
    var d := Fresh;
    run, steps := Probed();
    run, steps := Takes(run, steps, d, 1, PROBE);
    var r := AppendResponse(2, true, 2);
    assert AppendReply(1, PROBE, r) in run[|run| - 1].net;
    CommitOfThree(run[|run| - 1].nodes[2], 1, 3, r, 2);
    run, steps := Counts(run, steps, d, 2, 1, PROBE, r);
  }

  /** Node 1 leads term 3 without an entry that node 2 committed in term 2, although no
      request was stale. */
  lemma UnheldCommit() returns (run: seq<Cluster>, steps: seq<Step>)
    ensures IsRun(run, steps, Fresh)
    ensures var c := run[|run| - 1];
            && 1 in c.nodes && 2 in c.nodes
            && c.nodes[1].role == Leader && c.nodes[1].currentTerm > c.nodes[2].currentTerm
            && c.nodes[2].commitIndex <= |c.nodes[2].log|
            && !(c.nodes[2].log[..c.nodes[2].commitIndex] <= c.nodes[1].log)
  {
    var d := Fresh;
    run, steps := OverReported();
    run, steps := TimesOut(run, steps, d, 1);
    var vote := VoteRequest(3, 1, 2, 1);
    run, steps := Votes(run, steps, d, 3, vote);
    run, steps := WinsWith(run, steps, d, 1, vote, 3, []);
    assert MINE != SECOND;
    assert Asked(0);
  }
}
