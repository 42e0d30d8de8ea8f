/** Polling peers for votes and drawing the conclusion, as the code does it in one round, is a
    step of the protocol. */
module ElectionRounds {
  import opened Types
  import opened RaftSpec
  import opened CommitRule
  import opened Cluster
  import opened RaftStateObject
  import CompactedCluster
  import Elections

  // ----- a granted vote carries the term it was asked for ------------------------------------------

  ghost predicate GrantsDated(net: set<Message>) {
    forall m :: m in net && Elections.IsGrant(m) ==> m.answer.term == m.vote.term
  }

  lemma EmitDated(c: Cluster, n: NodeId, e: Event)
    requires n in c.nodes
    ensures GrantsDated(Emit(c, n, e))
  {
  }

  lemma StepDated(c: Cluster, step: Step)
    requires step.node in c.nodes && GrantsDated(c.net)
    ensures GrantsDated(Do(c, step).net)
  {
    EmitDated(c, step.node, step.event);
  }

  lemma {:induction false} DatedRun(run: seq<Cluster>, steps: seq<Step>, d: Discipline, i: nat)
    requires IsRun(run, steps, d) && i < |run|
    ensures GrantsDated(run[i].net)
    decreases i
  {
    if i > 0 {
      DatedRun(run, steps, d, i - 1);
      DatedNext(run, steps, d, i);
    } else {
      DatedStart(run, steps, d);
    }
  }

  lemma DatedStart(run: seq<Cluster>, steps: seq<Step>, d: Discipline)
    requires IsRun(run, steps, d)
    ensures GrantsDated(run[0].net)
  {
    var ids :| run[0] == Init(ids);
  }

  lemma DatedNext(run: seq<Cluster>, steps: seq<Step>, d: Discipline, i: nat)
    requires IsRun(run, steps, d) && 0 < i < |run| && GrantsDated(run[i - 1].net)
    ensures GrantsDated(run[i].net)
  {
    assert IsNext(run, steps, d, i - 1);
    StepDated(run[i - 1], steps[i - 1]);
  }

  // ----- the round ------------------------------------------------------------------------------------

  ghost predicate Answered(c: Cluster, v: NodeId, vote: VoteRequest, r: VoteResponse) {
    exists log: seq<LogEntry> :: VoteReply(v, vote, r, log) in c.net
  }

  /** Node n has asked for votes and polled some peers, each once; who answered, answered. */
  ghost predicate Polled(c: Cluster, n: NodeId, vote: VoteRequest, polled: seq<NodeId>,
                         replies: seq<Option<VoteResponse>>)
  {
    && n in c.nodes && vote.candidateId == n && VoteCall(vote) in c.net
    && Answered(c, n, vote, VoteResponse(vote.term, true))
    && |polled| == |replies| && (forall i, j :: 0 <= i < j < |polled| ==> polled[i] != polled[j])
    && (forall i :: 0 <= i < |polled| ==> polled[i] in c.nodes && polled[i] != n)
    && (forall i :: 0 <= i < |polled| && replies[i].Some? ==> Answered(c, polled[i], vote, replies[i].value))
  }

  predicate IsYes(r: Option<VoteResponse>) {
    r.Some? && r.value.voteGranted
  }

  /** Node n and the polled peers that said yes. */
  function Voters(n: NodeId, polled: seq<NodeId>, replies: seq<Option<VoteResponse>>): set<NodeId>
    requires |polled| == |replies|
    decreases |replies|
  {
    if replies == [] then {n}
    else
      var last := |replies| - 1;
      Voters(n, polled[..last], replies[..last]) + if IsYes(replies[last]) then {polled[last]} else {}
  }

  lemma {:induction false} VoterSaidYes(n: NodeId, polled: seq<NodeId>, replies: seq<Option<VoteResponse>>, v: NodeId)
    requires |polled| == |replies| && v in Voters(n, polled, replies)
    ensures v == n || exists i :: 0 <= i < |replies| && IsYes(replies[i]) && polled[i] == v
    decreases |replies|
  {
    if replies != [] {
      var last := |replies| - 1;
      if v in Voters(n, polled[..last], replies[..last]) {
        VoterSaidYes(n, polled[..last], replies[..last], v);
        if v != n {
          var i :| 0 <= i < last && IsYes(replies[..last][i]) && polled[..last][i] == v;
          assert IsYes(replies[i]) && polled[i] == v;
        }
      }
    }
  }

  /** The tally counts them. */
  lemma {:induction false} VotersCount(n: NodeId, term: nat, polled: seq<NodeId>, replies: seq<Option<VoteResponse>>)
    requires |polled| == |replies| && TallyVotes(term, replies).Votes?
    requires forall i, j :: 0 <= i < j < |polled| ==> polled[i] != polled[j]
    requires forall i :: 0 <= i < |polled| ==> polled[i] != n
    ensures |Voters(n, polled, replies)| == TallyVotes(term, replies).count
    decreases |replies|
  {
    if replies != [] {
      var last := |replies| - 1;
      VotersCount(n, term, polled[..last], replies[..last]);
      if polled[last] in Voters(n, polled[..last], replies[..last]) {
        VoterSaidYes(n, polled[..last], replies[..last], polled[last]);
      }
    }
  }

  lemma VotersAnswered(c: Cluster, n: NodeId, vote: VoteRequest, polled: seq<NodeId>,
                       replies: seq<Option<VoteResponse>>, v: NodeId)
    requires Polled(c, n, vote, polled, replies) && GrantsDated(c.net) && v in Voters(n, polled, replies)
    ensures v in c.nodes && Answered(c, v, vote, VoteResponse(vote.term, true))
  {
    VoterSaidYes(n, polled, replies, v);
    if v != n {
      var i :| 0 <= i < |replies| && IsYes(replies[i]) && polled[i] == v;
      var log: seq<LogEntry> :| VoteReply(v, vote, replies[i].value, log) in c.net;
      var m := VoteReply(v, vote, replies[i].value, log);
      assert Elections.IsGrant(m);
    }
  }

  lemma WinEnabled(c: Cluster, n: NodeId, vote: VoteRequest, polled: seq<NodeId>, replies: seq<Option<VoteResponse>>)
    returns (e: Event)
    requires Polled(c, n, vote, polled, replies) && GrantsDated(c.net) && TallyVotes(vote.term, replies).Votes?
    requires c.nodes[n].role == Candidate && c.nodes[n].currentTerm == vote.term
    requires TallyVotes(vote.term, replies).count >= VoteQuorum(|c.nodes|)
    ensures Enabled(c, n, e) && e.Win? && |e.voterLogs.Keys| == TallyVotes(vote.term, replies).count
  {
    var voters := Voters(n, polled, replies);
    VotersCount(n, vote.term, polled, replies);
    forall v | v in voters
      ensures v in c.nodes
      ensures exists l: seq<LogEntry> :: VoteReply(v, vote, VoteResponse(vote.term, true), l) in c.net
    {
      VotersAnswered(c, n, vote, polled, replies, v);
    }
    var logs := CompactedCluster.GatherLogs(c, vote, voters);
    assert HasQuorum(c, n, vote, logs);
    e := Win(vote, logs);
  }

  lemma HigherSeen(c: Cluster, n: NodeId, vote: VoteRequest, polled: seq<NodeId>, replies: seq<Option<VoteResponse>>,
                   higher: nat)
    returns (e: Event)
    requires Polled(c, n, vote, polled, replies)
    requires exists i :: FirstHigher(vote.term, replies, i) && replies[i].value.term == higher
    ensures Enabled(c, n, e) && e.StepDown? && SeenTerm(e.seen) == higher
  {
    var i :| FirstHigher(vote.term, replies, i) && replies[i].value.term == higher;
    var log: seq<LogEntry> :| VoteReply(polled[i], vote, replies[i].value, log) in c.net;
    e := StepDown(VoteReply(polled[i], vote, replies[i].value, log));
  }

  lemma PeersCount(c: Cluster, n: NodeId)
    requires n in c.nodes
    ensures |c.nodes.Keys - {n}| + 1 == |c.nodes|
  {
    assert |c.nodes| == |c.nodes.Keys|;
  }

  ghost predicate Overtaken(term: nat, replies: seq<Option<VoteResponse>>) {
    exists i :: 0 <= i < |replies| && replies[i].Some? && replies[i].value.term > term
  }

  /** What the round must come to: a step down when an answer carried a higher term; a win when
      the node is still a candidate of the term and more than half of the cluster voted
      for it; and otherwise nothing, up to a count that nobody reads. */
  ghost predicate ComesTo(c: Cluster, n: NodeId, vote: VoteRequest, replies: seq<Option<VoteResponse>>,
                          e: Option<Event>)
    requires n in c.nodes
  {
    var s := c.nodes[n];
    var s' := FinishElection(s, n, vote.term, c.nodes.Keys - {n}, TallyVotes(vote.term, replies));
    if Overtaken(vote.term, replies) then
      e.Some? && e.value.StepDown? && Enabled(c, n, e.value) && React(c, n, e.value) == s'
    else if s.role == Candidate && s.currentTerm == vote.term && 2 * (1 + |Granted(replies)|) > |c.nodes| then
      e.Some? && e.value.Win? && Enabled(c, n, e.value) && React(c, n, e.value) == s'
    else
      e.None? && s' == s.(votesReceived := s'.votesReceived)
  }

  /** The end of a round is a step of the protocol. */
  lemma RoundIsStep(c: Cluster, n: NodeId, vote: VoteRequest, polled: seq<NodeId>, replies: seq<Option<VoteResponse>>)
    returns (e: Option<Event>)
    requires Polled(c, n, vote, polled, replies) && GrantsDated(c.net)
    ensures ComesTo(c, n, vote, replies, e)
  {
    var s := c.nodes[n];
    TallyCounts(vote.term, replies);
    PeersCount(c, n);
    match TallyVotes(vote.term, replies)
    case Superseded(higher) =>
      var seen := HigherSeen(c, n, vote, polled, replies, higher);
      e := Some(seen);
    case Votes(count) =>
      if s.role == Candidate && s.currentTerm == vote.term && count >= VoteQuorum(|c.nodes|) {
        var won := WinEnabled(c, n, vote, polled, replies);
        e := Some(won);
      } else {
        e := None;
      }
  }

  /** In every run, whatever it observes. */
  lemma ConcludedElectionIsStep(run: seq<Cluster>, steps: seq<Step>, d: Discipline, i: nat, n: NodeId,
                                vote: VoteRequest, polled: seq<NodeId>, replies: seq<Option<VoteResponse>>)
    returns (e: Option<Event>)
    requires IsRun(run, steps, d) && i < |run| && Polled(run[i], n, vote, polled, replies)
    ensures ComesTo(run[i], n, vote, replies, e)
  {
    DatedRun(run, steps, d, i);
    e := RoundIsStep(run[i], n, vote, polled, replies);
  }
}
