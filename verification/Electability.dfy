/** Elections succeed: votes are not refused without need, a majority of votes wins, and
    from any state any majority of the nodes can elect one of its members. */
module Electability {
  import opened Types
  import opened RaftSpec
  import opened CommitRule
  import opened Cluster
  import opened RaftStateObject
  import CompactedCluster
  import Necessity

  // ----- votes ------------------------------------------------------------------------------------

  /** What node x asks for in the given term. */
  function Ask(x: NodeState, id: NodeId, term: nat): VoteRequest {
    VoteRequest(term, id, x.LastLogIndex(), x.LastLogTerm())
  }

  /** Of two nodes, in any term above both of theirs, one at least grants the other's candidacy,
      and both do exactly when their logs end alike. */
  lemma OneGrants(s: NodeState, a: NodeId, t: NodeState, b: NodeId, term: nat)
    requires term > s.currentTerm && term > t.currentTerm
    ensures Grants(s, Ask(t, b, term)) || Grants(t, Ask(s, a, term))
    ensures Grants(s, Ask(t, b, term)) && Grants(t, Ask(s, a, term)) <==>
              s.LastLogIndex() == t.LastLogIndex() && s.LastLogTerm() == t.LastLogTerm()
  {
  }

  /** Who grants t in a new term grants whomever t itself would grant. */
  lemma GrantsOn(s: NodeState, t: NodeState, b: NodeId, x: NodeState, c: NodeId, term: nat)
    requires term > s.currentTerm && term > t.currentTerm
    requires Grants(s, Ask(t, b, term)) && Grants(t, Ask(x, c, term))
    ensures Grants(s, Ask(x, c, term))
  {
  }

  /** A vote asked for again is granted again, and changes nothing. */
  lemma VoteRepeats(s: NodeState, vote: VoteRequest)
    requires Grants(s, vote)
    ensures HandleRequestVote(HandleRequestVote(s, vote).0, vote) == HandleRequestVote(s, vote)
  {
  }

  /** Whether a new term's vote is granted depends on the ends of the two logs only. */
  lemma AnyNewTerm(s: NodeState, vote: VoteRequest, vote': VoteRequest)
    requires vote.term > s.currentTerm && vote'.term > s.currentTerm
    requires vote.lastLogIndex == vote'.lastLogIndex && vote.lastLogTerm == vote'.lastLogTerm
    ensures Grants(s, vote) == Grants(s, vote')
  {
  }

  // ----- majorities --------------------------------------------------------------------------------

  /** A node that is still a candidate in the term it asked for, and has seen no higher one, leads
      exactly when more than half of the cluster voted for it. */
  lemma MajorityWins(s: NodeState, me: NodeId, term: nat, peers: set<NodeId>, replies: seq<Option<VoteResponse>>)
    requires s.role == Candidate && s.currentTerm == term
    requires forall i :: 0 <= i < |replies| && replies[i].Some? ==> replies[i].value.term <= term
    ensures var s' := FinishElection(s, me, term, peers, TallyVotes(term, replies));
            && (s'.role == Leader <==> 2 * (1 + |Granted(replies)|) > |peers| + 1)
            && (s'.role != Leader ==> s'.role == Candidate)
            && s'.currentTerm == term && s'.votedFor == s.votedFor && s'.log == s.log
  {
    TallyCounts(term, replies);
  }

  /** The member of the group that all of it would elect in a new term. */
  ghost predicate Favoured(nodes: map<NodeId, NodeState>, group: set<NodeId>, b: NodeId) {
    && b in group && group <= nodes.Keys
    && forall v, term: nat :: v in group && term > nodes[v].currentTerm ==> Grants(nodes[v], Ask(nodes[b], b, term))
  }

  lemma GrantsSelf(s: NodeState, id: NodeId, term: nat)
    requires term > s.currentTerm
    ensures Grants(s, Ask(s, id, term))
  {
  }

  lemma {:induction false} SomeFavoured(nodes: map<NodeId, NodeState>, group: set<NodeId>) returns (b: NodeId)
    requires group != {} && group <= nodes.Keys
    ensures Favoured(nodes, group, b)
    decreases group
  {
    var v :| v in group;
    var rest := group - {v};
    if rest == {} {
      b := v;
      assert group == {v};
      forall x, term: nat | x in group && term > nodes[x].currentTerm
        ensures Grants(nodes[x], Ask(nodes[b], b, term))
      {
        GrantsSelf(nodes[v], v, term);
      }
    } else {
      var a := SomeFavoured(nodes, rest);
      b := Favourite(nodes, rest, a, v);
      assert group == rest + {v};
    }
  }

  lemma Favourite(nodes: map<NodeId, NodeState>, rest: set<NodeId>, a: NodeId, v: NodeId) returns (b: NodeId)
    requires Favoured(nodes, rest, a) && v in nodes && v !in rest
    ensures Favoured(nodes, rest + {v}, b)
  {
    var top := Max(nodes[a].currentTerm, nodes[v].currentTerm) + 1;
    OneGrants(nodes[a], a, nodes[v], v, top);
    b := if Grants(nodes[v], Ask(nodes[a], a, top)) then a else v;
    forall x, term: nat | x in rest + {v} && term > nodes[x].currentTerm
      ensures Grants(nodes[x], Ask(nodes[b], b, term))
    {
      if x == v {
        if b == v {
          GrantsSelf(nodes[v], v, term);
        } else {
          AnyNewTerm(nodes[v], Ask(nodes[a], a, top), Ask(nodes[a], a, term));
        }
      } else if b == v {
        var high := Max(top, nodes[x].currentTerm + 1);
        AnyNewTerm(nodes[a], Ask(nodes[v], v, top), Ask(nodes[v], v, high));
        GrantsOn(nodes[x], nodes[a], a, nodes[v], v, high);
        AnyNewTerm(nodes[x], Ask(nodes[v], v, high), Ask(nodes[v], v, term));
      }
    }
  }

  // ----- ways on from a state --------------------------------------------------------------------------

  /** A step is allowed and leads to c'; closed until asked for. */
  ghost predicate Goes(c: Cluster, step: Step, d: Discipline, c': Cluster) {
    forall k: nat :: Asked(k) ==> Allowed(c, step, d) && c' == Do(c, step)
  }

  /** The steps lead from c to c'. */
  ghost predicate LeadsTo(c: Cluster, steps: seq<Step>, d: Discipline, c': Cluster)
    decreases |steps|
  {
    if steps == [] then c' == c
    else exists m :: Goes(c, steps[0], d, m) && LeadsTo(m, steps[1..], d, c')
  }

  lemma LeadsOnce(c: Cluster, step: Step, d: Discipline, c': Cluster)
    requires Goes(c, step, d, c')
    ensures LeadsTo(c, [step], d, c')
  {
    assert LeadsTo(c', [step][1..], d, c');
  }

  lemma FirstStep(c: Cluster, steps: seq<Step>, d: Discipline, c': Cluster) returns (m: Cluster)
    requires steps != [] && LeadsTo(c, steps, d, c')
    ensures Goes(c, steps[0], d, m) && LeadsTo(m, steps[1..], d, c')
  {
    m :| Goes(c, steps[0], d, m) && LeadsTo(m, steps[1..], d, c');
  }

  lemma {:induction false} LeadsJoin(a: Cluster, steps: seq<Step>, d: Discipline, b: Cluster, more: seq<Step>,
                                     c: Cluster)
    requires LeadsTo(a, steps, d, b) && LeadsTo(b, more, d, c)
    ensures LeadsTo(a, steps + more, d, c)
    decreases |steps|
  {
    if steps == [] {
      assert steps + more == more;
    } else {
      var m := FirstStep(a, steps, d, b);
      LeadsJoin(m, steps[1..], d, b, more, c);
      assert (steps + more)[1..] == steps[1..] + more;
    }
  }

  /** An event that no discipline restricts. */
  lemma Proceed(c: Cluster, d: Discipline, n: NodeId, e: Event)
    requires Enabled(c, n, e) && (e.Timeout? || e.AnswerVote? || e.Win? || e.Propose?)
    ensures LeadsTo(c, [Run(n, e)], d, Handle(c, n, e))
  {
    LeadsOnce(c, Run(n, e), d, Handle(c, n, e));
  }

  /** n is a candidate and has asked for votes, its own included. */
  ghost predicate Standing(c: Cluster, n: NodeId, vote: VoteRequest) {
    && n in c.nodes && c.nodes[n].role == Candidate && vote == Candidacy(c.nodes[n], n)
    && VoteCall(vote) in c.net && VoteReply(n, vote, VoteResponse(vote.term, true), c.nodes[n].log) in c.net
  }

  lemma TimeoutStands(c: Cluster, n: NodeId)
    requires n in c.nodes
    ensures var c' := Handle(c, n, Timeout);
            && Standing(c', n, Candidacy(c'.nodes[n], n)) && c'.nodes == c.nodes[n := c.nodes[n].BecomeCandidate(n)]
  {
  }

  /** Only its term, its vote and its role set the node apart from what it was. */
  ghost predicate SameEnd(s: NodeState, s': NodeState) {
    s'.log == s.log && s'.logOffset == s.logOffset && s'.snapshot == s.snapshot
  }

  /** n stands for election, in a term as high as need be. */
  lemma {:induction false} Stand(c: Cluster, n: NodeId, top: nat, d: Discipline)
    returns (steps: seq<Step>, c': Cluster)
    requires n in c.nodes
    ensures LeadsTo(c, steps, d, c') && c'.nodes.Keys == c.nodes.Keys
    ensures forall k :: k in c.nodes && k != n ==> c'.nodes[k] == c.nodes[k]
    ensures Standing(c', n, Candidacy(c'.nodes[n], n)) && c'.nodes[n].currentTerm > top
    ensures SameEnd(c.nodes[n], c'.nodes[n])
    decreases Max(top, c.nodes[n].currentTerm) - c.nodes[n].currentTerm
  {
    var c1 := Handle(c, n, Timeout);
    TimeoutStands(c, n);
    Proceed(c, d, n, Timeout);
    if c1.nodes[n].currentTerm > top {
      steps, c' := [Run(n, Timeout)], c1;
    } else {
      var more;
      more, c' := Stand(c1, n, top, d);
      steps := [Run(n, Timeout)] + more;
      LeadsJoin(c, [Run(n, Timeout)], d, c1, more, c');
    }
  }

  ghost predicate Voted(c: Cluster, vote: VoteRequest, v: NodeId) {
    exists log: seq<LogEntry> :: VoteReply(v, vote, VoteResponse(vote.term, true), log) in c.net
  }

  lemma AnswerVotes(c: Cluster, v: NodeId, vote: VoteRequest)
    requires v in c.nodes && Grants(c.nodes[v], vote)
    ensures var c' := Handle(c, v, AnswerVote(vote));
            && Voted(c', vote, v) && c.net <= c'.net && c'.nodes.Keys == c.nodes.Keys
            && c'.nodes[v].currentTerm <= vote.term
            && forall k :: k in c.nodes && k != v ==> c'.nodes[k] == c.nodes[k]
  {
    var m := VoteReply(v, vote, VoteResponse(vote.term, true), c.nodes[v].log);
    assert HandleRequestVote(c.nodes[v], vote).1 == VoteResponse(vote.term, true);
    assert m in Handle(c, v, AnswerVote(vote)).net;
  }

  lemma VotedStays(c: Cluster, c': Cluster, vote: VoteRequest, v: NodeId)
    requires Voted(c, vote, v) && c.net <= c'.net
    ensures Voted(c', vote, v)
  {
    var log: seq<LogEntry> :| VoteReply(v, vote, VoteResponse(vote.term, true), log) in c.net;
    assert VoteReply(v, vote, VoteResponse(vote.term, true), log) in c'.net;
  }

  /** The voters answer one after the other. */
  lemma {:induction false} Poll(c: Cluster, n: NodeId, vote: VoteRequest, voters: set<NodeId>, d: Discipline)
    returns (steps: seq<Step>, c': Cluster)
    requires Standing(c, n, vote) && voters <= c.nodes.Keys - {n}
    requires forall v :: v in voters ==> Grants(c.nodes[v], vote)
    ensures LeadsTo(c, steps, d, c') && c'.nodes.Keys == c.nodes.Keys && c.net <= c'.net
    ensures Standing(c', n, vote) && c'.nodes[n] == c.nodes[n]
    ensures forall v :: v in voters ==> Voted(c', vote, v) && c'.nodes[v].currentTerm <= vote.term
    ensures forall v :: v in c.nodes && v !in voters ==> c'.nodes[v] == c.nodes[v]
    decreases voters
  {
    if voters == {} {
      steps, c' := [], c;
    } else {
      var v :| v in voters;
      var c1 := Handle(c, v, AnswerVote(vote));
      AnswerVotes(c, v, vote);
      Proceed(c, d, v, AnswerVote(vote));
      var more;
      more, c' := Poll(c1, n, vote, voters - {v}, d);
      steps := [Run(v, AnswerVote(vote))] + more;
      LeadsJoin(c, [Run(v, AnswerVote(vote))], d, c1, more, c');
      VotedStays(c1, c', vote, v);
    }
  }

  /** n leads and knows nothing yet of what its peers hold. */
  ghost predicate Seated(c: Cluster, n: NodeId) {
    && n in c.nodes && c.nodes[n].role == Leader
    && IsUniform(c.nodes[n].nextIndex, c.nodes.Keys - {n}, c.nodes[n].LastLogIndex() + 1)
    && IsUniform(c.nodes[n].matchIndex, c.nodes.Keys - {n}, 0)
  }

  lemma Prevail(c: Cluster, n: NodeId, vote: VoteRequest, voters: set<NodeId>, d: Discipline)
    returns (steps: seq<Step>, c': Cluster)
    requires Standing(c, n, vote) && n in voters && voters <= c.nodes.Keys && 2 * |voters| > |c.nodes|
    requires forall v :: v in voters ==> Voted(c, vote, v)
    ensures LeadsTo(c, steps, d, c') && c'.nodes.Keys == c.nodes.Keys
    ensures c'.nodes[n].currentTerm == vote.term && SameEnd(c.nodes[n], c'.nodes[n]) && Seated(c', n)
    ensures forall v :: v in c.nodes && v != n ==> c'.nodes[v] == c.nodes[v]
  {
    var logs := CompactedCluster.GatherLogs(c, vote, voters);
    assert HasQuorum(c, n, vote, logs);
    Proceed(c, d, n, Win(vote, logs));
    steps, c' := [Run(n, Win(vote, logs))], Handle(c, n, Win(vote, logs));
  }

  /** A candidate whom the group grants leads it. */
  lemma Canvass(c: Cluster, n: NodeId, vote: VoteRequest, group: set<NodeId>, d: Discipline)
    returns (steps: seq<Step>, c': Cluster)
    requires Standing(c, n, vote) && n in group && group <= c.nodes.Keys && 2 * |group| > |c.nodes|
    requires forall v :: v in group - {n} ==> Grants(c.nodes[v], vote)
    ensures LeadsTo(c, steps, d, c') && c'.nodes.Keys == c.nodes.Keys
    ensures Seated(c', n) && c'.nodes[n].currentTerm == vote.term && SameEnd(c.nodes[n], c'.nodes[n])
    ensures forall v :: v in group ==> c'.nodes[v].currentTerm <= vote.term
  {
    var s1, c1 := Poll(c, n, vote, group - {n}, d);
    assert Voted(c1, vote, n);
    assert |c1.nodes| == |c1.nodes.Keys| == |c.nodes.Keys| == |c.nodes|;
    var s2, c2 := Prevail(c1, n, vote, group, d);
    LeadsJoin(c, s1, d, c1, s2, c2);
    steps, c' := s1 + s2, c2;
  }

  lemma {:induction false} HighestTerm(nodes: map<NodeId, NodeState>, group: set<NodeId>) returns (top: nat)
    requires group <= nodes.Keys
    ensures forall v :: v in group ==> nodes[v].currentTerm <= top
    decreases group
  {
    if group == {} {
      top := 0;
    } else {
      var v :| v in group;
      var t := HighestTerm(nodes, group - {v});
      top := Max(t, nodes[v].currentTerm);
    }
  }

  /** From any state, reachable or not, and whatever a run has to observe, any majority of the
      nodes can elect one of its members, which keeps its log, in a term new to them all. */
  lemma Electable(c: Cluster, group: set<NodeId>, d: Discipline) returns (steps: seq<Step>, c': Cluster, b: NodeId)
    requires group <= c.nodes.Keys && 2 * |group| > |c.nodes|
    ensures LeadsTo(c, steps, d, c') && b in group && b in c.nodes && c'.nodes.Keys == c.nodes.Keys
    ensures Seated(c', b) && SameEnd(c.nodes[b], c'.nodes[b])
    ensures forall v :: v in group ==> c.nodes[v].currentTerm < c'.nodes[b].currentTerm
    ensures forall v :: v in group ==> c'.nodes[v].currentTerm <= c'.nodes[b].currentTerm
  {
    b := SomeFavoured(c.nodes, group);
    var top := HighestTerm(c.nodes, group);
    var s1, c1 := Stand(c, b, top, d);
    var vote := Candidacy(c1.nodes[b], b);
    assert vote == Ask(c.nodes[b], b, vote.term);
    forall v | v in group - {b} ensures Grants(c1.nodes[v], vote) {
      assert c1.nodes[v] == c.nodes[v];
    }
    assert |c1.nodes| == |c1.nodes.Keys| == |c.nodes.Keys| == |c.nodes|;
    var s2, c2 := Canvass(c1, b, vote, group, d);
    LeadsJoin(c, s1, d, c1, s2, c2);
    steps, c' := s1 + s2, c2;
  }

  // ----- runs ----------------------------------------------------------------------------------------------

  lemma RunOnce(run: seq<Cluster>, steps: seq<Step>, d: Discipline, step: Step, c: Cluster)
    requires Necessity.Grown(run, steps, d) && Goes(run[|run| - 1], step, d, c)
    ensures Necessity.Grown(run + [c], steps + [step], d)
  {
    assert Asked(0);
    assert IsNext(run + [c], steps + [step], d, |steps|);
    Necessity.Extended(run, steps, d, c, step);
  }

  lemma {:induction false} RunOn(run: seq<Cluster>, steps: seq<Step>, d: Discipline, more: seq<Step>, c': Cluster)
    returns (run': seq<Cluster>)
    requires Necessity.Grown(run, steps, d) && LeadsTo(run[|run| - 1], more, d, c')
    ensures Necessity.Grown(run', steps + more, d) && run <= run' && run'[|run'| - 1] == c'
    decreases |more|
  {
    if more == [] {
      run' := run;
      assert steps + more == steps;
    } else {
      var c := FirstStep(run[|run| - 1], more, d, c');
      RunOnce(run, steps, d, more[0], c);
      run' := RunOn(run + [c], steps + [more[0]], d, more[1..], c');
      assert steps + [more[0]] + more[1..] == steps + more;
    }
  }

  /** Every run, whatever it observes, goes on to one in which the majority has a leader. */
  lemma ElectableRun(run: seq<Cluster>, steps: seq<Step>, d: Discipline, group: set<NodeId>)
    returns (run': seq<Cluster>, steps': seq<Step>, b: NodeId)
    requires IsRun(run, steps, d) && group <= run[|run| - 1].nodes.Keys && 2 * |group| > |run[|run| - 1].nodes|
    ensures IsRun(run', steps', d) && run <= run' && steps <= steps'
    ensures b in group && b in run'[|run'| - 1].nodes && run'[|run'| - 1].nodes[b].role == Leader
  {
    var more, c';
    more, c', b := Electable(run[|run| - 1], group, d);
    run' := RunOn(run, steps, d, more, c');
    steps' := steps + more;
    assert Asked(0);
  }
}
