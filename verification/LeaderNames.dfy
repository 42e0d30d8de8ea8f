/** Whom a node names as leader, which is where it sends its clients. */
module LeaderNames {
  import opened Types
  import opened RaftSpec
  import opened Cluster
  import opened Elections
  import opened RaftSafety

  /** Whoever is heard in a term not below its own is named, and nobody else. */
  lemma NamesSender(s: NodeState, req: AppendRequest)
    ensures HandleAppendEntries(s, req).0.leaderId ==
            if req.term >= s.currentTerm then Some(req.leaderId) else s.leaderId
  {
  }

  lemma NamesInstaller(s: NodeState, req: InstallRequest)
    ensures HandleInstallSnapshot(s, req).leaderId ==
            if req.term >= s.currentTerm then Some(req.leaderId) else s.leaderId
  {
  }

  // ----- every name is that of a winner --------------------------------------------------------------

  ghost predicate WonBy(c: Cluster, l: NodeId, top: nat) {
    exists t :: t in c.elections && t <= top && c.elections[t].vote.candidateId == l
  }

  ghost predicate NameOf(c: Cluster, n: NodeId, s: NodeState) {
    && (s.leaderId.Some? ==> WonBy(c, s.leaderId.value, s.currentTerm))
    && (s.role == Candidate ==> s.leaderId == None)
    && (s.role == Leader ==> s.leaderId == Some(n))
    && (s.role == Follower ==> s.votesReceived == 0)
  }

  ghost predicate Names(c: Cluster) {
    forall n :: n in c.nodes ==> NameOf(c, n, c.nodes[n])
  }

  lemma WonByStays(c: Cluster, c': Cluster, l: NodeId, top: nat, top': nat)
    requires WonBy(c, l, top) && ElectionsKept(c, c') && top <= top'
    ensures WonBy(c', l, top')
  {
    var t :| t in c.elections && t <= top && c.elections[t].vote.candidateId == l;
    assert t in c'.elections && c'.elections[t] == c.elections[t];
  }

  /** A handler keeps the name, forgets it, or takes the name of a winner. */
  ghost predicate Renames(c: Cluster, n: NodeId, s: NodeState, s': NodeState) {
    && s'.currentTerm >= s.currentTerm
    && (s'.leaderId == s.leaderId || s'.leaderId == None
        || (s'.leaderId.Some? && WonBy(c, s'.leaderId.value, s'.currentTerm)))
    && (s'.role == Candidate ==> s'.leaderId == None)
    && (s'.role == Leader ==> s'.leaderId == Some(n))
    && (s'.role == Follower ==> s'.votesReceived == 0)
  }

  lemma CallNamesWinner(c: Cluster, n: NodeId, req: AppendRequest)
    requires CallsFromLeaders(c) && AppendCall(n, req) in c.net
    ensures req.term in c.elections && c.elections[req.term].vote.candidateId == req.leaderId
    ensures WonBy(c, req.leaderId, req.term)
  {
    var m := AppendCall(n, req);
    assert m in c.net && m.AppendCall?;
  }

  lemma AppendRenames(c: Cluster, n: NodeId, req: AppendRequest)
    requires CallsFromLeaders(c) && n in c.nodes && AppendCall(n, req) in c.net && NameOf(c, n, c.nodes[n])
    ensures Renames(c, n, c.nodes[n], HandleAppendEntries(c.nodes[n], req).0)
  {
    NamesSender(c.nodes[n], req);
    CallNamesWinner(c, n, req);
    AppendRole(c.nodes[n], req);
  }

  lemma AppendRole(s: NodeState, req: AppendRequest)
    ensures var s' := HandleAppendEntries(s, req).0;
            if req.term < s.currentTerm then s' == s
            else s'.role == Follower && s'.currentTerm == req.term
                 && (s'.votesReceived == 0 || (s.role == Follower && s'.votesReceived == s.votesReceived))
  {
  }

  lemma ReplyRenames(c: Cluster, n: NodeId, f: NodeId, r: AppendResponse)
    requires n in c.nodes && NameOf(c, n, c.nodes[n])
    ensures Renames(c, n, c.nodes[n], HandleAppendReply(c.nodes[n], f, r))
  {
  }

  lemma VoteRenames(c: Cluster, n: NodeId, vote: VoteRequest)
    requires n in c.nodes && NameOf(c, n, c.nodes[n])
    ensures Renames(c, n, c.nodes[n], HandleRequestVote(c.nodes[n], vote).0)
  {
  }

  lemma ReactRenames(c: Cluster, n: NodeId, e: Event)
    requires CallsFromLeaders(c) && Enabled(c, n, e) && Monotone(c, n, e) && !e.Win? && NameOf(c, n, c.nodes[n])
    ensures Renames(c, n, c.nodes[n], React(c, n, e))
  {
    match e
    case AnswerVote(vote) => VoteRenames(c, n, vote);
    case TakeAppend(append) => AppendRenames(c, n, append);
    case TakeReply(f, _, r) => ReplyRenames(c, n, f, r);
    case _ =>
  }

  lemma NameOfStays(c: Cluster, c': Cluster, n: NodeId, s: NodeState)
    requires NameOf(c, n, s) && ElectionsKept(c, c')
    ensures NameOf(c', n, s)
  {
    if s.leaderId.Some? {
      WonByStays(c, c', s.leaderId.value, s.currentTerm, s.currentTerm);
    }
  }

  lemma RenamedIsNamed(c: Cluster, c': Cluster, n: NodeId, s: NodeState, s': NodeState)
    requires NameOf(c, n, s) && Renames(c, n, s, s') && ElectionsKept(c, c')
    ensures NameOf(c', n, s')
  {
    if s'.leaderId.Some? {
      WonByStays(c, c', s'.leaderId.value,
                 if s'.leaderId == s.leaderId then s.currentTerm else s'.currentTerm, s'.currentTerm);
    }
  }

  lemma WinnerNamed(c: Cluster, n: NodeId, e: Event)
    requires Enabled(c, n, e) && e.Win?
    ensures NameOf(Handle(c, n, e), n, React(c, n, e))
  {
    var c' := Handle(c, n, e);
    assert e.vote.term in c'.elections && c'.elections[e.vote.term].vote.candidateId == n;
    assert WonBy(c', n, React(c, n, e).currentTerm);
  }

  lemma CrashNamed(c: Cluster, step: Step)
    requires step.Crash? && step.node in c.nodes
    ensures NameOf(Do(c, step), step.node, Do(c, step).nodes[step.node])
  {
  }

  lemma StepNamed(c: Cluster, step: Step)
    requires Names(c) && CallsFromLeaders(c) && Enabled(c, step.node, step.event) && Steady(c, step)
    requires ElectionsKept(c, Do(c, step))
    ensures NameOf(Do(c, step), step.node, Do(c, step).nodes[step.node])
  {
    var n, e := step.node, step.event;
    if step.Crash? {
      CrashNamed(c, step);
    } else if e.Win? {
      WinnerNamed(c, n, e);
    } else {
      ReactRenames(c, n, e);
      RenamedIsNamed(c, Do(c, step), n, c.nodes[n], React(c, n, e));
    }
  }

  lemma NamesStep(c: Cluster, step: Step)
    requires Names(c) && CallsFromLeaders(c) && Enabled(c, step.node, step.event) && Steady(c, step)
    requires ElectionsKept(c, Do(c, step))
    ensures Names(Do(c, step))
  {
    var c' := Do(c, step);
    StepNamed(c, step);
    forall k | k in c'.nodes ensures NameOf(c', k, c'.nodes[k]) {
      if k != step.node {
        NameOfStays(c, c', k, c.nodes[k]);
      }
    }
  }

  // ----- runs -------------------------------------------------------------------------------------------

  /** Closed until asked for. */
  ghost predicate Named(c: Cluster) {
    forall k: nat :: Asked(k) ==> Names(c)
  }

  lemma NamedNext(run: seq<Cluster>, steps: seq<Step>, d: Discipline, i: nat)
    requires IsRun(run, steps, d) && !d.Unrestricted? && 0 < i < |run| && Named(run[i - 1])
    ensures Named(run[i])
  {
    assert Asked(0);
    assert CallsFromLeaders(run[i - 1]) by { InvRun(run, steps, d, i - 1); }
    assert ElectionsKept(run[i - 1], run[i]) by { ExtendsRun(run, steps, d, i - 1, i); }
    assert Allowed(run[i - 1], steps[i - 1], d) && run[i] == Do(run[i - 1], steps[i - 1]) by {
      assert IsNext(run, steps, d, i - 1);
    }
    NamesStep(run[i - 1], steps[i - 1]);
  }

  lemma {:induction false} NamedRun(run: seq<Cluster>, steps: seq<Step>, d: Discipline, i: nat)
    requires IsRun(run, steps, d) && !d.Unrestricted? && i < |run|
    ensures Named(run[i])
    decreases i
  {
    if i > 0 {
      NamedRun(run, steps, d, i - 1);
      NamedNext(run, steps, d, i);
    } else {
      var ids :| run[0] == Init(ids);
    }
  }

  /** Over every run: a leader names itself, a candidate nobody, and whoever is named has won a
      term that the node has reached. */
  lemma NamesWinners(run: seq<Cluster>, steps: seq<Step>, d: Discipline, i: nat, n: NodeId)
    requires IsRun(run, steps, d) && !d.Unrestricted? && i < |run| && n in run[i].nodes
    ensures var s := run[i].nodes[n];
            && (s.role == Leader ==> s.leaderId == Some(n)) && (s.role == Candidate ==> s.leaderId == None)
            && (s.leaderId.Some? ==> WonBy(run[i], s.leaderId.value, s.currentTerm))
            && (s.role == Follower ==> s.votesReceived == 0)
  {
    NamedRun(run, steps, d, i);
    assert Asked(0);
  }

  /** The node names the winner of its term. */
  ghost predicate Knows(c: Cluster, n: NodeId, t: nat) {
    && n in c.nodes && c.nodes[n].currentTerm == t && t in c.elections
    && c.nodes[n].leaderId == Some(c.elections[t].vote.candidateId)
  }

  lemma SameTermName(c: Cluster, n: NodeId, e: Event)
    requires n in c.nodes && !e.Win? && !e.TakeAppend? && React(c, n, e).currentTerm == c.nodes[n].currentTerm
    ensures React(c, n, e).leaderId == c.nodes[n].leaderId
  {
  }

  lemma KnowsOn(c: Cluster, step: Step, n: NodeId, t: nat)
    requires Knows(c, n, t) && CallsFromLeaders(c) && Enabled(c, step.node, step.event)
    requires ElectionsKept(c, Do(c, step)) && Do(c, step).nodes[n].currentTerm == t && (step.Run? || step.node != n)
    ensures Knows(Do(c, step), n, t)
  {
    if step.node == n {
      var e := step.event;
      if e.Win? {
        WinnerNamed(c, n, e);
      } else if e.TakeAppend? {
        NamesSender(c.nodes[n], e.append);
        CallNamesWinner(c, n, e.append);
        AppendRole(c.nodes[n], e.append);
      } else {
        SameTermName(c, n, e);
      }
    }
  }

  lemma Learns(c: Cluster, n: NodeId, req: AppendRequest)
    requires CallsFromLeaders(c) && Enabled(c, n, TakeAppend(req)) && req.term >= c.nodes[n].currentTerm
    ensures var c' := Handle(c, n, TakeAppend(req));
            Knows(c', n, req.term) && c'.nodes[n].leaderId == Some(req.leaderId)
  {
    NamesSender(c.nodes[n], req);
    CallNamesWinner(c, n, req);
    AppendRole(c.nodes[n], req);
  }

  /** Between the two moments the node neither leaves the term nor restarts. */
  ghost predicate Stays(run: seq<Cluster>, steps: seq<Step>, n: NodeId, t: nat, i: nat, j: nat)
    requires j < |run| && |run| == |steps| + 1
  {
    && (forall k :: i <= k <= j ==> n in run[k].nodes && run[k].nodes[n].currentTerm == t)
    && (forall k :: i <= k < j ==> steps[k].Run? || steps[k].node != n)
  }

  lemma {:induction false} KnowsRun(run: seq<Cluster>, steps: seq<Step>, d: Discipline, i: nat, j: nat, n: NodeId,
                                    t: nat)
    requires IsRun(run, steps, d) && !d.Unrestricted? && i <= j < |run| && Knows(run[i], n, t)
    requires Stays(run, steps, n, t, i, j)
    ensures Knows(run[j], n, t)
    decreases j
  {
    if i < j {
      KnowsRun(run, steps, d, i, j - 1, n, t);
      KnowsNext(run, steps, d, j, n, t);
    }
  }

  lemma KnowsNext(run: seq<Cluster>, steps: seq<Step>, d: Discipline, j: nat, n: NodeId, t: nat)
    requires IsRun(run, steps, d) && !d.Unrestricted? && 0 < j < |run| && Knows(run[j - 1], n, t)
    requires n in run[j].nodes && run[j].nodes[n].currentTerm == t && (steps[j - 1].Run? || steps[j - 1].node != n)
    ensures Knows(run[j], n, t)
  {
    assert CallsFromLeaders(run[j - 1]) by { InvRun(run, steps, d, j - 1); }
    assert ElectionsKept(run[j - 1], run[j]) by { ExtendsRun(run, steps, d, j - 1, j); }
    assert Allowed(run[j - 1], steps[j - 1], d) && run[j] == Do(run[j - 1], steps[j - 1]) by {
      assert IsNext(run, steps, d, j - 1);
    }
    KnowsOn(run[j - 1], steps[j - 1], n, t);
  }

  lemma Learnt(run: seq<Cluster>, steps: seq<Step>, d: Discipline, i: nat, n: NodeId, req: AppendRequest)
    requires IsRun(run, steps, d) && !d.Unrestricted? && i < |steps| && steps[i] == Run(n, TakeAppend(req))
    requires n in run[i].nodes && req.term >= run[i].nodes[n].currentTerm
    ensures Knows(run[i + 1], n, req.term) && run[i + 1].nodes[n].leaderId == Some(req.leaderId)
  {
    assert CallsFromLeaders(run[i]) by { InvRun(run, steps, d, i); }
    assert Enabled(run[i], n, TakeAppend(req)) && run[i + 1] == Handle(run[i], n, TakeAppend(req)) by {
      assert IsNext(run, steps, d, i);
    }
    Learns(run[i], n, req);
  }

  lemma WinnerIsLeader(c: Cluster, c': Cluster, t: nat, l: NodeId)
    requires ElectionsKept(c, c') || ElectionsKept(c', c)
    requires t in c.elections && LeadersElected(c')
    requires l in c'.nodes && c'.nodes[l].role == Leader && c'.nodes[l].currentTerm == t
    ensures c.elections[t].vote.candidateId == l
  {
  }

  /** A name learnt from a request is the sender's, and as long as the node neither leaves the
      term nor restarts it is that of any node that leads the term, at any moment of the run. */
  lemma NamesTheLeader(run: seq<Cluster>, steps: seq<Step>, d: Discipline, i: nat, n: NodeId, req: AppendRequest,
                       j: nat, p: nat, l: NodeId)
    requires IsRun(run, steps, d) && !d.Unrestricted? && i < |steps| && steps[i] == Run(n, TakeAppend(req))
    requires n in run[i].nodes && req.term >= run[i].nodes[n].currentTerm
    requires i < j < |run| && Stays(run, steps, n, req.term, i + 1, j)
    requires p < |run| && l in run[p].nodes && run[p].nodes[l].role == Leader && run[p].nodes[l].currentTerm == req.term
    ensures run[i + 1].nodes[n].leaderId == Some(req.leaderId) == run[j].nodes[n].leaderId && req.leaderId == l
  {
    Learnt(run, steps, d, i, n, req);
    KnowsRun(run, steps, d, i + 1, j, n, req.term);
    assert LeadersElected(run[p]) by { InvRun(run, steps, d, p); }
    KeptEitherWay(run, steps, d, i + 1, p);
    KeptEitherWay(run, steps, d, j, p);
    WinnerIsLeader(run[i + 1], run[p], req.term, l);
    WinnerIsLeader(run[j], run[p], req.term, l);
  }

  lemma KeptEitherWay(run: seq<Cluster>, steps: seq<Step>, d: Discipline, i: nat, j: nat)
    requires IsRun(run, steps, d) && !d.Unrestricted? && i < |run| && j < |run|
    ensures ElectionsKept(run[i], run[j]) || ElectionsKept(run[j], run[i])
  {
    if i <= j {
      ExtendsRun(run, steps, d, i, j);
    } else {
      ExtendsRun(run, steps, d, j, i);
    }
  }
}
