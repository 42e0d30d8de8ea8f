/** Commits: the leader's counting rule and what followers make of it. */
module Commits {
  import opened Types
  import opened RaftSpec
  import opened CommitRule
  import opened Cluster
  import opened Elections
  import opened Logs
  import opened Acknowledgements

  ghost predicate CommitsCounted(c: Cluster) {
    forall k :: k in c.commits ==> Counted(c, k.term, k.index, k.holders)
  }

  /** Commit k covers the first x entries of the log of a node in the given term. */
  ghost predicate Covered(c: Cluster, k: Commit, log: Log, term: nat, x: nat) {
    && k in c.commits && k.index >= x && k.term <= term
    && k.term in c.hist && Agree(log, c.hist[k.term], x)
  }

  ghost predicate CommittedThrough(c: Cluster, log: Log, term: nat, x: nat) {
    x == 0 || exists k :: Covered(c, k, log, term, x)
  }

  ghost predicate NodesCommitted(c: Cluster) {
    forall n :: n in c.nodes ==>
      CommittedThrough(c, c.nodes[n].log, c.nodes[n].currentTerm, c.nodes[n].commitIndex)
  }

  ghost predicate CallsCommitted(c: Cluster) {
    forall m :: m in c.net && m.AppendCall? ==>
      m.append.term in c.hist && CommittedThrough(c, c.hist[m.append.term], m.append.term, m.append.leaderCommit)
  }

  ghost predicate CommitInv(c: Cluster) {
    NodesCommitted(c) && CallsCommitted(c)
  }

  // ----- a leader's commit is counted ------------------------------------------------

  lemma CountedGrows(c: Cluster, c': Cluster, t: nat, i: nat, holders: set<NodeId>)
    requires Counted(c, t, i, holders)
    requires Grows(c.hist, c'.hist) && c.acks <= c'.acks && c'.nodes.Keys == c.nodes.Keys
    ensures Counted(c', t, i, holders)
  {
    assert |c'.nodes| == |c'.nodes.Keys| == |c.nodes.Keys| == |c.nodes|;
    forall f | f in holders
      ensures Acked(c', f, t, i)
    {
      var a :| a in c.acks && a.node == f && a.term == t && a.upTo >= i;
      assert a in c'.acks;
    }
  }

  /** What it takes for the commit rule to pick an index of the leader's own term. */
  lemma PickedIsCounted(c: Cluster, n: NodeId, k: nat)
    requires n in c.nodes && c.nodes[n].role == Leader && GoodLog(c.hist, c.nodes[n]) && Backed(c, n)
    requires 1 <= k <= |c.nodes[n].log| && c.nodes[n].log[k - 1].term == c.nodes[n].currentTerm
    requires IsCommitPoint(c.nodes[n].matchIndex, |c.nodes[n].log|, k)
    ensures Counted(c, c.nodes[n].currentTerm, k, Holders(c.nodes[n].matchIndex, k) + {n})
  {
    var s := c.nodes[n];
    var peers := Holders(s.matchIndex, k);
    assert |s.matchIndex.Keys| == |s.matchIndex| && |c.nodes.Keys| == |c.nodes|;
    assert c.nodes.Keys == s.matchIndex.Keys + {n};
    assert n !in peers;
    forall f | f in peers + {n}
      ensures Acked(c, f, s.currentTerm, k)
    {
      if f == n {
        var a := Ack(n, s.currentTerm, |s.log|);
        assert a in c.acks;
      }
    }
  }

  lemma ReplyCommits(s: NodeState, follower: NodeId, result: AppendResponse)
    requires Plain(s)
    ensures var s' := HandleAppendReply(s, follower, result);
            && s'.log == s.log && s'.logOffset == s.logOffset
            && s'.currentTerm >= s.currentTerm
            && (s'.commitIndex != s.commitIndex ==>
                  && s'.role == Leader && s'.currentTerm == s.currentTerm
                  && s.commitIndex < s'.commitIndex <= |s.log|
                  && s.log[s'.commitIndex - 1].term == s.currentTerm
                  && IsCommitPoint(s'.matchIndex, |s.log|, s'.commitIndex))
  {
  }

  /** The one commit a counted reply puts on record. */
  ghost predicate RecordsPick(c: Cluster, c': Cluster, n: NodeId) {
    forall k :: k in c'.commits && k !in c.commits ==>
      && n in c.nodes && n in c'.nodes && c'.nodes[n].commitIndex > c.nodes[n].commitIndex
      && k == Commit(c'.nodes[n].currentTerm, c'.nodes[n].commitIndex,
                     Holders(c'.nodes[n].matchIndex, c'.nodes[n].commitIndex) + {n})
  }

  lemma ReplyRecordsPick(c: Cluster, n: NodeId, e: Event)
    requires e.TakeReply? && n in c.nodes
    ensures RecordsPick(c, Handle(c, n, e), n)
    ensures Handle(c, n, e).nodes[n] == HandleAppendReply(c.nodes[n], e.follower, e.result)
  {
  }

  lemma NewCommitsCounted(c: Cluster, c': Cluster, n: NodeId, follower: NodeId, result: AppendResponse)
    requires LogInv(c) && LogInv(c') && n in c.nodes && n in c'.nodes && RecordsPick(c, c', n)
    requires c'.nodes[n] == HandleAppendReply(c.nodes[n], follower, result)
    requires c'.nodes[n].role == Leader ==> Backed(c', n)
    ensures forall k :: k in c'.commits && k !in c.commits ==> Counted(c', k.term, k.index, k.holders)
  {
    assert GoodLog(c.hist, c.nodes[n]) && GoodLog(c'.hist, c'.nodes[n]);
    ReplyCommits(c.nodes[n], follower, result);
    if c'.nodes[n].commitIndex > c.nodes[n].commitIndex {
      PickedIsCounted(c', n, c'.nodes[n].commitIndex);
    }
  }

  lemma OldCommitsCounted(c: Cluster, c': Cluster)
    requires CommitsCounted(c)
    requires Grows(c.hist, c'.hist) && c.acks <= c'.acks && c'.nodes.Keys == c.nodes.Keys
    requires forall k :: k in c'.commits && k !in c.commits ==> Counted(c', k.term, k.index, k.holders)
    ensures CommitsCounted(c')
  {
    forall k | k in c'.commits
      ensures Counted(c', k.term, k.index, k.holders)
    {
      if k in c.commits {
        CountedGrows(c, c', k.term, k.index, k.holders);
      }
    }
  }

  lemma OnlyRepliesCommit(c: Cluster, step: Step)
    requires step.node in c.nodes
    ensures c.commits <= Do(c, step).commits
    ensures !(step.Run? && step.event.TakeReply?) ==> Do(c, step).commits == c.commits
  {
  }

  lemma CommitsCountedStep(c: Cluster, step: Step)
    requires LogInv(c) && CommitsCounted(c) && Enabled(c, step.node, step.event)
    requires var c' := Do(c, step);
             LogInv(c') && LogStep(c, c', step.node) && OrderStep(c, c', step.node)
    ensures CommitsCounted(Do(c, step))
  {
    var n, c' := step.node, Do(c, step);
    OnlyRepliesCommit(c, step);
    if step.Run? && step.event.TakeReply? {
      ReplyRecordsPick(c, n, step.event);
      NewCommitsCounted(c, c', n, step.event.follower, step.event.result);
    }
    OldCommitsCounted(c, c');
  }

  // ----- followers --------------------------------------------------------------------

  lemma CoveredGrows(c: Cluster, c': Cluster, log: Log, log': Log, term: nat, term': nat, x: nat)
    requires CommittedThrough(c, log, term, x)
    requires c.commits <= c'.commits && Grows(c.hist, c'.hist)
    requires x <= |log| ==> Agree(log', log, x)
    requires term <= term'
    ensures CommittedThrough(c', log', term', x)
  {
    if x != 0 {
      var k :| Covered(c, k, log, term, x);
      assert Covered(c', k, log', term', x);
    }
  }

  /** No leader from the commit's term on lacks a committed entry. */
  ghost predicate Complete(c: Cluster) {
    forall k, u :: k in c.commits && u in c.hist && u >= k.term ==>
      k.term in c.hist && Agree(c.hist[u], c.hist[k.term], k.index)
  }

  /** All that counting rests on; this and what follows are closed until asked for. */
  ghost predicate Counting(c: Cluster) {
    forall i: nat :: Asked(i) ==> ElectionInv(c) && LogInv(c) && OrderInv(c) && CommitsCounted(c)
  }

  ghost predicate Soundly(c: Cluster, k: Commit) {
    forall i: nat :: Asked(i) ==> ElectionsSound(c) && Counted(c, k.term, k.index, k.holders)
  }

  ghost predicate CarriedOn(c: Cluster, k: Commit, u: nat) {
    forall i: nat :: Asked(i) ==>
      k.term in c.hist && (u in c.hist && u >= k.term ==> Agree(c.hist[u], c.hist[k.term], k.index))
  }

  lemma CountedSoundly(c: Cluster, k: Commit)
    requires Counting(c) && k in c.commits
    ensures Soundly(c, k)
  {
    assert Asked(0);
  }

  lemma CommitCarriedOn(c: Cluster, k: Commit, u: nat)
    requires Soundly(c, k)
    ensures CarriedOn(c, k, u)
  {
    CarriedAtHome(c, k);
    if u in c.hist && u > k.term {
      CarriedLater(c, k, u);
    }
  }

  lemma CarriedAtHome(c: Cluster, k: Commit)
    requires Soundly(c, k)
    ensures k.term in c.hist && Agree(c.hist[k.term], c.hist[k.term], k.index)
  {
    assert Asked(0);
    AgreesWithItself(c.hist[k.term], k.index);
  }

  lemma CarriedLater(c: Cluster, k: Commit, u: nat)
    requires Soundly(c, k) && u in c.hist && u > k.term && k.term in c.hist
    ensures Agree(c.hist[u], c.hist[k.term], k.index)
  {
    assert Asked(0);
    CountedIsInLater(c, k.term, k.index, k.holders, u);
  }

  lemma CommitsComplete(c: Cluster)
    requires Counting(c)
    ensures Complete(c)
  {
    forall k, u | k in c.commits && u in c.hist && u >= k.term
      ensures k.term in c.hist && Agree(c.hist[u], c.hist[k.term], k.index)
    {
      assert CarriedOn(c, k, u) by {
        CountedSoundly(c, k);
        CommitCarriedOn(c, k, u);
      }
      OpenCarried(c, k, u);
    }
  }

  lemma OpenCarried(c: Cluster, k: Commit, u: nat)
    requires CarriedOn(c, k, u) && u in c.hist && u >= k.term
    ensures k.term in c.hist && Agree(c.hist[u], c.hist[k.term], k.index)
  {
    assert Asked(0);
  }

  lemma AgreesWithItself(log: Log, i: nat)
    requires i <= |log|
    ensures Agree(log, log, i)
  {
  }

  /** A step that keeps what log and leaders share keeps what is committed. */
  lemma CommittedKept(c: Cluster, s: NodeState, s': NodeState, x: nat)
    requires Complete(c)
    requires Kept(c.hist, s, s') && CommittedThrough(c, s.log, s.currentTerm, x)
    requires s.currentTerm <= s'.currentTerm
    ensures CommittedThrough(c, s'.log, s'.currentTerm, x)
  {
    if x != 0 {
      var k :| Covered(c, k, s.log, s.currentTerm, x);
      assert Held(c.hist, s'.log, k.term, x, s'.currentTerm);
      assert Covered(c, k, s'.log, s'.currentTerm, x);
    }
  }

  lemma CommittedLess(c: Cluster, log: Log, term: nat, x: nat, y: nat)
    requires CommittedThrough(c, log, term, x) && y <= x
    ensures CommittedThrough(c, log, term, y)
  {
    if y != 0 {
      var k :| Covered(c, k, log, term, x);
      assert Covered(c, k, log, term, y);
    }
  }

  /** A raised commit index is covered when the entry there has the sender's term. */
  lemma RaisedIsCommitted(c: Cluster, s': NodeState, req: AppendRequest, x: nat)
    requires GoodLog(c.hist, s') && IsHistory(c.hist, req.term) && req.term <= s'.currentTerm
    requires CommittedThrough(c, c.hist[req.term], req.term, req.leaderCommit)
    requires 1 <= x <= req.leaderCommit && x <= |s'.log| && x <= |c.hist[req.term]|
    requires s'.log[x - 1].term == c.hist[req.term][x - 1].term
    ensures CommittedThrough(c, s'.log, s'.currentTerm, x)
  {
    SameTermAgree(c.hist, s'.log, c.hist[req.term], x);
    var k :| Covered(c, k, c.hist[req.term], req.term, req.leaderCommit);
    assert Covered(c, k, s'.log, s'.currentTerm, x);
  }

  lemma HandlerCommit(s: NodeState, req: AppendRequest)
    ensures var (s', r) := HandleAppendEntries(s, req);
            && s'.currentTerm >= req.term && s'.currentTerm >= s.currentTerm
            && (s'.commitIndex > s.commitIndex ==> s'.commitIndex <= req.leaderCommit)
  {
  }

  lemma HandledCommitted(c: Cluster, s: NodeState, req: AppendRequest, s': NodeState)
    requires Complete(c) && Kept(c.hist, s, s')
    requires GoodLog(c.hist, s') && IsHistory(c.hist, req.term)
    requires s'.currentTerm >= req.term && s'.currentTerm >= s.currentTerm
    requires s'.commitIndex > s.commitIndex ==>
               && s'.commitIndex <= req.leaderCommit
               && s'.commitIndex <= |c.hist[req.term]| && s'.commitIndex <= |s'.log|
               && s'.log[s'.commitIndex - 1].term == c.hist[req.term][s'.commitIndex - 1].term
    requires CommittedThrough(c, s.log, s.currentTerm, s.commitIndex)
    requires CommittedThrough(c, c.hist[req.term], req.term, req.leaderCommit)
    ensures CommittedThrough(c, s'.log, s'.currentTerm, s'.commitIndex)
  {
    if s'.commitIndex > s.commitIndex {
      RaisedIsCommitted(c, s', req, s'.commitIndex);
    } else {
      CommittedKept(c, s, s', s.commitIndex);
      CommittedLess(c, s'.log, s'.currentTerm, s.commitIndex, s'.commitIndex);
    }
  }

  lemma TakeAppendCommitted(c: Cluster, n: NodeId, e: Event)
    requires LogInv(c) && StrictCalls(c) && Complete(c) && CommitInv(c)
    requires e.TakeAppend? && Enabled(c, n, e) && NotStale(c, n, e) && CommitAgrees(c, n, e)
    ensures var s' := React(c, n, e);
            CommittedThrough(c, s'.log, s'.currentTerm, s'.commitIndex)
  {
    var s, req := c.nodes[n], e.append;
    var m := AppendCall(n, req);
    assert m in c.net && m.AppendCall?;
    TakeAppendKept(c, n, req);
    CallIsFromHistory(c, n, req);
    OutcomeIsGood(c.hist, s, req, HandleAppendEntries(s, req).0, HandleAppendEntries(s, req).1);
    HandlerCommit(s, req);
    HandledCommitted(c, s, req, HandleAppendEntries(s, req).0);
  }

  // ----- every step keeps the invariant -------------------------------------------------

  ghost predicate CommitStep(c: Cluster, c': Cluster, n: NodeId) {
    && n in c.nodes && n in c'.nodes && c.commits <= c'.commits
    && CommittedThrough(c', c'.nodes[n].log, c'.nodes[n].currentTerm, c'.nodes[n].commitIndex)
    && forall m :: m in c'.net && m !in c.net && m.AppendCall? ==>
         && m.append.term in c.hist
         && CommittedThrough(c, c.hist[m.append.term], m.append.term, m.append.leaderCommit)
  }

  lemma QuietCommit(c: Cluster, n: NodeId, e: Event)
    requires n in c.nodes && !e.TakeAppend? && !e.TakeReply?
    ensures React(c, n, e).commitIndex == c.nodes[n].commitIndex && c.nodes[n].log <= React(c, n, e).log
  {
  }

  lemma NewCallsCommitted(c: Cluster, n: NodeId, e: Event, m: Message)
    requires LogInv(c) && NodesCommitted(c) && Enabled(c, n, e) && m in Emit(c, n, e) && m.AppendCall?
    ensures && m.append.term in c.hist
            && CommittedThrough(c, c.hist[m.append.term], m.append.term, m.append.leaderCommit)
  {
    assert GoodLog(c.hist, c.nodes[n]);
  }

  lemma ReplyCommitted(c: Cluster, n: NodeId, e: Event)
    requires LogInv(c) && NodesCommitted(c) && e.TakeReply? && Enabled(c, n, e)
    ensures var c' := Handle(c, n, e);
            CommittedThrough(c', c'.nodes[n].log, c'.nodes[n].currentTerm, c'.nodes[n].commitIndex)
  {
    var c', s := Handle(c, n, e), c.nodes[n];
    var s' := c'.nodes[n];
    assert GoodLog(c.hist, s);
    ReplyCommits(s, e.follower, e.result);
    if s'.commitIndex == s.commitIndex {
      CoveredGrows(c, c', s.log, s.log, s.currentTerm, s'.currentTerm, s.commitIndex);
    } else {
      var k := Commit(s'.currentTerm, s'.commitIndex, Holders(s'.matchIndex, s'.commitIndex) + {n});
      assert Covered(c', k, s'.log, s'.currentTerm, s'.commitIndex);
    }
  }

  lemma NodeCommitted(c: Cluster, n: NodeId, e: Event)
    requires LogInv(c) && StrictCalls(c) && Complete(c) && CommitInv(c)
    requires Enabled(c, n, e) && Observes(c, n, e, Verified)
    requires var c' := Handle(c, n, e);
             Grows(c.hist, c'.hist) && c'.nodes[n].currentTerm >= c.nodes[n].currentTerm
    ensures var c' := Handle(c, n, e);
            CommittedThrough(c', c'.nodes[n].log, c'.nodes[n].currentTerm, c'.nodes[n].commitIndex)
  {
    var c', s := Handle(c, n, e), c.nodes[n];
    var s' := React(c, n, e);
    if e.TakeReply? {
      ReplyCommitted(c, n, e);
    } else if e.TakeAppend? {
      TakeAppendCommitted(c, n, e);
      CoveredGrows(c, c', s'.log, s'.log, s'.currentTerm, s'.currentTerm, s'.commitIndex);
    } else {
      QuietCommit(c, n, e);
      CoveredGrows(c, c', s.log, s'.log, s.currentTerm, s'.currentTerm, s.commitIndex);
    }
  }

  lemma StepIsCommitStep(c: Cluster, step: Step)
    requires LogInv(c) && StrictCalls(c) && Complete(c) && CommitInv(c) && Allowed(c, step, Verified)
    requires var c' := Do(c, step); LogStep(c, c', step.node) && BallotStep(c, c', step.node)
    ensures CommitStep(c, Do(c, step), step.node)
  {
    var n, e, c' := step.node, step.event, Do(c, step);
    OnlyRepliesCommit(c, step);
    if step.Run? {
      NodeCommitted(c, n, e);
      forall m | m in c'.net && m !in c.net && m.AppendCall?
        ensures m.append.term in c.hist
        ensures CommittedThrough(c, c.hist[m.append.term], m.append.term, m.append.leaderCommit)
      {
        NewCallsCommitted(c, n, e, m);
      }
    } else {
      assert GoodLog(c.hist, c.nodes[n]);
      CommittedLess(c, c.nodes[n].log, c.nodes[n].currentTerm, c.nodes[n].commitIndex, step.keeps);
      CoveredGrows(c, c', c.nodes[n].log, c'.nodes[n].log, c.nodes[n].currentTerm, c'.nodes[n].currentTerm, step.keeps);
    }
  }

  lemma CommitInvKept(c: Cluster, c': Cluster, n: NodeId)
    requires CommitInv(c) && LogStep(c, c', n) && CommitStep(c, c', n)
    ensures CommitInv(c')
  {
    forall k | k in c'.nodes
      ensures CommittedThrough(c', c'.nodes[k].log, c'.nodes[k].currentTerm, c'.nodes[k].commitIndex)
    {
      if k != n {
        var s := c.nodes[k];
        CoveredGrows(c, c', s.log, s.log, s.currentTerm, s.currentTerm, s.commitIndex);
      }
    }
    forall m | m in c'.net && m.AppendCall?
      ensures m.append.term in c'.hist
      ensures CommittedThrough(c', c'.hist[m.append.term], m.append.term, m.append.leaderCommit)
    {
      var t := m.append.term;
      CoveredGrows(c, c', c.hist[t], c'.hist[t], t, t, m.append.leaderCommit);
    }
  }

  // ----- agreement -------------------------------------------------------------------------

  /** Two committed prefixes agree as far as both reach. */
  lemma CommittedAgree(c: Cluster, a: Log, ta: nat, x: nat, b: Log, tb: nat, y: nat)
    requires Complete(c)
    requires CommittedThrough(c, a, ta, x) && CommittedThrough(c, b, tb, y)
    ensures Agree(a, b, Min(x, y))
  {
    var z := Min(x, y);
    if z != 0 {
      var k :| Covered(c, k, a, ta, x);
      var l :| Covered(c, l, b, tb, y);
      if k.term <= l.term {
        assert Agree(c.hist[l.term], c.hist[k.term], k.index);
      } else {
        assert Agree(c.hist[k.term], c.hist[l.term], l.index);
      }
    }
  }
}
