/** The safety properties of Figure 3 of the Raft paper, for every run of every cluster;
    Election Safety, which needs less of a run, is in WideRuns. */
module RaftSafety {
  import opened Types
  import opened RaftSpec
  import opened CommitRule
  import opened Cluster
  import opened Elections
  import opened Logs
  import opened Acknowledgements
  import opened Commits
  import opened Compaction

  ghost predicate Inv(c: Cluster, d: Discipline) {
    && ElectionInv(c) && LogInv(c)
    && (d.CountsTruly() ==> OrderInv(c) && CommitsCounted(c))
    && (d.Verified? ==> CommitInv(c))
  }

  lemma InvInit(ids: set<NodeId>, d: Discipline)
    ensures Inv(Init(ids), d)
  {
    ElectionInvInit(ids);
    LogInvInit(ids);
    OrderInvInit(ids);
  }

  lemma InvStep(c: Cluster, step: Step, d: Discipline)
    requires !d.Unrestricted? && Inv(c, d) && Allowed(c, step, d)
    ensures Inv(Do(c, step), d)
  {
    var n, c' := step.node, Do(c, step);
    ElectionInvStep(c, step);
    LogInvStep(c, step);
    if d.CountsTruly() {
      OrderInvStep(c, step);
      StepIsLogStep(c, step);
      StepIsOrderStep(c, step);
      CommitsCountedStep(c, step);
    }
    if d.Verified? {
      CommitsComplete(c);
      StepIsBallotStep(c, step);
      StepIsCommitStep(c, step);
      CommitInvKept(c, c', n);
    }
  }

  /** What has happened stays on record. */
  ghost predicate Extends(c: Cluster, c': Cluster) {
    ElectionsKept(c, c') && Grows(c.hist, c'.hist) && c.commits <= c'.commits
  }

  lemma StepExtends(c: Cluster, step: Step, d: Discipline)
    requires !d.Unrestricted? && ElectionInv(c) && LogInv(c) && Allowed(c, step, d)
    ensures Extends(c, Do(c, step))
  {
    StepIsBallotStep(c, step);
    ElectionsStable(c, Do(c, step), step.node);
    StepIsLogStep(c, step);
    OnlyRepliesCommit(c, step);
  }

  lemma ExtendsTrans(a: Cluster, b: Cluster, c: Cluster)
    requires Extends(a, b) && Extends(b, c)
    ensures Extends(a, c)
  {
  }

  /** The invariant, and what it is to be a run, closed until asked for: a proof that
      goes along a run should not unfold them at every state it mentions. */
  ghost predicate Safe(c: Cluster, d: Discipline) {
    forall k: nat :: Asked(k) ==> Inv(c, d)
  }

  ghost predicate Proceeding(run: seq<Cluster>, steps: seq<Step>, d: Discipline) {
    && |run| == |steps| + 1 && !d.Unrestricted?
    && forall k: nat :: Asked(k) ==> IsRun(run, steps, d)
  }

  lemma IsSafe(c: Cluster, d: Discipline)
    ensures Safe(c, d) <==> Inv(c, d)
  {
    assert Asked(0);
  }

  lemma SafeStart(run: seq<Cluster>, steps: seq<Step>, d: Discipline)
    requires Proceeding(run, steps, d)
    ensures Safe(run[0], d)
  {
    assert Asked(0);
    var ids :| run[0] == Init(ids);
    InvInit(ids, d);
  }

  lemma SafeNext(run: seq<Cluster>, steps: seq<Step>, d: Discipline, i: nat)
    requires Proceeding(run, steps, d) && 0 < i < |run| && Safe(run[i - 1], d)
    ensures Safe(run[i], d)
  {
    assert Asked(0);
    assert IsNext(run, steps, d, i - 1);
    InvStep(run[i - 1], steps[i - 1], d);
  }

  lemma {:induction false} SafeRun(run: seq<Cluster>, steps: seq<Step>, d: Discipline, i: nat)
    requires Proceeding(run, steps, d) && i < |run|
    ensures Safe(run[i], d)
    decreases i
  {
    if i == 0 {
      SafeStart(run, steps, d);
    } else {
      SafeRun(run, steps, d, i - 1);
      SafeNext(run, steps, d, i);
    }
  }

  lemma InvRun(run: seq<Cluster>, steps: seq<Step>, d: Discipline, i: nat)
    requires IsRun(run, steps, d) && !d.Unrestricted? && i < |run|
    ensures Inv(run[i], d)
  {
    SafeRun(run, steps, d, i);
    IsSafe(run[i], d);
  }

  lemma {:induction false} ExtendsRun(run: seq<Cluster>, steps: seq<Step>, d: Discipline, i: nat, j: nat)
    requires IsRun(run, steps, d) && !d.Unrestricted? && i <= j < |run|
    ensures Extends(run[i], run[j])
    decreases j
  {
    if i < j {
      ExtendsRun(run, steps, d, i, j - 1);
      assert Extends(run[j - 1], run[j]) by {
        InvRun(run, steps, d, j - 1);
        assert IsNext(run, steps, d, j - 1);
        StepExtends(run[j - 1], steps[j - 1], d);
      }
      ExtendsTrans(run[i], run[j - 1], run[j]);
    }
  }

  // ----- the theorems, between two moments of a run ------------------------------------

  lemma LeaderLogGrows(c: Cluster, c': Cluster, a: NodeId)
    requires LogInv(c) && LogInv(c') && Extends(c, c')
    requires a in c.nodes && c.nodes[a].role == Leader && a in c'.nodes && c'.nodes[a].role == Leader
    requires c.nodes[a].currentTerm == c'.nodes[a].currentTerm
    ensures c.nodes[a].log <= c'.nodes[a].log
  {
    assert GoodLog(c.hist, c.nodes[a]) && GoodLog(c'.hist, c'.nodes[a]);
  }

  lemma LogsMatch(c: Cluster, a: NodeId, b: NodeId, k: nat)
    requires LogInv(c) && a in c.nodes && b in c.nodes
    requires k < |c.nodes[a].log| && k < |c.nodes[b].log| && c.nodes[a].log[k].term == c.nodes[b].log[k].term
    ensures c.nodes[a].log[..k + 1] == c.nodes[b].log[..k + 1]
  {
    assert GoodLog(c.hist, c.nodes[a]) && GoodLog(c.hist, c.nodes[b]);
    SameTermAgree(c.hist, c.nodes[a].log, c.nodes[b].log, k + 1);
  }

  /** Leader l has on record a commit of its term through its commit index. */
  ghost predicate RecordedBy(c: Cluster, l: NodeId) {
    && l in c.nodes && c.nodes[l].role == Leader && c.nodes[l].commitIndex <= |c.nodes[l].log|
    && exists k :: k in c.commits && k.term == c.nodes[l].currentTerm && k.index == c.nodes[l].commitIndex
  }

  /** The leader's count puts a commit on record. */
  lemma CommitRecorded(c: Cluster, n: NodeId, e: Event)
    requires LogInv(c) && e.TakeReply? && n in c.nodes && React(c, n, e).commitIndex > c.nodes[n].commitIndex
    ensures RecordedBy(Handle(c, n, e), n)
  {
    var s' := React(c, n, e);
    assert GoodLog(c.hist, c.nodes[n]);
    ReplyCommits(c.nodes[n], e.follower, e.result);
    var k := Commit(s'.currentTerm, s'.commitIndex, Holders(s'.matchIndex, s'.commitIndex) + {n});
    assert k in Handle(c, n, e).commits;
  }

  lemma CommitInLog(c: Cluster, c': Cluster, l: NodeId, n: NodeId)
    requires Extends(c, c') && Complete(c') && LogInv(c) && LogInv(c') && RecordedBy(c, l)
    requires n in c'.nodes && c'.nodes[n].role == Leader && c'.nodes[n].currentTerm >= c.nodes[l].currentTerm
    ensures c.nodes[l].log[..c.nodes[l].commitIndex] <= c'.nodes[n].log
  {
    var k :| k in c.commits && k.term == c.nodes[l].currentTerm && k.index == c.nodes[l].commitIndex;
    assert GoodLog(c.hist, c.nodes[l]) && GoodLog(c'.hist, c'.nodes[n]);
    assert Agree(c'.hist[c'.nodes[n].currentTerm], c'.hist[k.term], k.index);
  }

  lemma CommittedPrefixesAgree(c: Cluster, c': Cluster, a: NodeId, b: NodeId)
    requires Extends(c, c') && CommitInv(c) && CommitInv(c') && Complete(c')
    requires a in c.nodes && b in c'.nodes
    ensures Agree(c.nodes[a].log, c'.nodes[b].log, Min(c.nodes[a].commitIndex, c'.nodes[b].commitIndex))
  {
    var s, s' := c.nodes[a], c'.nodes[b];
    CoveredGrows(c, c', s.log, s.log, s.currentTerm, s.currentTerm, s.commitIndex);
    CommittedAgree(c', s.log, s.currentTerm, s.commitIndex, s'.log, s'.currentTerm, s'.commitIndex);
  }

  lemma CompleteRun(run: seq<Cluster>, steps: seq<Step>, d: Discipline, i: nat)
    requires IsRun(run, steps, d) && i < |run| && d.CountsTruly()
    ensures Complete(run[i])
  {
    InvRun(run, steps, d, i);
    CommitsComplete(run[i]);
  }

  lemma CommitInvRun(run: seq<Cluster>, steps: seq<Step>, i: nat)
    requires IsRun(run, steps, Verified) && i < |run|
    ensures CommitInv(run[i])
  {
    InvRun(run, steps, Verified, i);
  }

  // ----- the theorems ---------------------------------------------------------------------

  /** Leader Append-Only: within a term, a leader's log only gains entries at its end. */
  lemma LeaderAppendOnly(run: seq<Cluster>, steps: seq<Step>, d: Discipline, i: nat, j: nat, a: NodeId)
    requires IsRun(run, steps, d) && !d.Unrestricted? && i <= j < |run|
    requires a in run[i].nodes && run[i].nodes[a].role == Leader
    requires a in run[j].nodes && run[j].nodes[a].role == Leader
    requires run[i].nodes[a].currentTerm == run[j].nodes[a].currentTerm
    ensures run[i].nodes[a].log <= run[j].nodes[a].log
  {
    assert LogInv(run[i]) by { InvRun(run, steps, d, i); }
    assert LogInv(run[j]) by { InvRun(run, steps, d, j); }
    assert Extends(run[i], run[j]) by { ExtendsRun(run, steps, d, i, j); }
    LeaderLogGrows(run[i], run[j], a);
  }

  /** Log Matching: logs with the same term at an index are identical through it. */
  lemma LogMatching(run: seq<Cluster>, steps: seq<Step>, d: Discipline, i: nat, a: NodeId, b: NodeId, k: nat)
    requires IsRun(run, steps, d) && !d.Unrestricted? && i < |run| && a in run[i].nodes && b in run[i].nodes
    requires k < |run[i].nodes[a].log| && k < |run[i].nodes[b].log|
    requires run[i].nodes[a].log[k].term == run[i].nodes[b].log[k].term
    ensures run[i].nodes[a].log[..k + 1] == run[i].nodes[b].log[..k + 1]
  {
    InvRun(run, steps, d, i);
    LogsMatch(run[i], a, b, k);
  }

  lemma Committed(run: seq<Cluster>, steps: seq<Step>, d: Discipline, i: nat, l: NodeId, e: Event)
    requires IsRun(run, steps, d) && d.CountsTruly() && i < |steps| && steps[i] == Run(l, e) && e.TakeReply?
    requires l in run[i].nodes && l in run[i + 1].nodes
    requires run[i + 1].nodes[l].commitIndex > run[i].nodes[l].commitIndex
    ensures RecordedBy(run[i + 1], l)
  {
    assert run[i + 1] == Handle(run[i], l, e) by { assert IsNext(run, steps, d, i); }
    assert LogInv(run[i]) by { InvRun(run, steps, d, i); }
    CommitRecorded(run[i], l, e);
  }

  /** Two moments of a run that counts truly; closed until asked for. */
  ghost predicate Later(c: Cluster, c': Cluster) {
    forall k: nat :: Asked(k) ==> Extends(c, c') && LogInv(c) && LogInv(c') && Complete(c')
  }

  lemma LaterRun(run: seq<Cluster>, steps: seq<Step>, d: Discipline, i: nat, j: nat)
    requires IsRun(run, steps, d) && d.CountsTruly() && i <= j < |run|
    ensures Later(run[i], run[j])
  {
    assert LogInv(run[i]) by { InvRun(run, steps, d, i); }
    assert LogInv(run[j]) by { InvRun(run, steps, d, j); }
    ExtendsRun(run, steps, d, i, j);
    CompleteRun(run, steps, d, j);
  }

  lemma CommitCarried(c: Cluster, c': Cluster, l: NodeId, n: NodeId)
    requires Later(c, c') && RecordedBy(c, l)
    requires n in c'.nodes && c'.nodes[n].role == Leader && c'.nodes[n].currentTerm >= c.nodes[l].currentTerm
    ensures c.nodes[l].log[..c.nodes[l].commitIndex] <= c'.nodes[n].log
  {
    assert Asked(0);
    CommitInLog(c, c', l, n);
  }

  /** Leader Completeness: what a leader commits by counting replies is in the log
      of every leader of a later term from then on. */
  lemma LeaderCompleteness(run: seq<Cluster>, steps: seq<Step>, d: Discipline, i: nat, l: NodeId, e: Event,
                           j: nat, n: NodeId)
    requires IsRun(run, steps, d) && d.CountsTruly() && i < j < |run|
    requires steps[i] == Run(l, e) && e.TakeReply? && l in run[i].nodes && l in run[i + 1].nodes
    requires run[i + 1].nodes[l].commitIndex > run[i].nodes[l].commitIndex
    requires n in run[j].nodes && run[j].nodes[n].role == Leader
    requires run[j].nodes[n].currentTerm > run[i + 1].nodes[l].currentTerm
    ensures var s := run[i + 1].nodes[l];
            s.commitIndex <= |s.log| && s.log[..s.commitIndex] <= run[j].nodes[n].log
  {
    Committed(run, steps, d, i, l, e);
    LaterRun(run, steps, d, i + 1, j);
    CommitCarried(run[i + 1], run[j], l, n);
  }

  /** State Machine Safety: any two nodes, at any two moments, agree on every entry
      both consider committed. */
  lemma StateMachineSafety(run: seq<Cluster>, steps: seq<Step>, i: nat, j: nat, a: NodeId, b: NodeId)
    requires IsRun(run, steps, Verified) && i <= j < |run|
    requires a in run[i].nodes && b in run[j].nodes
    ensures var x := Min(run[i].nodes[a].commitIndex, run[j].nodes[b].commitIndex);
            && x <= |run[i].nodes[a].log| && x <= |run[j].nodes[b].log|
            && run[i].nodes[a].log[..x] == run[j].nodes[b].log[..x]
  {
    var x := Min(run[i].nodes[a].commitIndex, run[j].nodes[b].commitIndex);
    assert Agree(run[i].nodes[a].log, run[j].nodes[b].log, x) by {
      CommitInvRun(run, steps, i);
      CommitInvRun(run, steps, j);
      ExtendsRun(run, steps, Verified, i, j);
      CompleteRun(run, steps, Verified, j);
      CommittedPrefixesAgree(run[i], run[j], a, b);
    }
  }

  /** A replication request with entries reaches the end of its sender's log. */
  lemma RequestReachesEnd(c: Cluster, l: NodeId, f: NodeId)
    requires LogInv(c) && l in c.nodes && c.nodes[l].role == Leader && Replication(c.nodes[l], l, f).SendAppend?
    requires Replication(c.nodes[l], l, f).append.entries != []
    ensures var req := Replication(c.nodes[l], l, f).append;
            && req.term in c.hist && c.hist[req.term] == c.nodes[l].log
            && FromHist(c.hist, req) && req.Covers() == |c.nodes[l].log|
  {
    assert GoodLog(c.hist, c.nodes[l]);
  }

  lemma StoredIsSent(c: Cluster, c': Cluster, l: NodeId, f: NodeId, req: AppendRequest)
    requires LogInv(c) && LogInv(c') && Extends(c, c') && f in c'.nodes
    requires l in c.nodes && c.nodes[l].role == Leader
    requires Replication(c.nodes[l], l, f) == SendAppend(req) && req.entries != []
    ensures var (s', r) := HandleAppendEntries(c'.nodes[f], req);
            r.success ==> s'.log == c.nodes[l].log && r.matchIndex == |c.nodes[l].log|
  {
    RequestReachesEnd(c, l, f);
    FromHistGrows(c.hist, c'.hist, req);
    assert GoodLog(c'.hist, c'.nodes[f]) && IsHistory(c'.hist, req.term);
    AppendOutcome(c'.hist, c'.nodes[f], req);
  }

  /** Two moments of a run, as far as logs go; closed until asked for. */
  ghost predicate Onward(c: Cluster, c': Cluster) {
    forall k: nat :: Asked(k) ==> Extends(c, c') && LogInv(c) && LogInv(c')
  }

  lemma OnwardRun(run: seq<Cluster>, steps: seq<Step>, d: Discipline, i: nat, j: nat)
    requires IsRun(run, steps, d) && !d.Unrestricted? && i <= j < |run|
    ensures Onward(run[i], run[j])
  {
    assert LogInv(run[i]) by { InvRun(run, steps, d, i); }
    assert LogInv(run[j]) by { InvRun(run, steps, d, j); }
    ExtendsRun(run, steps, d, i, j);
  }

  lemma DeliveredIsSent(c: Cluster, c': Cluster, l: NodeId, f: NodeId, req: AppendRequest)
    requires Onward(c, c') && l in c.nodes && c.nodes[l].role == Leader && f in c'.nodes
    requires Replication(c.nodes[l], l, f) == SendAppend(req) && req.entries != []
    requires HandleAppendEntries(c'.nodes[f], req).1.success
    ensures var s, s' := c'.nodes[f], HandleAppendEntries(c'.nodes[f], req).0;
            s'.log == c.nodes[l].log && (s'.commitIndex > s.commitIndex ==> s'.commitIndex <= |s'.log|)
  {
    assert Asked(0);
    StoredIsSent(c, c', l, f, req);
    RaiseWithinLog(c'.nodes[f], req);
  }

  /** Follower agreement: however late it arrives, an accepted request that carries
      entries leaves the follower with the sender's log as it was when the request
      was sent; a commit index raised by it covers that log's entries only. */
  lemma FollowerAgreement(run: seq<Cluster>, steps: seq<Step>, d: Discipline, i: nat, j: nat,
                          l: NodeId, f: NodeId, req: AppendRequest)
    requires IsRun(run, steps, d) && !d.Unrestricted? && i < j < |steps|
    requires steps[i] == Run(l, Replicate(f)) && l in run[i].nodes
    requires Replication(run[i].nodes[l], l, f) == SendAppend(req) && req.entries != []
    requires steps[j] == Run(f, TakeAppend(req)) && f in run[j].nodes
    requires HandleAppendEntries(run[j].nodes[f], req).1.success
    ensures f in run[j + 1].nodes && run[j + 1].nodes[f].log == run[i].nodes[l].log
    ensures run[j + 1].nodes[f].commitIndex > run[j].nodes[f].commitIndex ==>
              run[j + 1].nodes[f].commitIndex <= |run[i].nodes[l].log|
  {
    assert run[i].nodes[l].role == Leader by { assert IsNext(run, steps, d, i); }
    assert run[j + 1] == Handle(run[j], f, TakeAppend(req)) by { assert IsNext(run, steps, d, j); }
    OnwardRun(run, steps, d, i, j);
    DeliveredIsSent(run[i], run[j], l, f, req);
  }

  // ----- requests agree with what their receiver has committed ------------------------------

  lemma CommittedInHistory(c: Cluster, n: NodeId, t: nat)
    requires CommitInv(c) && Complete(c) && n in c.nodes && t in c.hist && t >= c.nodes[n].currentTerm
    ensures Agree(c.nodes[n].log, c.hist[t], c.nodes[n].commitIndex)
  {
    var s := c.nodes[n];
    if s.commitIndex > 0 {
      var k :| Covered(c, k, s.log, s.currentTerm, s.commitIndex);
      assert Agree(c.hist[t], c.hist[k.term], k.index);
    }
  }

  lemma QuoteAgrees(h: Hist, s: NodeState, req: AppendRequest)
    requires FromHist(h, req) && Numbered(h[req.term]) && Agree(s.log, h[req.term], s.commitIndex)
    requires req.entries != [] && Accepts(s, req) ==> req.Covers() >= s.commitIndex
    ensures Compatible(s, req)
  {
    var t := h[req.term];
    assert forall k :: 0 <= k < |req.entries| ==> req.entries[k] == t[req.prevLogIndex + k];
  }

  lemma CallCompatible(c: Cluster, n: NodeId, req: AppendRequest)
    requires LogInv(c) && StrictCalls(c) && CommitInv(c) && Complete(c) && n in c.nodes
    requires AppendCall(n, req) in c.net && req.term >= c.nodes[n].currentTerm
    requires Accepts(c.nodes[n], req) ==> !IsStale(c, c.nodes[n], req)
    ensures Compatible(c.nodes[n], req)
  {
    assert FromHist(c.hist, req) by {
      var m := AppendCall(n, req);
      assert m in c.net && m.AppendCall?;
    }
    assert IsHistory(c.hist, req.term);
    CommittedInHistory(c, n, req.term);
    QuoteAgrees(c.hist, c.nodes[n], req);
  }

  /** In a Verified run, a request on the network agrees with what its receiver has
      committed and, if it is accepted without being stale, reaches past it: what
      compaction relies on. */
  lemma RequestsCompatible(run: seq<Cluster>, steps: seq<Step>, i: nat, n: NodeId, req: AppendRequest)
    requires IsRun(run, steps, Verified) && i < |run| && n in run[i].nodes
    requires AppendCall(n, req) in run[i].net && req.term >= run[i].nodes[n].currentTerm
    requires Accepts(run[i].nodes[n], req) ==> !IsStale(run[i], run[i].nodes[n], req)
    ensures Compatible(run[i].nodes[n], req)
  {
    var c := run[i];
    assert LogInv(c) && StrictCalls(c) && CommitInv(c) by { InvRun(run, steps, Verified, i); }
    CompleteRun(run, steps, Verified, i);
    CallCompatible(c, n, req);
  }

  /** A request that reaches past the commit index does not lower it. */
  lemma RequestKeepsCommit(s: NodeState, req: AppendRequest)
    requires Plain(s) && s.commitIndex <= |s.log|
    requires req.entries != [] && Accepts(s, req) ==> EntriesNumbered(req) && req.Covers() >= s.commitIndex
    ensures HandleAppendEntries(s, req).0.commitIndex >= s.commitIndex
  {
  }

  lemma QuietKeepsCommit(c: Cluster, n: NodeId, e: Event)
    requires n in c.nodes && Plain(c.nodes[n]) && !e.TakeAppend?
    ensures React(c, n, e).commitIndex >= c.nodes[n].commitIndex
  {
    if e.TakeReply? {
      ReplyCommits(c.nodes[n], e.follower, e.result);
    }
  }

  lemma CommittedInLog(c: Cluster, n: NodeId)
    requires CommitInv(c) && n in c.nodes
    ensures c.nodes[n].commitIndex <= |c.nodes[n].log|
  {
  }

  /** Short of a crash, no step lowers a commit index. */
  lemma CommitNeverFalls(run: seq<Cluster>, steps: seq<Step>, i: nat, n: NodeId)
    requires IsRun(run, steps, Verified) && i < |steps| && steps[i].Run? && n in run[i].nodes
    ensures n in run[i + 1].nodes && run[i + 1].nodes[n].commitIndex >= run[i].nodes[n].commitIndex
  {
    var c, m, e := run[i], steps[i].node, steps[i].event;
    assert IsNext(run, steps, Verified, i);
    assert Plain(c.nodes[n]) by {
      InvRun(run, steps, Verified, i);
      assert GoodLog(c.hist, c.nodes[n]);
    }
    CommitInvRun(run, steps, i);
    CommittedInLog(c, n);
    if n == m && e.TakeAppend? {
      if Accepts(c.nodes[n], e.append) && e.append.entries != [] {
        RequestsCompatible(run, steps, i, n, e.append);
      }
      RequestKeepsCommit(c.nodes[n], e.append);
    } else if n == m {
      QuietKeepsCommit(c, n, e);
    }
  }

  // ----- exchanges taken in order ---------------------------------------------------------------

  /** A request that covers its sender's log is not stale. */
  lemma FreshNotStale(c: Cluster, c': Cluster, l: NodeId, f: NodeId, req: AppendRequest)
    requires LogInv(c) && l in c.nodes && c.nodes[l].role == Leader && f in c'.nodes && c'.hist == c.hist
    requires Replication(c.nodes[l], l, f) == SendAppend(req)
    ensures !IsStale(c', c'.nodes[f], req)
  {
    if req.entries != [] {
      RequestReachesEnd(c, l, f);
    }
  }

  /** A request accepted at once covers its sender's whole log, which the follower then
      holds as far as the request reaches. */
  lemma AcceptedCovers(c: Cluster, l: NodeId, f: NodeId, req: AppendRequest)
    requires LogInv(c) && l in c.nodes && c.nodes[l].role == Leader && f in c.nodes
    requires Replication(c.nodes[l], l, f) == SendAppend(req) && HandleAppendEntries(c.nodes[f], req).1.success
    ensures req.term == c.nodes[l].currentTerm && req.Covers() == |c.nodes[l].log|
    ensures SharesThrough(c.hist, req.term, HandleAppendEntries(c.nodes[f], req).0.log, req.Covers())
  {
    assert GoodLog(c.hist, c.nodes[l]) && GoodLog(c.hist, c.nodes[f]);
    ReplicationQuotes(c.hist, c.nodes[l], l, f);
    assert IsHistory(c.hist, req.term);
    AcceptedShares(c.hist, c.nodes[f], req);
    if req.entries != [] {
      RequestReachesEnd(c, l, f);
    }
  }

  lemma AcceptedShares(h: Hist, s: NodeState, req: AppendRequest)
    requires GoodLog(h, s) && IsHistory(h, req.term) && (FromHist(h, req) || Overshoot(req))
    requires HandleAppendEntries(s, req).1.success
    ensures FromHist(h, req) && SharesThrough(h, req.term, HandleAppendEntries(s, req).0.log, req.Covers())
  {
    AppendOutcome(h, s, req);
  }

  lemma Sent(c: Cluster, l: NodeId, f: NodeId, req: AppendRequest)
    requires l in c.nodes && Replication(c.nodes[l], l, f) == SendAppend(req)
    ensures var c1 := Handle(c, l, Replicate(f));
            && c1.nodes == c.nodes && c1.hist == c.hist && c1.acks == c.acks && AppendCall(f, req) in c1.net
  {
  }

  /** Request, handler and reply taken as one exchange observe the InOrder conditions,
      if a counted reply reports the leader's last index. */
  lemma ExchangeInOrder(c: Cluster, l: NodeId, f: NodeId, req: AppendRequest)
    requires LogInv(c) && l in c.nodes && f in c.nodes && l != f && c.nodes[l].role == Leader
    requires Replication(c.nodes[l], l, f) == SendAppend(req)
    requires HandleAppendEntries(c.nodes[f], req).1.success ==>
               HandleAppendEntries(c.nodes[f], req).1.matchIndex == |c.nodes[l].log|
    ensures Allowed(c, Run(l, Replicate(f)), InOrder)
    ensures var c1 := Handle(c, l, Replicate(f));
            f in c1.nodes && Allowed(c1, Run(f, TakeAppend(req)), InOrder)
    ensures var c2 := Handle(Handle(c, l, Replicate(f)), f, TakeAppend(req));
            Allowed(c2, Run(l, TakeReply(f, req, HandleAppendEntries(c.nodes[f], req).1)), InOrder)
  {
    var c1 := Handle(c, l, Replicate(f));
    Sent(c, l, f, req);
    FreshNotStale(c, c1, l, f, req);
    Taken(c1, f, req);
    if HandleAppendEntries(c.nodes[f], req).1.success {
      AcceptedCovers(c, l, f, req);
    }
  }
}
