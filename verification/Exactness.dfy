/** Operations that could do less than they should and still be safe: counting a reply,
    refusing a request, sending what a peer lacks, compacting.  Each does exactly its part. */
module Exactness {
  import opened Types
  import opened RaftSpec
  import opened CommitRule
  import opened Cluster
  import opened Logs
  import opened Compaction
  import opened RaftSafety

  // ----- counting a reply ----------------------------------------------------------------------------

  ghost predicate TermsAscend(log: Log) {
    forall j, k :: 0 <= j <= k < |log| ==> log[j].term <= log[k].term
  }

  /** An entry of the leader's own term that at least n - n/2 of the n nodes are known to hold. */
  ghost predicate Countable(s: NodeState, k: nat) {
    && 0 < k <= |s.log| && s.log[k - 1].term == s.currentTerm
    && HeldBy(s.matchIndex, |s.log|, k) >= CommitQuorum(|s.matchIndex| + 1)
  }

  lemma Reaches(matches: map<NodeId, nat>, own: nat, k: nat, p: nat)
    requires IsCommitPoint(matches, own, p) && HeldBy(matches, own, k) >= CommitQuorum(|matches| + 1)
    ensures k <= p
  {
  }

  lemma FewerHold(matches: map<NodeId, nat>, own: nat, j: nat, k: nat)
    requires j <= k
    ensures HeldBy(matches, own, k) <= HeldBy(matches, own, j)
  {
    SubsetSize(Holders(matches, k), Holders(matches, j));
  }

  /** The match table credits nobody, past a quorum's worth, with more than the leader's log. */
  ghost predicate Credible(s: NodeState) {
    HeldBy(s.matchIndex, |s.log|, |s.log| + 1) < CommitQuorum(|s.matchIndex| + 1)
  }

  lemma {:induction false} PointExists(matches: map<NodeId, nat>, own: nat, bound: nat)
    requires HeldBy(matches, own, bound + 1) < CommitQuorum(|matches| + 1)
    ensures exists p: nat :: IsCommitPoint(matches, own, p) && p <= bound
    decreases bound
  {
    assert Holders(matches, 0) == matches.Keys;
    if HeldBy(matches, own, bound) >= CommitQuorum(|matches| + 1) {
      forall j: nat | j > bound ensures HeldBy(matches, own, j) < CommitQuorum(|matches| + 1) {
        FewerHold(matches, own, bound + 1, j);
      }
      assert IsCommitPoint(matches, own, bound);
    } else {
      PointExists(matches, own, bound - 1);
    }
  }

  lemma PointWithin(s: NodeState)
    requires Credible(s)
    ensures IsCommitPoint(s.matchIndex, |s.log|, CommitPoint(s.matchIndex, |s.log|))
    ensures CommitPoint(s.matchIndex, |s.log|) <= |s.log|
  {
    PointExists(s.matchIndex, |s.log|, |s.log|);
    var p: nat :| IsCommitPoint(s.matchIndex, |s.log|, p) && p <= |s.log|;
    CommitPointUnique(s.matchIndex, |s.log|, p);
  }

  lemma PointBeyond(s: NodeState)
    requires !Credible(s)
    ensures AdvanceCommit(s) == s || s.LastLogIndex() != |s.log| || s.logOffset != 0
  {
    var p := CommitPoint(s.matchIndex, |s.log|);
    if IsCommitPoint(s.matchIndex, |s.log|, p) {
      Reaches(s.matchIndex, |s.log|, |s.log| + 1, p);
    }
  }

  /** The commit index becomes the largest index that can be counted, or stays if none past it
      can; it also stays when a quorum is credited with more than the leader holds. */
  ghost predicate CountsExactly(s: NodeState, before: nat) {
    && s.commitIndex >= before
    && (s.commitIndex > before ==> Countable(s, s.commitIndex))
    && (Credible(s) ==> forall k: nat :: k > s.commitIndex ==> !Countable(s, k))
    && (!Credible(s) ==> s.commitIndex == before)
  }

  lemma AdvancesExactly(s: NodeState)
    requires Plain(s) && TermsAscend(s.log) && TermsWithin(s.log, s.currentTerm)
    ensures AdvanceCommit(s) == s.(commitIndex := AdvanceCommit(s).commitIndex)
    ensures CountsExactly(AdvanceCommit(s), s.commitIndex)
  {
    if Credible(s) {
      PointWithin(s);
      var p := CommitPoint(s.matchIndex, |s.log|);
      forall k: nat | Countable(s, k) ensures k <= AdvanceCommit(s).commitIndex || k <= s.commitIndex {
        Reaches(s.matchIndex, |s.log|, k, p);
        assert s.log[k - 1].term <= s.log[p - 1].term;
      }
    } else {
      PointBeyond(s);
    }
  }

  lemma LogsAscend(h: Hist, s: NodeState)
    requires HistMatch(h) && GoodLog(h, s)
    ensures TermsAscend(s.log)
  {
    forall j, k | 0 <= j <= k < |s.log| ensures s.log[j].term <= s.log[k].term {
      var t := s.log[k].term;
      assert IsHistory(h, t) && Agree(s.log, h[t], k + 1);
      assert s.log[j] == h[t][j];
    }
  }

  lemma ReplyExact(h: Hist, s: NodeState, f: NodeId, r: AppendResponse)
    requires HistMatch(h) && GoodLog(h, s) && s.role == Leader && r.success && r.term <= s.currentTerm
    ensures var s' := HandleAppendReply(s, f, r);
            && s'.matchIndex == s.matchIndex[f := r.matchIndex] && s'.log == s.log && s'.currentTerm == s.currentTerm
            && CountsExactly(s', s.commitIndex)
  {
    LogsAscend(h, s);
    AdvancesExactly(RecordMatch(s, f, r.matchIndex));
  }

  /** Over every run, a leader that counts a reply commits exactly what the rule allows. */
  lemma CommitRuleExact(run: seq<Cluster>, steps: seq<Step>, d: Discipline, i: nat, l: NodeId, e: Event)
    requires IsRun(run, steps, d) && !d.Unrestricted? && i < |steps| && steps[i] == Run(l, e)
    requires l in run[i].nodes && Enters(run[i], l, e)
    ensures l in run[i + 1].nodes && CountsExactly(run[i + 1].nodes[l], run[i].nodes[l].commitIndex)
    ensures run[i + 1].nodes[l].matchIndex == run[i].nodes[l].matchIndex[e.follower := e.result.matchIndex]
  {
    assert HistMatch(run[i].hist) && GoodLog(run[i].hist, run[i].nodes[l]) by { InvRun(run, steps, d, i); }
    ReplyExact(run[i].hist, run[i].nodes[l], e.follower, e.result);
    assert IsNext(run, steps, d, i);
  }

  // ----- refusing a request --------------------------------------------------------------------------

  /** The entry at the request's previous index is of another term. */
  ghost predicate Conflicts(s: NodeState, req: AppendRequest) {
    req.prevLogIndex > s.logOffset && s.GetEntry(req.prevLogIndex).Some?
    && s.GetEntry(req.prevLogIndex).value.term != req.prevLogTerm
  }

  /** A request of a current term that conflicts with the log is refused, and takes out the
      conflicting entry and what follows it; a refusal for any other reason takes out nothing. */
  lemma RefusalExact(s: NodeState, req: AppendRequest)
    requires req.term >= s.currentTerm
    ensures var (s', r) := HandleAppendEntries(s, req);
            && !Conflicts(s', req)
            && (Conflicts(s, req) ==> !r.success && s'.log == s.log[..req.prevLogIndex - s.logOffset - 1])
            && (!Conflicts(s, req) && !r.success ==> s'.log == s.log)
            && (!r.success ==> s'.commitIndex == s.commitIndex)
  {
  }

  // ----- answers ------------------------------------------------------------------------------------

  /** Every answer, refusals included, carries the term the node is in after it, which is the
      higher of the two, and for a request the last index the node then holds. */
  lemma AnswersTruly(s: NodeState, vote: VoteRequest, req: AppendRequest)
    ensures var (v, a) := HandleRequestVote(s, vote);
            a.term == v.currentTerm == Max(s.currentTerm, vote.term)
    ensures var (f, r) := HandleAppendEntries(s, req);
            r.term == f.currentTerm == Max(s.currentTerm, req.term) && r.matchIndex == f.LastLogIndex()
  {
  }

  /** A leader that asks a node of a later term, and only such a leader, steps down on the answer,
      into that term and without a vote. */
  lemma DeposedExact(l: NodeState, f: NodeId, s: NodeState, req: AppendRequest)
    requires l.role == Leader && req.term == l.currentTerm
    ensures var l' := HandleAppendReply(l, f, HandleAppendEntries(s, req).1);
            && (l'.role == Leader <==> s.currentTerm <= l.currentTerm)
            && (l'.role != Leader ==>
                  l'.role == Follower && l'.currentTerm == s.currentTerm && l'.votedFor == None && l'.log == l.log)
            && (l'.role == Leader ==> l'.currentTerm == l.currentTerm && l'.votedFor == l.votedFor)
  {
    AnswersTruly(s, VoteRequest(0, 0, 0, 0), req);
  }

  // ----- sending what a peer lacks -------------------------------------------------------------------

  /** A peer that has reported m is sent exactly the entries after m with the term at m; it is
      left alone only if there are none and it knows all that is committed. */
  lemma SendsRest(s: NodeState, id: NodeId, peer: NodeId, m: nat)
    requires Plain(s) && m <= |s.log|
    ensures var s' := RecordMatch(s, peer, m);
            && (Replication(s', id, peer).Skip? <==> m == |s.log| && m >= s.commitIndex)
            && (!Replication(s', id, peer).Skip? ==>
                  Replication(s', id, peer) ==
                  SendAppend(AppendRequest(s.currentTerm, id, m, if m == 0 then 0 else s.log[m - 1].term, s.log[m..],
                                           s.commitIndex)))
  {
  }

  // ----- compacting ----------------------------------------------------------------------------------

  /** A log of at least the threshold is cut down to what has not been applied, and the snapshot
      stands for exactly what has been; a shorter log is left alone. */
  lemma CompactExact(c: NodeState, u: NodeState, threshold: nat, jobs: seq<SnapshotJob>, workers: seq<NodeId>)
    requires Twin(c, u) && Chain(c)
    ensures var c' := MaybeCompact(c, threshold, jobs, workers);
            && (|c.log| < threshold ==> c' == c)
            && (|c.log| >= threshold ==> c'.logOffset == c.lastApplied && c'.log == u.log[c.lastApplied..])
            && (c' != c ==> c'.snapshot == Some(Snapshot(c.lastApplied, u.log[c.lastApplied - 1].term, jobs, workers)))
  {
    CompactTwin(c, u, threshold, jobs, workers);
  }
}
