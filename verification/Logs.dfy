/** Section 5.3 of the Raft paper.  Requests may be delayed, repeated and
    reordered without limit: a follower truncates on every request that carries
    entries, yet every log stays a patchwork of the leaders' own logs. */
module Logs {
  import opened Types
  import opened RaftSpec
  import opened Cluster
  import opened Elections

  type Log = seq<LogEntry>
  type Hist = map<nat, Log>

  /** a and b hold the same entries through index k. */
  ghost predicate Agree(a: Log, b: Log, k: nat) {
    && k <= |a| && k <= |b|
    && forall j :: 0 <= j < k ==> a[j] == b[j]
  }

  /** Each entry of the log, with all before it, is as its term's leader had it. */
  ghost predicate Matches(hist: Hist, log: Log) {
    forall k :: 0 <= k < |log| ==>
      log[k].term >= 1 && log[k].term in hist && Agree(log, hist[log[k].term], k + 1)
  }

  ghost predicate Numbered(log: Log) {
    forall k :: 0 <= k < |log| ==> log[k].index == k + 1
  }

  ghost predicate Plain(s: NodeState) {
    s.logOffset == 0 && s.snapshot.None? && Numbered(s.log)
  }

  ghost predicate TermsWithin(log: Log, t: nat) {
    forall k :: 0 <= k < |log| ==> log[k].term <= t
  }

  ghost predicate IsHistory(hist: Hist, t: nat) {
    t in hist && t >= 1 && Numbered(hist[t]) && TermsWithin(hist[t], t) && Matches(hist, hist[t])
  }

  ghost predicate HistMatch(hist: Hist) {
    forall t :: t in hist ==> IsHistory(hist, t)
  }

  /** The request quotes a stretch of its sender's log. */
  ghost predicate FromHist(hist: Hist, req: AppendRequest) {
    && req.term in hist && req.Covers() <= |hist[req.term]|
    && req.entries == hist[req.term][req.prevLogIndex..req.Covers()]
    && req.prevLogTerm == if req.prevLogIndex == 0 then 0 else hist[req.term][req.prevLogIndex - 1].term
  }

  /** The request probes past the end of its sender's log, after an
      over-reported match index. */
  predicate Overshoot(req: AppendRequest) {
    req.prevLogIndex > 0 && req.prevLogTerm == 0 && req.entries == []
  }

  ghost predicate CallsMatch(c: Cluster) {
    forall m :: m in c.net && m.AppendCall? ==>
      m.append.term in c.hist && (FromHist(c.hist, m.append) || Overshoot(m.append))
  }

  // ----- histories only grow ----------------------------------------------------

  ghost predicate Grows(h: Hist, h': Hist) {
    forall t :: t in h ==> t in h' && h[t] <= h'[t]
  }

  lemma MatchesGrows(h: Hist, h': Hist, log: Log)
    requires Grows(h, h') && Matches(h, log)
    ensures Matches(h', log)
  {
    forall k | 0 <= k < |log|
      ensures log[k].term in h' && Agree(log, h'[log[k].term], k + 1)
    {
      assert Agree(log, h[log[k].term], k + 1);
    }
  }

  lemma MatchesPrefix(h: Hist, log: Log, k: nat)
    requires Matches(h, log) && k <= |log|
    ensures Matches(h, log[..k])
  {
    forall i | 0 <= i < k
      ensures log[..k][i].term in h && Agree(log[..k], h[log[..k][i].term], i + 1)
    {
      assert Agree(log, h[log[i].term], i + 1);
    }
  }

  lemma FromHistGrows(h: Hist, h': Hist, req: AppendRequest)
    requires Grows(h, h') && FromHist(h, req)
    ensures FromHist(h', req)
  {
    assert h'[req.term][..|h[req.term]|] == h[req.term];
  }

  /** Logs that hold the same term at an index are the same through that index. */
  lemma SameTermAgree(h: Hist, a: Log, b: Log, k: nat)
    requires Matches(h, a) && Matches(h, b)
    requires 1 <= k <= |a| && k <= |b| && a[k - 1].term == b[k - 1].term
    ensures Agree(a, b, k)
  {
    assert Agree(a, h[a[k - 1].term], k);
    assert Agree(b, h[a[k - 1].term], k);
  }

  // ----- the follower ----------------------------------------------------------

  lemma CheckPrevPlain(s: NodeState, req: AppendRequest)
    requires Plain(s)
    ensures var p := req.prevLogIndex;
            CheckPrev(s, req) ==
              if p == 0 then Accept else if p > |s.log| then Reject
              else if s.log[p - 1].term != req.prevLogTerm then TruncateAndReject else Accept
  {
  }

  lemma AcceptsExact(s: NodeState, req: AppendRequest)
    ensures Accepts(s, req) <==> HandleAppendEntries(s, req).1.success
  {
  }

  /** The check passes only when the logs agree up to the new entries. */
  lemma CheckPrevAgrees(h: Hist, s: NodeState, req: AppendRequest)
    requires Plain(s) && Matches(h, s.log) && IsHistory(h, req.term)
    requires FromHist(h, req) || Overshoot(req)
    requires CheckPrev(s, req).Accept?
    ensures FromHist(h, req) && Agree(s.log, h[req.term], req.prevLogIndex)
  {
    CheckPrevPlain(s, req);
    if req.prevLogIndex > 0 {
      SameTermAgree(h, s.log, h[req.term], req.prevLogIndex);
    }
  }

  lemma StoreAgrees(h: Hist, s: NodeState, req: AppendRequest)
    requires Plain(s) && IsHistory(h, req.term) && FromHist(h, req) && Agree(s.log, h[req.term], req.prevLogIndex)
    ensures var s' := StoreEntries(s, req);
            && Plain(s') && Agree(s'.log, h[req.term], req.Covers())
            && s'.log == if req.entries == [] then s.log else h[req.term][..req.Covers()]
  {
    if req.entries != [] {
      var s' := StoreEntries(s, req);
      assert s'.log == s.log[..req.prevLogIndex] + req.entries;
      assert s'.log == h[req.term][..req.Covers()];
    }
  }

  /** A rejected request removes entries only from the one that contradicts it. */
  ghost predicate CutAtConflict(s: NodeState, req: AppendRequest, s': NodeState) {
    var p := req.prevLogIndex;
    1 <= p <= |s.log| && s'.log == s.log[..p - 1] && s.log[p - 1].term != req.prevLogTerm
  }

  /** What handling a request does to the log of an uncompacted follower. */
  ghost predicate Outcome(h: Hist, s: NodeState, req: AppendRequest, s': NodeState, r: AppendResponse) {
    && Plain(s')
    && s'.currentTerm == Max(s.currentTerm, req.term)
    && (req.term < s.currentTerm ==> s' == s && !r.success)
    && (req.term >= s.currentTerm ==> s'.role == Follower)
    && (!r.success ==> s'.log <= s.log && s'.commitIndex == s.commitIndex)
    && (!r.success && s'.log != s.log ==> CutAtConflict(s, req, s'))
    && (r.success ==>
          && r.matchIndex == |s'.log|
          && FromHist(h, req) && Agree(s'.log, h[req.term], req.Covers())
          && s'.log == if req.entries == [] then s.log else h[req.term][..req.Covers()])
  }

  /** Outcome without reference to histories. */
  ghost predicate Shape(s: NodeState, req: AppendRequest, s': NodeState, r: AppendResponse) {
    var s1 := Acknowledge(s, req);
    && s'.logOffset == 0 && s'.snapshot.None?
    && s'.currentTerm == Max(s.currentTerm, req.term)
    && (req.term < s.currentTerm ==> s' == s && !r.success)
    && (req.term >= s.currentTerm ==> s'.role == Follower)
    && (!r.success ==> s'.log <= s.log && s'.commitIndex == s.commitIndex)
    && (!r.success && s'.log != s.log ==> CutAtConflict(s, req, s'))
    && (r.success ==>
          && CheckPrev(s1, req).Accept?
          && s'.log == StoreEntries(s1, req).log
          && r.matchIndex == s'.LastLogIndex())
  }

  lemma AppendShape(s: NodeState, req: AppendRequest)
    requires Plain(s)
    ensures Shape(s, req, HandleAppendEntries(s, req).0, HandleAppendEntries(s, req).1)
  {
    if req.term >= s.currentTerm {
      FollowShape(s, req, FollowLeader(Acknowledge(s, req), req).0, FollowLeader(Acknowledge(s, req), req).1);
    }
  }

  lemma AcceptedShape(s: NodeState, req: AppendRequest, s': NodeState, r: AppendResponse)
    requires Plain(s) && req.term >= s.currentTerm && CheckPrev(Acknowledge(s, req), req).Accept?
    requires s' == FollowCommit(StoreEntries(Acknowledge(s, req), req), req.leaderCommit)
    requires r.success && r.matchIndex == s'.LastLogIndex()
    ensures Shape(s, req, s', r)
  {
  }

  lemma CutShape(s: NodeState, req: AppendRequest, s': NodeState, r: AppendResponse)
    requires Plain(s) && req.term >= s.currentTerm && CheckPrev(Acknowledge(s, req), req).TruncateAndReject?
    requires s' == Acknowledge(s, req).TruncateAndAppend(req.prevLogIndex, []) && !r.success
    ensures Shape(s, req, s', r)
  {
    CheckPrevPlain(Acknowledge(s, req), req);
    assert s'.log == s.log[..req.prevLogIndex - 1];
  }

  lemma FollowShape(s: NodeState, req: AppendRequest, s': NodeState, r: AppendResponse)
    requires Plain(s) && req.term >= s.currentTerm && (s', r) == FollowLeader(Acknowledge(s, req), req)
    ensures Shape(s, req, s', r)
  {
    var s1 := Acknowledge(s, req);
    match CheckPrev(s1, req)
    case Reject => assert s' == s1;
    case TruncateAndReject => CutShape(s, req, s', r);
    case Accept => AcceptedShape(s, req, s', r);
  }

  /** The commit index is raised only on success, and never past the log. */
  lemma RaiseWithinLog(s: NodeState, req: AppendRequest)
    ensures var (s', r) := HandleAppendEntries(s, req);
            && (s'.commitIndex != s.commitIndex ==>
                  && r.success && s.commitIndex < req.leaderCommit
                  && s'.commitIndex == Min(req.leaderCommit, r.matchIndex))
            && s'.lastApplied == s.lastApplied
            && (r.success && req.leaderCommit > s.commitIndex ==> s'.commitIndex == Min(req.leaderCommit, r.matchIndex))
  {
  }

  lemma ShapeOutcome(h: Hist, s: NodeState, req: AppendRequest, s': NodeState, r: AppendResponse)
    requires Plain(s) && Matches(h, s.log) && IsHistory(h, req.term)
    requires FromHist(h, req) || Overshoot(req)
    requires Shape(s, req, s', r)
    ensures Outcome(h, s, req, s', r)
  {
    if r.success {
      CheckPrevAgrees(h, Acknowledge(s, req), req);
      StoreAgrees(h, Acknowledge(s, req), req);
    }
  }

  lemma AppendOutcome(h: Hist, s: NodeState, req: AppendRequest)
    requires Plain(s) && Matches(h, s.log) && IsHistory(h, req.term)
    requires FromHist(h, req) || Overshoot(req)
    ensures Outcome(h, s, req, HandleAppendEntries(s, req).0, HandleAppendEntries(s, req).1)
  {
    AppendShape(s, req);
    ShapeOutcome(h, s, req, HandleAppendEntries(s, req).0, HandleAppendEntries(s, req).1);
  }

  // ----- the step of one node, as far as logs can tell ----------------------------

  ghost predicate LogStep(c: Cluster, c': Cluster, n: NodeId) {
    && n in c.nodes && c'.nodes.Keys == c.nodes.Keys
    && (forall k :: k in c.nodes && k != n ==> c'.nodes[k] == c.nodes[k])
    && Grows(c.hist, c'.hist) && c'.hist.Keys == c'.elections.Keys
    && GoodLog(c'.hist, c'.nodes[n])
    && (forall t :: t in c'.hist ==>
          || (t in c.hist && c'.hist[t] == c.hist[t])
          || (IsHistory(c'.hist, t) && Owns(c, n, t)))
    && (forall m :: m in c'.net && m !in c.net && m.AppendCall? ==>
          m.append.term in c.hist && (FromHist(c.hist, m.append) || Overshoot(m.append)))
  }

  ghost predicate GoodLog(h: Hist, s: NodeState) {
    && Plain(s) && Matches(h, s.log) && TermsWithin(s.log, s.currentTerm)
    && (s.role != Follower ==> s.currentTerm >= 1)
    && (s.role == Leader ==> s.currentTerm in h && h[s.currentTerm] == s.log)
  }

  /** Nobody but n can be a leader of term t. */
  ghost predicate Owns(c: Cluster, n: NodeId, t: nat) {
    forall k :: k in c.nodes && k != n ==> c.nodes[k].role != Leader || c.nodes[k].currentTerm != t
  }

  lemma OwnTerm(c: Cluster, n: NodeId, e: Event)
    requires ElectionInv(c) && Enabled(c, n, e) && (e.Win? || e.Propose?)
    ensures Owns(c, n, c.nodes[n].currentTerm)
    ensures e.Win? ==> c.nodes[n].currentTerm !in c.elections
  {
    if e.Win? {
      FirstWinner(c, n, e.vote, e.voterLogs);
    }
  }

  lemma ProposedMatches(h: Hist, h': Hist, s: NodeState, command: Command)
    requires Plain(s) && Matches(h, s.log) && s.currentTerm >= 1 && TermsWithin(s.log, s.currentTerm)
    requires Grows(h, h') && s.currentTerm in h' && h'[s.currentTerm] == s.AppendEntry(command).log
    ensures Plain(s.AppendEntry(command)) && IsHistory(h', s.currentTerm)
  {
    MatchesGrows(h, h', s.log);
    var log' := s.AppendEntry(command).log;
    forall k | 0 <= k < |log'|
      ensures log'[k].term >= 1 && log'[k].term in h' && Agree(log', h'[log'[k].term], k + 1)
    {
      if k < |s.log| {
        assert Agree(s.log, h'[s.log[k].term], k + 1);
      }
    }
  }

  lemma OutcomeIsGood(h: Hist, s: NodeState, req: AppendRequest, s': NodeState, r: AppendResponse)
    requires GoodLog(h, s) && IsHistory(h, req.term) && Outcome(h, s, req, s', r)
    ensures GoodLog(h, s')
  {
    if r.success && req.entries != [] {
      MatchesPrefix(h, h[req.term], req.Covers());
    } else {
      assert s'.log == s.log[..|s'.log|];
      MatchesPrefix(h, s.log, |s'.log|);
    }
  }

  lemma RepliedLog(h: Hist, s: NodeState, follower: NodeId, result: AppendResponse)
    requires GoodLog(h, s)
    ensures GoodLog(h, HandleAppendReply(s, follower, result))
  {
  }

  lemma GoodLogGrows(h: Hist, h': Hist, s: NodeState)
    requires GoodLog(h, s) && Grows(h, h')
    requires s.role == Leader ==> h'[s.currentTerm] == h[s.currentTerm]
    ensures GoodLog(h', s)
  {
    MatchesGrows(h, h', s.log);
  }

  lemma QuietLog(c: Cluster, n: NodeId, e: Event)
    requires n in c.nodes && GoodLog(c.hist, c.nodes[n]) && Enabled(c, n, e) && Monotone(c, n, e)
    requires e.Timeout? || e.AnswerVote? || e.StepDown? || e.Replicate? || e.Beat?
    ensures GoodLog(c.hist, React(c, n, e))
  {
  }

  ghost predicate LogInv(c: Cluster) {
    && (forall n :: n in c.nodes ==> GoodLog(c.hist, c.nodes[n]))
    && HistMatch(c.hist) && CallsMatch(c) && c.hist.Keys == c.elections.Keys
  }

  lemma CallIsFromHistory(c: Cluster, n: NodeId, append: AppendRequest)
    requires LogInv(c) && AppendCall(n, append) in c.net
    ensures IsHistory(c.hist, append.term) && (FromHist(c.hist, append) || Overshoot(append))
  {
    var m := AppendCall(n, append);
    assert m in c.net && m.AppendCall?;
  }

  lemma ReactLog(c: Cluster, n: NodeId, e: Event)
    requires LogInv(c) && Enabled(c, n, e) && Monotone(c, n, e) && !e.Win? && !e.Propose?
    ensures GoodLog(c.hist, React(c, n, e))
  {
    var s := c.nodes[n];
    match e
    case TakeAppend(append) =>
      CallIsFromHistory(c, n, append);
      AppendOutcome(c.hist, s, append);
      OutcomeIsGood(c.hist, s, append, HandleAppendEntries(s, append).0, HandleAppendEntries(s, append).1);
    case TakeReply(follower, _, result) => RepliedLog(c.hist, s, follower, result);
    case _ => QuietLog(c, n, e);
  }

  lemma ReplicationQuotes(h: Hist, s: NodeState, n: NodeId, peer: NodeId)
    requires Plain(s) && s.currentTerm in h && h[s.currentTerm] == s.log && Replication(s, n, peer).SendAppend?
    ensures var req := Replication(s, n, peer).append;
            req.term == s.currentTerm && (FromHist(h, req) || Overshoot(req))
    ensures s.NextIndexOf(peer) <= |s.log| + 1 ==> FromHist(h, Replication(s, n, peer).append)
  {
  }

  lemma NewCallsMatch(c: Cluster, n: NodeId, e: Event, m: Message)
    requires LogInv(c) && Enabled(c, n, e) && m in Emit(c, n, e) && m.AppendCall?
    ensures m.append.term in c.hist && (FromHist(c.hist, m.append) || Overshoot(m.append))
  {
    assert GoodLog(c.hist, c.nodes[n]);
    match e
    case Replicate(peer) => ReplicationQuotes(c.hist, c.nodes[n], n, peer);
    case _ =>
  }

  /** n leads its term with the log it has; nothing else about logs changes. */
  ghost predicate TakesOffice(c: Cluster, c': Cluster, n: NodeId) {
    && n in c.nodes && c'.nodes.Keys == c.nodes.Keys && c'.net == c.net
    && (forall k :: k in c.nodes && k != n ==> c'.nodes[k] == c.nodes[k])
    && var s, s' := c.nodes[n], c'.nodes[n];
       && c'.hist == c.hist[s.currentTerm := s.log]
       && c'.elections.Keys == c.elections.Keys + {s.currentTerm}
       && s'.log == s.log && s'.currentTerm == s.currentTerm && s'.logOffset == s.logOffset && s'.snapshot == s.snapshot
  }

  lemma Elected(c: Cluster, n: NodeId, vote: VoteRequest, voterLogs: map<NodeId, Log>)
    requires n in c.nodes && vote.term == c.nodes[n].currentTerm
    ensures TakesOffice(c, Handle(c, n, Win(vote, voterLogs)), n)
  {
    ElectedShape(c, n, vote, voterLogs);
  }

  lemma OfficeIsLogStep(c: Cluster, c': Cluster, n: NodeId)
    requires TakesOffice(c, c', n) && GoodLog(c.hist, c.nodes[n]) && c.hist.Keys == c.elections.Keys
    requires c.nodes[n].role != Follower && c.nodes[n].currentTerm !in c.elections && Owns(c, n, c.nodes[n].currentTerm)
    ensures LogStep(c, c', n)
  {
    var s := c.nodes[n];
    MatchesGrows(c.hist, c'.hist, s.log);
    assert IsHistory(c'.hist, s.currentTerm);
  }

  lemma ProposedLogStep(c: Cluster, n: NodeId, e: Event)
    requires LogInv(c) && Enabled(c, n, e) && e.Propose? && Owns(c, n, c.nodes[n].currentTerm)
    ensures LogStep(c, Handle(c, n, e), n)
  {
    var c', s := Handle(c, n, e), c.nodes[n];
    assert GoodLog(c.hist, s);
    ProposedMatches(c.hist, c'.hist, s, e.command);
  }

  lemma QuietLogStep(c: Cluster, n: NodeId, e: Event)
    requires LogInv(c) && Enabled(c, n, e) && Monotone(c, n, e) && !e.Win? && !e.Propose?
    ensures LogStep(c, Handle(c, n, e), n)
  {
    var c' := Handle(c, n, e);
    ReactLog(c, n, e);
    forall m | m in c'.net && m !in c.net && m.AppendCall?
      ensures m.append.term in c.hist && (FromHist(c.hist, m.append) || Overshoot(m.append))
    {
      NewCallsMatch(c, n, e, m);
    }
  }

  lemma CrashedLogStep(c: Cluster, n: NodeId, e: Event, writes: nat, keeps: nat)
    requires LogInv(c) && n in c.nodes
    requires Torn(c.nodes[n], React(c, n, e), writes).currentTerm >= c.nodes[n].currentTerm
    ensures LogStep(c, Do(c, Crash(n, e, writes, keeps)), n)
  {
    assert GoodLog(c.hist, c.nodes[n]);
  }

  lemma StepIsLogStep(c: Cluster, step: Step)
    requires ElectionInv(c) && LogInv(c)
    requires Enabled(c, step.node, step.event) && Steady(c, step)
    ensures LogStep(c, Do(c, step), step.node)
  {
    var n, e := step.node, step.event;
    if step.Crash? {
      CrashBallot(c, n, e, step.writes, step.keeps);
      CrashedLogStep(c, n, e, step.writes, step.keeps);
    } else if e.Win? || e.Propose? {
      OwnTerm(c, n, e);
      if e.Win? {
        assert GoodLog(c.hist, c.nodes[n]);
        Elected(c, n, e.vote, e.voterLogs);
        OfficeIsLogStep(c, Do(c, step), n);
      } else {
        ProposedLogStep(c, n, e);
      }
    } else {
      QuietLogStep(c, n, e);
    }
  }

  // ----- every step keeps the invariant ------------------------------------------

  lemma GoodLogsKept(c: Cluster, c': Cluster, n: NodeId)
    requires LogInv(c) && LogStep(c, c', n)
    ensures forall k :: k in c'.nodes ==> GoodLog(c'.hist, c'.nodes[k])
  {
    forall k | k in c'.nodes
      ensures GoodLog(c'.hist, c'.nodes[k])
    {
      if k != n {
        assert GoodLog(c.hist, c.nodes[k]);
        GoodLogGrows(c.hist, c'.hist, c.nodes[k]);
      }
    }
  }

  lemma HistMatchKept(c: Cluster, c': Cluster, n: NodeId)
    requires LogInv(c) && LogStep(c, c', n)
    ensures HistMatch(c'.hist)
  {
    forall t | t in c'.hist
      ensures IsHistory(c'.hist, t)
    {
      if t in c.hist && c'.hist[t] == c.hist[t] {
        assert IsHistory(c.hist, t);
        MatchesGrows(c.hist, c'.hist, c.hist[t]);
      }
    }
  }

  lemma CallsMatchKept(c: Cluster, c': Cluster, n: NodeId)
    requires CallsMatch(c) && LogStep(c, c', n)
    ensures CallsMatch(c')
  {
    forall m | m in c'.net && m.AppendCall?
      ensures m.append.term in c'.hist && (FromHist(c'.hist, m.append) || Overshoot(m.append))
    {
      if FromHist(c.hist, m.append) {
        FromHistGrows(c.hist, c'.hist, m.append);
      }
    }
  }

  lemma LogInvStep(c: Cluster, step: Step)
    requires ElectionInv(c) && LogInv(c)
    requires Enabled(c, step.node, step.event) && Steady(c, step)
    ensures LogInv(Do(c, step))
  {
    StepIsLogStep(c, step);
    GoodLogsKept(c, Do(c, step), step.node);
    HistMatchKept(c, Do(c, step), step.node);
    CallsMatchKept(c, Do(c, step), step.node);
  }

  lemma LogInvInit(ids: set<NodeId>)
    ensures LogInv(Init(ids))
  {
  }
}
