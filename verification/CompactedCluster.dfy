/** A cluster whose nodes apply and compact their logs, beside a cluster of the protocol
    that never does.  Every move of the one is a step of the other, so what is proved of
    the runs of Cluster holds of nodes with compacted logs. */
module CompactedCluster {
  import opened Types
  import opened RaftSpec
  import opened Cluster
  import opened Logs
  import opened Commits
  import opened Compaction
  import TwinRuns
  import RaftSafety

  /** Nodes and network, without history. */
  datatype System = System(nodes: map<NodeId, NodeState>, net: set<Message>)

  datatype Move =
    | Protocol(node: NodeId, event: Event)
    | Fail(node: NodeId, event: Event, writes: nat)
    | Apply(node: NodeId)
    | Compact(node: NodeId, threshold: nat, jobs: seq<SnapshotJob>, workers: seq<NodeId>)

  /** A vote reply carries no log; the protocol model records it for the proof. */
  function Erase(m: Message): Message {
    if m.VoteReply? then m.(voterLog := []) else m
  }

  /** The system as the handlers of the protocol model see it. */
  function Seen(k: System): Cluster {
    Cluster(k.nodes, k.net, map[], map[], {}, {})
  }

  ghost predicate CanMove(k: System, v: Move) {
    && v.node in k.nodes
    && (v.Protocol? || v.Fail? ==> Enabled(Seen(k), v.node, v.event))
  }

  ghost function Moved(k: System, v: Move): System
    requires v.node in k.nodes
  {
    match v
    case Protocol(n, e) =>
      System(k.nodes[n := React(Seen(k), n, e)], k.net + Erased(Emit(Seen(k), n, e)))
    case Fail(n, e, writes) => k.(nodes := k.nodes[n := Torn(k.nodes[n], React(Seen(k), n, e), writes)])
    case Apply(n) => k.(nodes := k.nodes[n := TakeCommitted(k.nodes[n]).0])
    case Compact(n, threshold, jobs, workers) =>
      k.(nodes := k.nodes[n := MaybeCompact(k.nodes[n], threshold, jobs, workers)])
  }

  // ----- the plain cluster beside it -----------------------------------------------------------

  /** u is s without compaction, whatever either has applied. */
  ghost predicate Beside(s: NodeState, u: NodeState) {
    Twin(s, u.(lastApplied := s.lastApplied)) && Chain(s)
  }

  ghost function Erased(ms: set<Message>): set<Message> {
    set m | m in ms :: Erase(m)
  }

  ghost predicate Simulates(k: System, c: Cluster) {
    && k.nodes.Keys == c.nodes.Keys
    && (forall n :: n in k.nodes ==> Beside(k.nodes[n], c.nodes[n]))
    && k.net == Erased(c.net)
  }

  /** The logs with which the voters voted. */
  ghost predicate VotedWith(c: Cluster, vote: VoteRequest, voters: set<NodeId>, logs: map<NodeId, Log>) {
    && logs.Keys == voters
    && forall v :: v in logs ==> VoteReply(v, vote, VoteResponse(vote.term, true), logs[v]) in c.net
  }

  /** The event of the plain cluster: the same, with what the history recorded. */
  ghost function Lift(c: Cluster, e: Event): Event {
    match e
    case StepDown(seen) => if m :| m in c.net && Erase(m) == seen then StepDown(m) else e
    case Win(vote, voterLogs) =>
      if logs :| VotedWith(c, vote, voterLogs.Keys, logs) then Win(vote, logs) else e
    case _ => e
  }

  // ----- what has been applied does not matter to a handler ---------------------------------------

  lemma ShiftVote(u: NodeState, x: nat, vote: VoteRequest)
    ensures var (u', r) := HandleRequestVote(u, vote);
            HandleRequestVote(u.(lastApplied := x), vote) == (u'.(lastApplied := x), r)
  {
  }

  lemma ShiftStore(u: NodeState, x: nat, req: AppendRequest)
    ensures StoreEntries(u.(lastApplied := x), req) == StoreEntries(u, req).(lastApplied := x)
  {
  }

  lemma ShiftCommit(u: NodeState, x: nat, commit: nat)
    ensures FollowCommit(u.(lastApplied := x), commit) == FollowCommit(u, commit).(lastApplied := x)
  {
  }

  lemma ShiftCheck(u: NodeState, x: nat, req: AppendRequest)
    ensures CheckPrev(u.(lastApplied := x), req) == CheckPrev(u, req)
  {
  }

  lemma ShiftFollow(u: NodeState, x: nat, req: AppendRequest)
    ensures var (u', r) := FollowLeader(u, req);
            FollowLeader(u.(lastApplied := x), req) == (u'.(lastApplied := x), r)
  {
    ShiftCheck(u, x, req);
    if CheckPrev(u, req).Accept? {
      ShiftStore(u, x, req);
      ShiftCommit(StoreEntries(u, req), x, req.leaderCommit);
    }
  }

  lemma ShiftAcknowledge(u: NodeState, x: nat, req: AppendRequest)
    ensures Acknowledge(u.(lastApplied := x), req) == Acknowledge(u, req).(lastApplied := x)
  {
  }

  lemma ShiftAppend(u: NodeState, x: nat, req: AppendRequest)
    ensures var (u', r) := HandleAppendEntries(u, req);
            HandleAppendEntries(u.(lastApplied := x), req) == (u'.(lastApplied := x), r)
  {
    if req.term >= u.currentTerm {
      ShiftAcknowledge(u, x, req);
      ShiftFollow(Acknowledge(u, req), x, req);
    }
  }

  lemma ShiftAdvance(u: NodeState, x: nat)
    ensures AdvanceCommit(u.(lastApplied := x)) == AdvanceCommit(u).(lastApplied := x)
  {
  }

  lemma ShiftReply(u: NodeState, x: nat, peer: NodeId, r: AppendResponse)
    ensures HandleAppendReply(u.(lastApplied := x), peer, r) == HandleAppendReply(u, peer, r).(lastApplied := x)
  {
    if r.term <= u.currentTerm && u.role == Leader && r.success {
      var m := RecordMatch(u, peer, r.matchIndex);
      assert RecordMatch(u.(lastApplied := x), peer, r.matchIndex) == m.(lastApplied := x);
      ShiftAdvance(m, x);
    }
  }

  // ----- handlers, node beside node --------------------------------------------------------------

  lemma BesideVote(s: NodeState, u: NodeState, vote: VoteRequest)
    requires Beside(s, u)
    ensures Beside(HandleRequestVote(s, vote).0, HandleRequestVote(u, vote).0)
    ensures HandleRequestVote(s, vote).1 == HandleRequestVote(u, vote).1
  {
    TwinRuns.VoteActs(s, u.(lastApplied := s.lastApplied), vote);
    ShiftVote(u, s.lastApplied, vote);
  }

  lemma AppliedSame(s: NodeState, req: AppendRequest)
    ensures HandleAppendEntries(s, req).0.lastApplied == s.lastApplied
  {
  }

  lemma BesideAppend(s: NodeState, u: NodeState, req: AppendRequest)
    requires Beside(s, u)
    requires req.term < s.currentTerm || (Compatible(u, req) && (Accepts(s, req) ==> FromOffset(s, req)))
    ensures Beside(HandleAppendEntries(s, req).0, HandleAppendEntries(u, req).0)
    ensures HandleAppendEntries(s, req).1 == HandleAppendEntries(u, req).1
  {
    var u1 := u.(lastApplied := s.lastApplied);
    if req.term < s.currentTerm {
      TwinRuns.OldRequestActs(s, u1, req);
    } else {
      assert Compatible(u1, req);
      TwinRuns.AppendActs(s, u1, req);
    }
    AppliedSame(s, req);
    ShiftAppend(u, s.lastApplied, req);
  }

  lemma BesideReply(s: NodeState, u: NodeState, peer: NodeId, r: AppendResponse)
    requires Beside(s, u)
    ensures Beside(HandleAppendReply(s, peer, r), HandleAppendReply(u, peer, r))
  {
    ReplyTwin(s, u.(lastApplied := s.lastApplied), peer, r);
    ShiftReply(u, s.lastApplied, peer, r);
  }

  lemma BesidePropose(s: NodeState, u: NodeState, command: Command)
    requires Beside(s, u)
    ensures Beside(s.AppendEntry(command), u.AppendEntry(command))
  {
    ProposeTwin(s, u.(lastApplied := s.lastApplied), command);
  }

  lemma BesideWin(s: NodeState, u: NodeState, id: NodeId, votes: nat, peers: set<NodeId>)
    requires Beside(s, u)
    ensures Beside(s.(votesReceived := votes).BecomeLeader(id, peers),
                   u.(votesReceived := votes).BecomeLeader(id, peers))
  {
    TwinRuns.WinTwin(s, u.(lastApplied := s.lastApplied), id, votes, peers);
  }

  lemma BesideEnds(s: NodeState, u: NodeState)
    requires Beside(s, u)
    ensures s.LastLogIndex() == u.LastLogIndex() == |u.log| && s.LastLogTerm() == u.LastLogTerm()
  {
    SameEnds(s, u.(lastApplied := s.lastApplied));
  }

  lemma ShiftTail(u: NodeState, x: nat, i: nat)
    requires i > u.logOffset && u.LastLogIndex() == u.logOffset + |u.log|
    ensures u.(lastApplied := x).GetEntriesFrom(i) == u.GetEntriesFrom(i)
  {
    TailShape(u, i);
    TailShape(u.(lastApplied := x), i);
  }

  lemma ShiftTerm(u: NodeState, x: nat, i: nat)
    ensures u.(lastApplied := x).TermAt(i) == u.TermAt(i)
  {
  }

  lemma ShiftReplication(u: NodeState, x: nat, id: NodeId, peer: NodeId)
    requires u.NextIndexOf(peer) > u.logOffset && u.LastLogIndex() == u.logOffset + |u.log|
    ensures Replication(u.(lastApplied := x), id, peer) == Replication(u, id, peer)
  {
    ShiftTail(u, x, u.NextIndexOf(peer));
    ShiftTerm(u, x, u.NextIndexOf(peer) - 1);
    SameReplication(u.(lastApplied := x), u, id, peer);
  }

  /** An uncompacted log answers from its start. */
  lemma FromStart(s: NodeState, u: NodeState, id: NodeId, peer: NodeId)
    requires s.logOffset == 0 == u.logOffset && s.NextIndexOf(peer) == 0 == u.NextIndexOf(peer)
    requires s.log == u.log && s.currentTerm == u.currentTerm && s.commitIndex == u.commitIndex
    requires s.MatchIndexOf(peer) == u.MatchIndexOf(peer) && s.snapshot.None? && u.snapshot.None?
    ensures Replication(s, id, peer) == Replication(u, id, peer)
  {
    assert s.GetEntriesFrom(0) == u.GetEntriesFrom(0);
  }

  lemma BesideReplication(s: NodeState, u: NodeState, id: NodeId, peer: NodeId)
    requires Beside(s, u) && Replication(s, id, peer).SendAppend?
    ensures Replication(s, id, peer) == Replication(u, id, peer)
  {
    if s.NextIndexOf(peer) > s.logOffset {
      ReplicationTwin(s, u.(lastApplied := s.lastApplied), id, peer);
      BesideEnds(s, u);
      ShiftReplication(u, s.lastApplied, id, peer);
    } else {
      FromStart(s, u, id, peer);
    }
  }

  lemma BesideApply(s: NodeState, u: NodeState)
    requires Beside(s, u)
    ensures Beside(TakeCommitted(s).0, u)
  {
    ApplyTwin(s, u.(lastApplied := s.lastApplied));
  }

  lemma BesideCompact(s: NodeState, u: NodeState, threshold: nat, jobs: seq<SnapshotJob>, workers: seq<NodeId>)
    requires Beside(s, u)
    ensures Beside(MaybeCompact(s, threshold, jobs, workers), u)
  {
    CompactTwin(s, u.(lastApplied := s.lastApplied), threshold, jobs, workers);
  }

  /** A torn save leaves the node beside a plain one that restarts at the snapshot's index. */
  lemma BesideTorn(s: NodeState, u: NodeState, s': NodeState, u': NodeState, writes: nat)
    requires Beside(s, u) && s'.logOffset == s.logOffset && u'.logOffset == u.logOffset
    requires s'.currentTerm == u'.currentTerm && s'.votedFor == u'.votedFor
    ensures Beside(Torn(s, s', writes),
                   Torn(u, u', writes).(commitIndex := s.logOffset, lastApplied := s.logOffset))
  {
    BesideEnds(s, u);
  }

  // ----- steps -------------------------------------------------------------------------------------

  lemma Uncarry(m: Message, net: set<Message>)
    requires m in Erased(net)
    ensures exists m' :: m' in net && Erase(m') == m
    ensures !m.VoteReply? ==> m in net
  {
  }

  lemma ReplyCarried(net: set<Message>, v: NodeId, vote: VoteRequest, r: VoteResponse, log: Log)
    requires VoteReply(v, vote, r, log) in Erased(net)
    ensures exists l: Log :: VoteReply(v, vote, r, l) in net
  {
    var m :| m in net && Erase(m) == VoteReply(v, vote, r, log);
    assert m == VoteReply(v, vote, r, m.voterLog);
  }

  lemma {:induction false} GatherLogs(c: Cluster, vote: VoteRequest, voters: set<NodeId>)
    returns (logs: map<NodeId, Log>)
    requires forall v :: v in voters ==> exists l: Log :: VoteReply(v, vote, VoteResponse(vote.term, true), l) in c.net
    ensures VotedWith(c, vote, voters, logs)
  {
    logs := map[];
    if voters != {} {
      var v :| v in voters;
      var rest := GatherLogs(c, vote, voters - {v});
      var l: Log :| VoteReply(v, vote, VoteResponse(vote.term, true), l) in c.net;
      logs := rest[v := l];
      assert logs.Keys == voters;
    }
  }

  lemma WinLifts(k: System, c: Cluster, n: NodeId, vote: VoteRequest, voterLogs: map<NodeId, Log>)
    requires Simulates(k, c) && Enabled(Seen(k), n, Win(vote, voterLogs))
    ensures exists logs :: VotedWith(c, vote, voterLogs.Keys, logs)
  {
    forall v | v in voterLogs.Keys
      ensures exists l: Log :: VoteReply(v, vote, VoteResponse(vote.term, true), l) in c.net
    {
      ReplyCarried(c.net, v, vote, VoteResponse(vote.term, true), voterLogs[v]);
    }
    var logs := GatherLogs(c, vote, voterLogs.Keys);
  }

  lemma SamePeers(k: System, c: Cluster)
    requires k.nodes.Keys == c.nodes.Keys
    ensures |k.nodes| == |c.nodes|
  {
    assert |k.nodes| == |k.nodes.Keys| && |c.nodes| == |c.nodes.Keys|;
  }

  lemma WinEnabled(k: System, c: Cluster, n: NodeId, vote: VoteRequest, voterLogs: map<NodeId, Log>)
    requires Simulates(k, c) && Enabled(Seen(k), n, Win(vote, voterLogs))
    ensures Enabled(c, n, Lift(c, Win(vote, voterLogs)))
    ensures Lift(c, Win(vote, voterLogs)).Win? && Lift(c, Win(vote, voterLogs)).voterLogs.Keys == voterLogs.Keys
  {
    assert Beside(k.nodes[n], c.nodes[n]);
    WinLifts(k, c, n, vote, voterLogs);
    var logs := Lift(c, Win(vote, voterLogs)).voterLogs;
    assert VotedWith(c, vote, voterLogs.Keys, logs);
    Uncarry(VoteCall(vote), c.net);
    SamePeers(k, c);
  }

  lemma StepDownEnabled(k: System, c: Cluster, n: NodeId, seen: Message)
    requires Simulates(k, c) && Enabled(Seen(k), n, StepDown(seen))
    ensures Enabled(c, n, Lift(c, StepDown(seen)))
    ensures Lift(c, StepDown(seen)).StepDown? && SeenTerm(Lift(c, StepDown(seen)).seen) == SeenTerm(seen)
  {
    Uncarry(seen, c.net);
    var m := Lift(c, StepDown(seen)).seen;
    assert m in c.net && Erase(m) == seen;
  }

  /** What can happen to the compacting node can happen to the plain one. */
  lemma Lifts(k: System, c: Cluster, n: NodeId, e: Event)
    requires Simulates(k, c) && Enabled(Seen(k), n, e)
    ensures Enabled(c, n, Lift(c, e))
  {
    if e.Win? {
      WinEnabled(k, c, n, e.vote, e.voterLogs);
    } else if e.StepDown? {
      StepDownEnabled(k, c, n, e.seen);
    } else {
      PlainEnabled(k, c, n, e);
    }
  }

  lemma PlainEnabled(k: System, c: Cluster, n: NodeId, e: Event)
    requires Simulates(k, c) && Enabled(Seen(k), n, e) && !e.Win? && !e.StepDown?
    ensures Enabled(c, n, e)
  {
    assert Beside(k.nodes[n], c.nodes[n]);
    match e
    case AnswerVote(vote) => Uncarry(VoteCall(vote), c.net);
    case Replicate(peer) => BesideReplication(k.nodes[n], c.nodes[n], n, peer);
    case TakeAppend(append) => Uncarry(AppendCall(n, append), c.net);
    case TakeReply(follower, append, result) => Uncarry(AppendReply(follower, append, result), c.net);
    case _ =>
  }

  /** Requests that reach the node fit its log: they agree with what the plain node has
      committed, and their entries start at or after the offset. */
  ghost predicate Fitting(k: System, c: Cluster, n: NodeId, e: Event)
    requires n in k.nodes && n in c.nodes
  {
    e.TakeAppend? && e.append.term >= k.nodes[n].currentTerm ==>
      Compatible(c.nodes[n], e.append) && (Accepts(k.nodes[n], e.append) ==> FromOffset(k.nodes[n], e.append))
  }

  lemma ReactBeside(k: System, c: Cluster, n: NodeId, e: Event)
    requires Simulates(k, c) && Enabled(Seen(k), n, e) && Fitting(k, c, n, e)
    ensures Beside(React(Seen(k), n, e), React(c, n, Lift(c, e)))
  {
    var s, u := k.nodes[n], c.nodes[n];
    assert Beside(s, u);
    match e
    case Timeout =>
    case AnswerVote(vote) => BesideVote(s, u, vote);
    case Win(vote, voterLogs) =>
      WinEnabled(k, c, n, vote, voterLogs);
      BesideWin(s, u, n, |voterLogs.Keys|, c.nodes.Keys - {n});
    case StepDown(seen) => StepDownEnabled(k, c, n, seen);
    case Propose(command) => BesidePropose(s, u, command);
    case TakeAppend(append) => BesideAppend(s, u, append);
    case TakeReply(follower, _, result) => BesideReply(s, u, follower, result);
    case Replicate(_) =>
    case Beat(_) =>
  }

  lemma ErasedOne(a: Message)
    ensures Erased({a}) == {Erase(a)}
  {
    assert Erase(a) in Erased({a});
  }

  lemma ErasedBoth(a: set<Message>, b: set<Message>)
    ensures Erased(a + b) == Erased(a) + Erased(b)
  {
  }

  lemma TimeoutEmits(k: System, c: Cluster, n: NodeId)
    requires n in k.nodes && n in c.nodes && Beside(k.nodes[n], c.nodes[n])
    ensures Erased(Emit(Seen(k), n, Timeout)) == Erased(Emit(c, n, Timeout))
  {
    var s, u := k.nodes[n], c.nodes[n];
    BesideEnds(s, u);
    var vote := Candidacy(u.BecomeCandidate(n), n);
    var yes := VoteResponse(vote.term, true);
    assert Candidacy(s.BecomeCandidate(n), n) == vote;
    ErasedBoth({VoteCall(vote)}, {VoteReply(n, vote, yes, s.log)});
    ErasedBoth({VoteCall(vote)}, {VoteReply(n, vote, yes, u.log)});
    ErasedOne(VoteReply(n, vote, yes, s.log));
    ErasedOne(VoteReply(n, vote, yes, u.log));
    assert Emit(Seen(k), n, Timeout) == {VoteCall(vote)} + {VoteReply(n, vote, yes, s.log)};
    assert Emit(c, n, Timeout) == {VoteCall(vote)} + {VoteReply(n, vote, yes, u.log)};
  }

  lemma VoteEmits(k: System, c: Cluster, n: NodeId, vote: VoteRequest)
    requires n in k.nodes && n in c.nodes && Beside(k.nodes[n], c.nodes[n])
    ensures Erased(Emit(Seen(k), n, AnswerVote(vote))) == Erased(Emit(c, n, AnswerVote(vote)))
  {
    var s, u := k.nodes[n], c.nodes[n];
    BesideVote(s, u, vote);
    ErasedOne(VoteReply(n, vote, HandleRequestVote(s, vote).1, s.log));
    ErasedOne(VoteReply(n, vote, HandleRequestVote(u, vote).1, u.log));
  }

  lemma RequestEmits(k: System, c: Cluster, n: NodeId, e: Event)
    requires n in k.nodes && n in c.nodes && Beside(k.nodes[n], c.nodes[n]) && Fitting(k, c, n, e)
    requires e.Replicate? || e.Beat? || e.TakeAppend?
    requires e.Replicate? ==> Replication(k.nodes[n], n, e.peer).SendAppend?
    ensures Emit(Seen(k), n, e) == Emit(c, n, e)
  {
    if e.Replicate? {
      BesideReplication(k.nodes[n], c.nodes[n], n, e.peer);
    } else if e.TakeAppend? {
      BesideAppend(k.nodes[n], c.nodes[n], e.append);
    }
  }

  lemma Silent(c: Cluster, n: NodeId, e: Event)
    requires n in c.nodes && (e.Win? || e.StepDown? || e.Propose? || e.TakeReply?)
    ensures Emit(c, n, e) == {}
  {
  }

  /** Same event, up to what the history recorded. */
  predicate SameKind(e: Event, e': Event) {
    if e.Win? then e'.Win? else if e.StepDown? then e'.StepDown? else e' == e
  }

  lemma LiftKind(c: Cluster, e: Event)
    ensures SameKind(e, Lift(c, e))
  {
  }

  lemma EmitSame(k: System, c: Cluster, n: NodeId, e: Event, e': Event)
    requires n in c.nodes && Enabled(Seen(k), n, e) && Beside(k.nodes[n], c.nodes[n]) && Fitting(k, c, n, e)
    requires SameKind(e, e')
    ensures Erased(Emit(Seen(k), n, e)) == Erased(Emit(c, n, e'))
  {
    if e.Timeout? {
      TimeoutEmits(k, c, n);
    } else if e.AnswerVote? {
      VoteEmits(k, c, n, e.vote);
    } else if e.Replicate? || e.Beat? || e.TakeAppend? {
      RequestEmits(k, c, n, e);
    } else {
      Silent(Seen(k), n, e);
      Silent(c, n, e');
    }
  }

  lemma RunSimulates(k: System, c: Cluster, n: NodeId, e: Event)
    requires Simulates(k, c) && Enabled(Seen(k), n, e) && Fitting(k, c, n, e)
    ensures Simulates(Moved(k, Protocol(n, e)), Do(c, Run(n, Lift(c, e))))
  {
    ReactBeside(k, c, n, e);
    LiftKind(c, e);
    EmitSame(k, c, n, e, Lift(c, e));
    ErasedBoth(c.net, Emit(c, n, Lift(c, e)));
  }

  lemma SameSaved(k: System, c: Cluster, n: NodeId, e: Event)
    requires Simulates(k, c) && Enabled(Seen(k), n, e)
    ensures var s', u' := React(Seen(k), n, e), React(c, n, Lift(c, e));
            && s'.currentTerm == u'.currentTerm && s'.votedFor == u'.votedFor
            && s'.logOffset == k.nodes[n].logOffset && u'.logOffset == c.nodes[n].logOffset
  {
    if e.TakeAppend? {
      var s, u := k.nodes[n], c.nodes[n];
      assert Beside(s, u);
      SavedAppend(s, e.append);
      SavedAppend(u, e.append);
    } else {
      ReactBeside(k, c, n, e);
      OffsetKept(Seen(k), n, e);
      OffsetKept(c, n, Lift(c, e));
    }
  }

  lemma SavedAppend(s: NodeState, req: AppendRequest)
    ensures var s' := HandleAppendEntries(s, req).0;
            && s'.currentTerm == (if req.term < s.currentTerm then s else Acknowledge(s, req)).currentTerm
            && s'.votedFor == (if req.term < s.currentTerm then s else Acknowledge(s, req)).votedFor
            && s'.logOffset == s.logOffset
  {
  }

  lemma OffsetKept(c: Cluster, n: NodeId, e: Event)
    requires n in c.nodes && !e.TakeAppend?
    ensures React(c, n, e).logOffset == c.nodes[n].logOffset
  {
  }

  lemma FailSimulates(k: System, c: Cluster, n: NodeId, e: Event, writes: nat)
    requires Simulates(k, c) && Enabled(Seen(k), n, e)
    ensures Simulates(Moved(k, Fail(n, e, writes)), Do(c, Crash(n, Lift(c, e), writes, k.nodes[n].logOffset)))
  {
    SameSaved(k, c, n, e);
    BesideTorn(k.nodes[n], c.nodes[n], React(Seen(k), n, e), React(c, n, Lift(c, e)), writes);
  }

  // ----- the two systems together ---------------------------------------------------------------------

  /** What a move owes: the conditions of a Verified run, read off the plain cluster, and
      entries that start at or after the receiver's offset. */
  ghost predicate Observed(k: System, c: Cluster, v: Move)
    requires v.node in k.nodes && v.node in c.nodes
  {
    match v
    case Protocol(n, e) =>
      && Observes(c, n, Lift(c, e), Verified)
      && (e.TakeAppend? && Accepts(k.nodes[n], e.append) ==> FromOffset(k.nodes[n], e.append))
    case Fail(n, e, writes) => Steady(c, Crash(n, Lift(c, e), writes, 0))
    case _ => true
  }

  /** The plain cluster makes the same step, or none when a node only applies or compacts. */
  ghost function StepFor(k: System, c: Cluster, v: Move): Option<Step>
    requires v.node in k.nodes
  {
    match v
    case Protocol(n, e) => Some(Run(n, Lift(c, e)))
    case Fail(n, e, writes) => Some(Crash(n, Lift(c, e), writes, k.nodes[n].logOffset))
    case _ => None
  }

  ghost function Follows(k: System, c: Cluster, v: Move): Cluster
    requires v.node in k.nodes && v.node in c.nodes
  {
    if StepFor(k, c, v).Some? then Do(c, StepFor(k, c, v).value) else c
  }

  lemma RequestFits(k: System, c: Cluster, n: NodeId, e: Event)
    requires Simulates(k, c) && RaftSafety.Inv(c, Verified) && Enabled(Seen(k), n, e) && Observed(k, c, Protocol(n, e))
    ensures Fitting(k, c, n, e)
  {
    if e.TakeAppend? && e.append.term >= k.nodes[n].currentTerm {
      assert Beside(k.nodes[n], c.nodes[n]);
      Uncarry(AppendCall(n, e.append), c.net);
      CommitsComplete(c);
      RaftSafety.CallCompatible(c, n, e.append);
    }
  }

  /** Beside each other, and the plain cluster safe; closed until asked for. */
  ghost predicate Joined(k: System, c: Cluster) {
    forall i: nat :: Asked(i) ==> Simulates(k, c) && RaftSafety.Inv(c, Verified)
  }

  lemma StepKeeps(c: Cluster, step: Step)
    requires RaftSafety.Inv(c, Verified) && Allowed(c, step, Verified)
    ensures RaftSafety.Inv(Do(c, step), Verified) && RaftSafety.Extends(c, Do(c, step))
  {
    RaftSafety.InvStep(c, step, Verified);
    RaftSafety.StepExtends(c, step, Verified);
  }

  lemma ProtocolMoves(k: System, c: Cluster, n: NodeId, e: Event)
    requires Simulates(k, c) && RaftSafety.Inv(c, Verified)
    requires CanMove(k, Protocol(n, e)) && Observed(k, c, Protocol(n, e))
    ensures Simulates(Moved(k, Protocol(n, e)), Do(c, Run(n, Lift(c, e)))) && Allowed(c, Run(n, Lift(c, e)), Verified)
  {
    RequestFits(k, c, n, e);
    Lifts(k, c, n, e);
    RunSimulates(k, c, n, e);
  }

  lemma FailMoves(k: System, c: Cluster, n: NodeId, e: Event, writes: nat)
    requires Simulates(k, c) && CanMove(k, Fail(n, e, writes)) && Observed(k, c, Fail(n, e, writes))
    ensures var step := Crash(n, Lift(c, e), writes, k.nodes[n].logOffset);
            Simulates(Moved(k, Fail(n, e, writes)), Do(c, step)) && Allowed(c, step, Verified)
  {
    assert Beside(k.nodes[n], c.nodes[n]);
    Lifts(k, c, n, e);
    FailSimulates(k, c, n, e, writes);
  }

  lemma LocalMoves(k: System, c: Cluster, v: Move)
    requires Simulates(k, c) && CanMove(k, v) && (v.Apply? || v.Compact?)
    ensures Simulates(Moved(k, v), c)
  {
    var s, u := k.nodes[v.node], c.nodes[v.node];
    assert Beside(s, u);
    match v
    case Apply(n) => BesideApply(s, u);
    case Compact(n, threshold, jobs, workers) => BesideCompact(s, u, threshold, jobs, workers);
  }

  /** Every move of the compacting system is an allowed step of the plain one, or none,
      and they stay beside each other. */
  lemma MoveSimulates(k: System, c: Cluster, v: Move)
    requires Simulates(k, c) && RaftSafety.Inv(c, Verified) && CanMove(k, v) && Observed(k, c, v)
    ensures Simulates(Moved(k, v), Follows(k, c, v))
    ensures StepFor(k, c, v).Some? ==> Allowed(c, StepFor(k, c, v).value, Verified)
  {
    match v
    case Protocol(n, e) => ProtocolMoves(k, c, n, e);
    case Fail(n, e, writes) => FailMoves(k, c, n, e, writes);
    case _ => LocalMoves(k, c, v);
  }

  lemma FollowsSafely(k: System, c: Cluster, v: Move)
    requires v.node in k.nodes && v.node in c.nodes && RaftSafety.Inv(c, Verified)
    requires StepFor(k, c, v).Some? ==> Allowed(c, StepFor(k, c, v).value, Verified)
    ensures RaftSafety.Inv(Follows(k, c, v), Verified) && RaftSafety.Extends(c, Follows(k, c, v))
  {
    if StepFor(k, c, v).Some? {
      StepKeeps(c, StepFor(k, c, v).value);
    }
  }

  lemma MoveKeeps(k: System, c: Cluster, v: Move)
    requires Joined(k, c) && CanMove(k, v) && v.node in c.nodes && Observed(k, c, v)
    ensures Joined(Moved(k, v), Follows(k, c, v)) && RaftSafety.Extends(c, Follows(k, c, v))
  {
    assert Asked(0);
    MoveSimulates(k, c, v);
    FollowsSafely(k, c, v);
  }

  // ----- runs --------------------------------------------------------------------------------------------

  ghost predicate IsNextMove(ks: seq<System>, cs: seq<Cluster>, vs: seq<Move>, i: nat)
    requires i + 1 < |ks| && |ks| == |cs| && i < |vs|
  {
    && CanMove(ks[i], vs[i]) && vs[i].node in cs[i].nodes && Observed(ks[i], cs[i], vs[i])
    && ks[i + 1] == Moved(ks[i], vs[i]) && cs[i + 1] == Follows(ks[i], cs[i], vs[i])
  }

  /** The states ks of the compacting system, and the plain clusters cs beside them. */
  ghost predicate IsCompactedRun(ks: seq<System>, cs: seq<Cluster>, vs: seq<Move>) {
    && |ks| == |cs| == |vs| + 1
    && (exists ids :: ks[0] == System(Uniform(ids, FRESH), {}) && cs[0] == Init(ids))
    && forall i: nat :: i < |vs| ==> IsNextMove(ks, cs, vs, i)
  }

  lemma JoinedStart(ks: seq<System>, cs: seq<Cluster>, vs: seq<Move>)
    requires IsCompactedRun(ks, cs, vs)
    ensures Joined(ks[0], cs[0])
  {
    var ids :| ks[0] == System(Uniform(ids, FRESH), {}) && cs[0] == Init(ids);
    RaftSafety.InvInit(ids, Verified);
    assert Beside(FRESH, FRESH);
  }

  lemma JoinedNext(ks: seq<System>, cs: seq<Cluster>, vs: seq<Move>, i: nat)
    requires IsCompactedRun(ks, cs, vs) && 0 < i < |ks| && Joined(ks[i - 1], cs[i - 1])
    ensures Joined(ks[i], cs[i]) && RaftSafety.Extends(cs[i - 1], cs[i])
  {
    assert IsNextMove(ks, cs, vs, i - 1);
    MoveKeeps(ks[i - 1], cs[i - 1], vs[i - 1]);
  }

  lemma {:induction false} JoinedRun(ks: seq<System>, cs: seq<Cluster>, vs: seq<Move>, i: nat)
    requires IsCompactedRun(ks, cs, vs) && i < |ks|
    ensures Joined(ks[i], cs[i])
    decreases i
  {
    if i == 0 {
      JoinedStart(ks, cs, vs);
    } else {
      JoinedRun(ks, cs, vs, i - 1);
      JoinedNext(ks, cs, vs, i);
    }
  }

  lemma {:induction false} ExtendsRun(ks: seq<System>, cs: seq<Cluster>, vs: seq<Move>, i: nat, j: nat)
    requires IsCompactedRun(ks, cs, vs) && i <= j < |ks|
    ensures RaftSafety.Extends(cs[i], cs[j])
    decreases j
  {
    if i < j {
      ExtendsRun(ks, cs, vs, i, j - 1);
      JoinedRun(ks, cs, vs, j - 1);
      JoinedNext(ks, cs, vs, j);
      RaftSafety.ExtendsTrans(cs[i], cs[j - 1], cs[j]);
    }
  }

  lemma BesideRun(ks: seq<System>, cs: seq<Cluster>, vs: seq<Move>, i: nat, n: NodeId)
    requires IsCompactedRun(ks, cs, vs) && i < |ks| && n in ks[i].nodes
    ensures n in cs[i].nodes && Beside(ks[i].nodes[n], cs[i].nodes[n])
  {
    JoinedRun(ks, cs, vs, i);
    assert Asked(0);
  }

  lemma SafeRun(ks: seq<System>, cs: seq<Cluster>, vs: seq<Move>, i: nat)
    requires IsCompactedRun(ks, cs, vs) && i < |ks|
    ensures LogInv(cs[i]) && CommitInv(cs[i]) && Complete(cs[i])
  {
    JoinedRun(ks, cs, vs, i);
    assert Asked(0);
    CommitsComplete(cs[i]);
  }

  // ----- what the nodes still hold --------------------------------------------------------------------------

  lemma StillHeld(s: NodeState, u: NodeState, x: nat)
    requires Beside(s, u) && x > s.logOffset
    ensures s.GetEntry(x) == if x <= |u.log| then Some(u.log[x - 1]) else None
  {
    SameEntry(s, u.(lastApplied := s.lastApplied), x);
  }

  /** Compacted is applied, applied is committed, committed is in the log, at every node. */
  lemma IndexChain(ks: seq<System>, cs: seq<Cluster>, vs: seq<Move>, i: nat, n: NodeId)
    requires IsCompactedRun(ks, cs, vs) && i < |ks| && n in ks[i].nodes
    ensures var s := ks[i].nodes[n]; s.logOffset <= s.lastApplied <= s.commitIndex <= s.LastLogIndex()
  {
    BesideRun(ks, cs, vs, i, n);
  }

  /** Leader Append-Only: what a leader holds it goes on holding, or has compacted. */
  lemma LeaderAppendOnly(ks: seq<System>, cs: seq<Cluster>, vs: seq<Move>, i: nat, j: nat, a: NodeId, x: nat)
    requires IsCompactedRun(ks, cs, vs) && i <= j < |ks| && a in ks[i].nodes && a in ks[j].nodes
    requires ks[i].nodes[a].role == Leader && ks[j].nodes[a].role == Leader
    requires ks[i].nodes[a].currentTerm == ks[j].nodes[a].currentTerm
    requires ks[i].nodes[a].GetEntry(x).Some?
    ensures x <= ks[j].nodes[a].logOffset || ks[j].nodes[a].GetEntry(x) == ks[i].nodes[a].GetEntry(x)
  {
    BesideRun(ks, cs, vs, i, a);
    BesideRun(ks, cs, vs, j, a);
    SafeRun(ks, cs, vs, i);
    SafeRun(ks, cs, vs, j);
    ExtendsRun(ks, cs, vs, i, j);
    RaftSafety.LeaderLogGrows(cs[i], cs[j], a);
    StillHeld(ks[i].nodes[a], cs[i].nodes[a], x);
    if x > ks[j].nodes[a].logOffset {
      StillHeld(ks[j].nodes[a], cs[j].nodes[a], x);
    }
  }

  /** Log Matching: nodes that hold entries of one term at x hold the same entries up to x,
      as far back as both still hold them. */
  lemma LogMatching(ks: seq<System>, cs: seq<Cluster>, vs: seq<Move>, i: nat, a: NodeId, b: NodeId, x: nat, y: nat)
    requires IsCompactedRun(ks, cs, vs) && i < |ks| && a in ks[i].nodes && b in ks[i].nodes
    requires ks[i].nodes[a].GetEntry(x).Some? && ks[i].nodes[b].GetEntry(x).Some?
    requires ks[i].nodes[a].GetEntry(x).value.term == ks[i].nodes[b].GetEntry(x).value.term
    requires y <= x && y > ks[i].nodes[a].logOffset && y > ks[i].nodes[b].logOffset
    ensures ks[i].nodes[a].GetEntry(y).Some? && ks[i].nodes[a].GetEntry(y) == ks[i].nodes[b].GetEntry(y)
  {
    BesideRun(ks, cs, vs, i, a);
    BesideRun(ks, cs, vs, i, b);
    SafeRun(ks, cs, vs, i);
    var s, t, u, w := ks[i].nodes[a], ks[i].nodes[b], cs[i].nodes[a], cs[i].nodes[b];
    StillHeld(s, u, x);
    StillHeld(t, w, x);
    RaftSafety.LogsMatch(cs[i], a, b, x - 1);
    StillHeld(s, u, y);
    StillHeld(t, w, y);
    assert u.log[y - 1] == u.log[..x][y - 1] && w.log[y - 1] == w.log[..x][y - 1];
  }

  lemma CommittedAlike(ks: seq<System>, cs: seq<Cluster>, vs: seq<Move>, i: nat, j: nat, a: NodeId, b: NodeId, x: nat)
    requires IsCompactedRun(ks, cs, vs) && i <= j < |ks| && a in ks[i].nodes && b in ks[j].nodes
    requires x <= ks[i].nodes[a].commitIndex && x <= ks[j].nodes[b].commitIndex
    ensures a in cs[i].nodes && b in cs[j].nodes && Agree(cs[i].nodes[a].log, cs[j].nodes[b].log, x)
  {
    BesideRun(ks, cs, vs, i, a);
    BesideRun(ks, cs, vs, j, b);
    assert Agree(cs[i].nodes[a].log, cs[j].nodes[b].log, x) by {
      SafeRun(ks, cs, vs, i);
      SafeRun(ks, cs, vs, j);
      ExtendsRun(ks, cs, vs, i, j);
      RaftSafety.CommittedPrefixesAgree(cs[i], cs[j], a, b);
    }
  }

  /** State Machine Safety: any two nodes, at any two moments, hold the same entry at every
      index both consider committed and neither has compacted. */
  lemma StateMachineSafety(ks: seq<System>, cs: seq<Cluster>, vs: seq<Move>, i: nat, j: nat,
                           a: NodeId, b: NodeId, x: nat)
    requires IsCompactedRun(ks, cs, vs) && i <= j < |ks| && a in ks[i].nodes && b in ks[j].nodes
    requires ks[i].nodes[a].logOffset < x <= ks[i].nodes[a].commitIndex
    requires ks[j].nodes[b].logOffset < x <= ks[j].nodes[b].commitIndex
    ensures ks[i].nodes[a].GetEntry(x).Some? && ks[i].nodes[a].GetEntry(x) == ks[j].nodes[b].GetEntry(x)
  {
    BesideRun(ks, cs, vs, i, a);
    BesideRun(ks, cs, vs, j, b);
    CommittedAlike(ks, cs, vs, i, j, a, b, x);
    StillHeld(ks[i].nodes[a], cs[i].nodes[a], x);
    StillHeld(ks[j].nodes[b], cs[j].nodes[b], x);
  }

  /** Leader l commits by counting a reply. */
  ghost predicate Counts(ks: seq<System>, vs: seq<Move>, i: nat, l: NodeId) {
    && i < |vs| && i + 1 < |ks| && l in ks[i].nodes && l in ks[i + 1].nodes
    && vs[i].Protocol? && vs[i].node == l && vs[i].event.TakeReply?
    && ks[i + 1].nodes[l].commitIndex > ks[i].nodes[l].commitIndex
  }

  lemma CountRecorded(ks: seq<System>, cs: seq<Cluster>, vs: seq<Move>, i: nat, l: NodeId)
    requires IsCompactedRun(ks, cs, vs) && Counts(ks, vs, i, l)
    ensures RaftSafety.RecordedBy(cs[i + 1], l)
  {
    BesideRun(ks, cs, vs, i, l);
    BesideRun(ks, cs, vs, i + 1, l);
    assert LogInv(cs[i]) by { SafeRun(ks, cs, vs, i); }
    assert cs[i + 1] == Handle(cs[i], l, vs[i].event) by { assert IsNextMove(ks, cs, vs, i); }
    RaftSafety.CommitRecorded(cs[i], l, vs[i].event);
  }

  /** Leader Completeness: what a leader commits by counting, every leader of a later term
      holds from then on, or has compacted. */
  lemma LeaderCompleteness(ks: seq<System>, cs: seq<Cluster>, vs: seq<Move>, i: nat, l: NodeId,
                           j: nat, n: NodeId, x: nat)
    requires IsCompactedRun(ks, cs, vs) && Counts(ks, vs, i, l) && i < j < |ks|
    requires n in ks[j].nodes && ks[j].nodes[n].role == Leader
    requires ks[j].nodes[n].currentTerm > ks[i + 1].nodes[l].currentTerm
    requires ks[i + 1].nodes[l].logOffset < x <= ks[i + 1].nodes[l].commitIndex
    ensures ks[i + 1].nodes[l].GetEntry(x).Some?
    ensures x <= ks[j].nodes[n].logOffset || ks[j].nodes[n].GetEntry(x) == ks[i + 1].nodes[l].GetEntry(x)
  {
    BesideRun(ks, cs, vs, i + 1, l);
    BesideRun(ks, cs, vs, j, n);
    assert cs[i + 1].nodes[l].log[..cs[i + 1].nodes[l].commitIndex] <= cs[j].nodes[n].log by {
      CountRecorded(ks, cs, vs, i, l);
      SafeRun(ks, cs, vs, i + 1);
      SafeRun(ks, cs, vs, j);
      ExtendsRun(ks, cs, vs, i + 1, j);
      RaftSafety.CommitInLog(cs[i + 1], cs[j], l, n);
    }
    StillHeld(ks[i + 1].nodes[l], cs[i + 1].nodes[l], x);
    if x > ks[j].nodes[n].logOffset {
      StillHeld(ks[j].nodes[n], cs[j].nodes[n], x);
    }
  }
}
