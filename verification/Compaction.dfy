/** The offset log against the plain log it replaces.  A node that compacts is run
    beside an uncompacted twin that is given the same operations. */
module Compaction {
  import opened Types
  import opened RaftSpec
  import opened CommitRule
  import opened Logs

  /** s holds the log `full`, its first s.logOffset entries folded into the snapshot. */
  ghost predicate Stores(s: NodeState, full: Log) {
    && Numbered(full)
    && s.logOffset <= |full| && s.log == full[s.logOffset..]
    && (s.logOffset == 0 <==> s.snapshot.None?)
    && (s.snapshot.Some? ==>
          && s.snapshot.value.lastIncludedIndex == s.logOffset
          && s.snapshot.value.lastIncludedTerm == full[s.logOffset - 1].term)
  }

  /** The node that holds the same log uncompacted. */
  function Unfold(s: NodeState, full: Log): NodeState {
    s.(log := full, logOffset := 0, snapshot := None)
  }

  /** u is c without compaction. */
  ghost predicate Twin(c: NodeState, u: NodeState) {
    u == Unfold(c, u.log) && Stores(c, u.log)
  }

  /** Compacted is applied, applied is committed, committed is in the log. */
  ghost predicate Chain(c: NodeState) {
    c.logOffset <= c.lastApplied <= c.commitIndex <= c.LastLogIndex()
  }

  // ----- reads ---------------------------------------------------------------------

  lemma SameEnds(c: NodeState, u: NodeState)
    requires Twin(c, u)
    ensures c.LastLogIndex() == u.LastLogIndex() == |u.log|
    ensures c.LastLogTerm() == u.LastLogTerm()
  {
  }

  lemma SameEntry(c: NodeState, u: NodeState, i: nat)
    requires Twin(c, u) && i >= c.logOffset
    ensures i > c.logOffset ==> c.GetEntry(i) == u.GetEntry(i)
    ensures c.TermAt(i) == u.TermAt(i)
  {
  }

  lemma StoredEnds(s: NodeState, full: Log)
    requires Stores(s, full)
    ensures |s.log| == |full| - s.logOffset && s.LastLogIndex() == |full|
  {
  }

  lemma TailShape(s: NodeState, i: nat)
    requires i > s.logOffset && s.LastLogIndex() == s.logOffset + |s.log|
    ensures s.GetEntriesFrom(i) == if i <= s.logOffset + |s.log| then s.log[i - s.logOffset - 1..] else []
  {
  }

  lemma SameTail(c: NodeState, u: NodeState, i: nat)
    requires Twin(c, u) && i > c.logOffset
    ensures c.GetEntriesFrom(i) == u.GetEntriesFrom(i)
  {
    StoredEnds(c, u.log);
    TailShape(c, i);
    TailShape(u, i);
    if i <= |u.log| {
      DropTwice(u.log, c.logOffset, i - 1);
    }
  }

  lemma DropTwice(log: Log, a: nat, b: nat)
    requires a <= b <= |log|
    ensures log[a..][b - a..] == log[b..]
  {
  }

  /** Every read past the offset answers as the plain log would. */
  lemma SameReads(c: NodeState, u: NodeState, i: nat, t: nat)
    requires Twin(c, u)
    ensures c.LastLogIndex() == u.LastLogIndex() && c.LastLogTerm() == u.LastLogTerm()
    ensures c.IsLogUpToDate(i, t) == u.IsLogUpToDate(i, t)
    ensures i > c.logOffset ==> c.GetEntry(i) == u.GetEntry(i) && c.GetEntriesFrom(i) == u.GetEntriesFrom(i)
    ensures i >= c.logOffset ==> c.TermAt(i) == u.TermAt(i)
  {
    SameEnds(c, u);
    if i >= c.logOffset {
      SameEntry(c, u, i);
    }
    if i > c.logOffset {
      SameTail(c, u, i);
    }
  }

  // ----- votes ---------------------------------------------------------------------

  lemma VoteTwin(c: NodeState, u: NodeState, req: VoteRequest)
    requires Twin(c, u)
    ensures Twin(HandleRequestVote(c, req).0, HandleRequestVote(u, req).0)
    ensures HandleRequestVote(c, req).1 == HandleRequestVote(u, req).1
  {
    var c1 := if req.term > c.currentTerm then c.BecomeFollower(req.term) else c;
    var u1 := if req.term > u.currentTerm then u.BecomeFollower(req.term) else u;
    assert Twin(c1, u1);
    SameEnds(c1, u1);
    assert Twin(c1.(votedFor := Some(req.candidateId)), u1.(votedFor := Some(req.candidateId)));
  }

  // ----- requests --------------------------------------------------------------------

  /** The request's consistency check agrees with what the node has committed. */
  ghost predicate PrevAgrees(u: NodeState, req: AppendRequest) {
    var p := req.prevLogIndex;
    1 <= p <= u.commitIndex ==> p <= |u.log| && u.log[p - 1].term == req.prevLogTerm
  }

  ghost predicate EntriesNumbered(req: AppendRequest) {
    forall k :: 0 <= k < |req.entries| ==> req.entries[k].index == req.prevLogIndex + 1 + k
  }

  /** The request's entries repeat and reach past what the node has committed. */
  ghost predicate EntriesAgree(u: NodeState, req: AppendRequest) {
    var p := req.prevLogIndex;
    && (req.entries != [] ==> req.Covers() >= u.commitIndex)
    && (forall j :: p <= j < req.Covers() && j < u.commitIndex && j < |u.log| ==> req.entries[j - p] == u.log[j])
  }

  ghost predicate Compatible(u: NodeState, req: AppendRequest) {
    PrevAgrees(u, req) && (Accepts(u, req) ==> EntriesNumbered(req) && EntriesAgree(u, req))
  }

  /** The request agrees with the compacted prefix: below the offset the node does
      not look, and at the offset it cannot cut a conflicting entry off. */
  ghost predicate OldPrevAgrees(c: NodeState, u: NodeState, req: AppendRequest) {
    1 <= req.prevLogIndex <= c.logOffset && req.prevLogIndex <= |u.log| ==>
      u.log[req.prevLogIndex - 1].term == req.prevLogTerm
  }

  /** Entries must start at or after the offset. */
  predicate FromOffset(c: NodeState, req: AppendRequest) {
    req.entries != [] ==> req.prevLogIndex >= c.logOffset
  }

  lemma SameCheck(c: NodeState, u: NodeState, req: AppendRequest)
    requires Twin(c, u) && OldPrevAgrees(c, u, req)
    ensures CheckPrev(c, req) == CheckPrev(u, req)
    ensures CheckPrev(c, req).TruncateAndReject? ==> c.logOffset < req.prevLogIndex <= |u.log|
    ensures CheckPrev(c, req).Accept? ==> req.prevLogIndex <= |u.log|
  {
    if req.prevLogIndex >= c.logOffset {
      SameEntry(c, u, req.prevLogIndex);
    }
  }

  lemma StoreTwin(c: NodeState, u: NodeState, req: AppendRequest)
    requires Twin(c, u) && FromOffset(c, req) && EntriesNumbered(req) && req.prevLogIndex <= |u.log|
    ensures Twin(StoreEntries(c, req), StoreEntries(u, req))
  {
    if req.entries != [] {
      var p := req.prevLogIndex;
      var u' := StoreEntries(u, req);
      assert u'.log == u.log[..p] + req.entries;
      assert StoreEntries(c, req).log == u.log[c.logOffset..][..p - c.logOffset] + req.entries;
      assert u'.log[c.logOffset..] == u.log[c.logOffset..][..p - c.logOffset] + req.entries;
    }
  }

  lemma CutTwin(c: NodeState, u: NodeState, p: nat)
    requires Twin(c, u) && c.logOffset < p <= |u.log|
    ensures Twin(c.TruncateAndAppend(p, []), u.TruncateAndAppend(p, []))
    ensures u.TruncateAndAppend(p, []).log == u.log[..p - 1]
  {
    assert u.log[..p - 1][c.logOffset..] == u.log[c.logOffset..][..p - 1 - c.logOffset];
  }

  lemma FollowTwin(c: NodeState, u: NodeState, commit: nat)
    requires Twin(c, u)
    ensures Twin(FollowCommit(c, commit), FollowCommit(u, commit))
    ensures FollowCommit(c, commit).LastLogIndex() == FollowCommit(u, commit).LastLogIndex()
  {
    SameEnds(c, u);
  }

  lemma FollowLeaderTwin(c: NodeState, u: NodeState, req: AppendRequest)
    requires Twin(c, u) && OldPrevAgrees(c, u, req)
    requires CheckPrev(c, req).Accept? ==> FromOffset(c, req) && EntriesNumbered(req)
    ensures Twin(FollowLeader(c, req).0, FollowLeader(u, req).0)
    ensures FollowLeader(c, req).1 == FollowLeader(u, req).1
  {
    SameEnds(c, u);
    SameCheck(c, u, req);
    if CheckPrev(c, req).Accept? {
      StoreTwin(c, u, req);
      FollowTwin(StoreEntries(c, req), StoreEntries(u, req), req.leaderCommit);
    } else if CheckPrev(c, req).TruncateAndReject? {
      CutTwin(c, u, req.prevLogIndex);
      SameEnds(c.TruncateAndAppend(req.prevLogIndex, []), u.TruncateAndAppend(req.prevLogIndex, []));
    }
  }

  lemma AppendTwin(c: NodeState, u: NodeState, req: AppendRequest)
    requires Twin(c, u) && OldPrevAgrees(c, u, req)
    requires Accepts(c, req) ==> FromOffset(c, req) && EntriesNumbered(req)
    ensures Twin(HandleAppendEntries(c, req).0, HandleAppendEntries(u, req).0)
    ensures HandleAppendEntries(c, req).1 == HandleAppendEntries(u, req).1
  {
    SameEnds(c, u);
    if req.term >= c.currentTerm {
      FollowLeaderTwin(Acknowledge(c, req), Acknowledge(u, req), req);
    }
  }

  lemma StoredLog(s: NodeState, req: AppendRequest)
    requires HandleAppendEntries(s, req).1.success && req.entries != []
    ensures HandleAppendEntries(s, req).0.log == s.TruncateAndAppend(req.prevLogIndex + 1, req.entries).log
    ensures HandleAppendEntries(s, req).0.logOffset == s.logOffset
  {
  }

  /** An accepted request with entries keeps the twins together exactly when its
      entries start at or after the offset; otherwise they are stored at the
      wrong place. */
  lemma FromOffsetExact(c: NodeState, u: NodeState, req: AppendRequest)
    requires Twin(c, u) && OldPrevAgrees(c, u, req) && EntriesNumbered(req) && req.entries != []
    requires HandleAppendEntries(c, req).1.success && HandleAppendEntries(u, req).1.success
    ensures FromOffset(c, req) <==> Twin(HandleAppendEntries(c, req).0, HandleAppendEntries(u, req).0)
  {
    if FromOffset(c, req) {
      AppendTwin(c, u, req);
    } else {
      StoredLog(c, req);
      StoredLog(u, req);
      Misplaced(c, u, req, HandleAppendEntries(c, req).0, HandleAppendEntries(u, req).0);
    }
  }

  lemma Misplaced(c: NodeState, u: NodeState, req: AppendRequest, c': NodeState, u': NodeState)
    requires Twin(c, u) && req.prevLogIndex < c.logOffset
    requires c'.log == c.TruncateAndAppend(req.prevLogIndex + 1, req.entries).log && c'.logOffset == c.logOffset
    requires u'.log == u.TruncateAndAppend(req.prevLogIndex + 1, req.entries).log
    ensures !Twin(c', u')
  {
    assert c'.log == req.entries;
    assert |u'.log| == req.Covers();
  }

  // ----- compaction, snapshots, restarts ---------------------------------------------------

  /** Compacting at an applied point is invisible to the twin. */
  lemma CompactTwin(c: NodeState, u: NodeState, threshold: nat, jobs: seq<SnapshotJob>, workers: seq<NodeId>)
    requires Twin(c, u) && Chain(c)
    ensures Twin(MaybeCompact(c, threshold, jobs, workers), u)
    ensures Chain(MaybeCompact(c, threshold, jobs, workers))
  {
    SameEnds(c, u);
    if |c.log| >= threshold && c.lastApplied > c.logOffset {
      var k := c.lastApplied;
      SameEntry(c, u, k);
      assert u.log[c.logOffset..][k - c.logOffset..] == u.log[k..];
      SameEnds(MaybeCompact(c, threshold, jobs, workers), u);
    }
  }

  lemma {:induction false} KeepFromIsSlice(log: Log, first: nat, base: nat)
    requires forall k :: 0 <= k < |log| ==> log[k].index == base + 1 + k
    requires base < first
    ensures KeepFrom(log, first) == if first - base - 1 <= |log| then log[first - base - 1..] else []
  {
    if log != [] {
      if log[0].index >= first {
        AllKept(log, first);
      } else {
        KeepFromIsSlice(log[1..], first, base + 1);
      }
    }
  }

  lemma {:induction false} AllKept(log: Log, first: nat)
    requires forall k :: 0 <= k < |log| ==> log[k].index >= first
    ensures KeepFrom(log, first) == log
  {
    if log != [] {
      AllKept(log[1..], first);
    }
  }

  /** Installing a snapshot gives the plain log the entries the snapshot stands for. */
  function Splice(log: Log, prefix: Log): Log {
    if |log| <= |prefix| then prefix else prefix + log[|prefix|..]
  }

  ghost predicate StandsFor(snap: Snapshot, prefix: Log) {
    && |prefix| == snap.lastIncludedIndex && Numbered(prefix)
    && (prefix != [] ==> prefix[|prefix| - 1].term == snap.lastIncludedTerm)
  }

  function InstallPlain(u: NodeState, offset: nat, req: InstallRequest, prefix: Log): NodeState {
    var u1 := if req.term > u.currentTerm then u.BecomeFollower(req.term) else u;
    if req.term < u1.currentTerm then u1
    else
      var u2 := u1.(leaderId := Some(req.leaderId));
      if |prefix| <= offset then u2
      else u2.(log := Splice(u.log, prefix),
               commitIndex := Max(u.commitIndex, |prefix|), lastApplied := Max(u.lastApplied, |prefix|))
  }

  lemma KeptLog(c: NodeState, u: NodeState, k: nat)
    requires Twin(c, u) && k > c.logOffset
    ensures KeepFrom(c.log, k + 1) == if k <= |u.log| then u.log[k..] else []
  {
    KeepFromIsSlice(c.log, k + 1, c.logOffset);
    assert |c.log| == |u.log| - c.logOffset;
    if k <= |u.log| {
      DropTwice(u.log, c.logOffset, k);
    }
  }

  lemma SpliceShape(log: Log, prefix: Log)
    requires Numbered(log) && Numbered(prefix)
    ensures Numbered(Splice(log, prefix)) && |Splice(log, prefix)| == Max(|log|, |prefix|)
    ensures Splice(log, prefix)[|prefix|..] == if |prefix| < |log| then log[|prefix|..] else []
    ensures prefix <= Splice(log, prefix)
  {
  }

  lemma SnapshotTwin(c: NodeState, u: NodeState, snap: Snapshot, prefix: Log)
    requires Twin(c, u) && StandsFor(snap, prefix) && snap.lastIncludedIndex > c.logOffset
    ensures var k := snap.lastIncludedIndex;
            var u' := u.(log := Splice(u.log, prefix),
                         commitIndex := Max(u.commitIndex, k), lastApplied := Max(u.lastApplied, k));
            Twin(c.InstallSnapshot(snap), u') && (Chain(c) ==> Chain(c.InstallSnapshot(snap)))
  {
    var k := snap.lastIncludedIndex;
    var c' := c.InstallSnapshot(snap);
    var u' := u.(log := Splice(u.log, prefix),
                 commitIndex := Max(u.commitIndex, k), lastApplied := Max(u.lastApplied, k));
    SameEnds(c, u);
    KeptLog(c, u, k);
    SpliceShape(u.log, prefix);
    assert c'.log == u'.log[k..];
    assert Twin(c', u');
    SameEnds(c', u');
  }

  lemma InstallTwin(c: NodeState, u: NodeState, req: InstallRequest, prefix: Log)
    requires Twin(c, u) && StandsFor(req.snapshot, prefix)
    ensures Twin(HandleInstallSnapshot(c, req), InstallPlain(u, c.logOffset, req, prefix))
    ensures Chain(c) ==> Chain(HandleInstallSnapshot(c, req))
  {
    var c1 := if req.term > c.currentTerm then c.BecomeFollower(req.term) else c;
    var u1 := if req.term > u.currentTerm then u.BecomeFollower(req.term) else u;
    var c2, u2 := c1.(leaderId := Some(req.leaderId)), u1.(leaderId := Some(req.leaderId));
    assert Twin(c1, u1) && Twin(c2, u2);
    if req.term >= c1.currentTerm && req.snapshot.lastIncludedIndex > c.logOffset {
      SnapshotTwin(c2, u2, req.snapshot, prefix);
    }
  }

  function RestartPlain(u: NodeState, offset: nat): NodeState {
    FRESH.(currentTerm := u.currentTerm, votedFor := u.votedFor, log := u.log,
           commitIndex := offset, lastApplied := offset)
  }

  lemma RestartTwin(c: NodeState, u: NodeState)
    requires Twin(c, u)
    ensures Twin(Restore(Durable(c)), RestartPlain(u, c.logOffset)) && Chain(Restore(Durable(c)))
  {
  }

  // ----- leaders and application ----------------------------------------------------------------

  lemma AdvanceTwin(c: NodeState, u: NodeState)
    requires Twin(c, u) && Chain(c)
    ensures Twin(AdvanceCommit(c), AdvanceCommit(u)) && Chain(AdvanceCommit(c))
  {
    SameEnds(c, u);
    var k := CommitPoint(c.matchIndex, |u.log|);
    if k > c.commitIndex {
      SameEntry(c, u, k);
    }
  }

  lemma ReplyTwin(c: NodeState, u: NodeState, peer: NodeId, resp: AppendResponse)
    requires Twin(c, u) && Chain(c)
    ensures Twin(HandleAppendReply(c, peer, resp), HandleAppendReply(u, peer, resp))
    ensures Chain(HandleAppendReply(c, peer, resp))
  {
    if c.role == Leader && resp.term <= c.currentTerm && resp.success {
      AdvanceTwin(RecordMatch(c, peer, resp.matchIndex), RecordMatch(u, peer, resp.matchIndex));
    }
  }

  lemma LongerTwin(c: NodeState, u: NodeState, e: LogEntry)
    requires Twin(c, u) && e.index == |u.log| + 1
    ensures Twin(c.(log := c.log + [e]), u.(log := u.log + [e]))
  {
    assert (u.log + [e])[c.logOffset..] == u.log[c.logOffset..] + [e];
  }

  lemma ProposeTwin(c: NodeState, u: NodeState, command: Command)
    requires Twin(c, u) && Chain(c)
    ensures Twin(c.AppendEntry(command), u.AppendEntry(command)) && Chain(c.AppendEntry(command))
  {
    SameEnds(c, u);
    LongerTwin(c, u, LogEntry(c.currentTerm, |u.log| + 1, command));
  }

  lemma SameReplication(c: NodeState, u: NodeState, id: NodeId, peer: NodeId)
    requires c.currentTerm == u.currentTerm && c.commitIndex == u.commitIndex
    requires c.NextIndexOf(peer) == u.NextIndexOf(peer) && c.MatchIndexOf(peer) == u.MatchIndexOf(peer)
    requires c.NextIndexOf(peer) > c.logOffset && c.NextIndexOf(peer) > u.logOffset
    requires c.GetEntriesFrom(c.NextIndexOf(peer)) == u.GetEntriesFrom(c.NextIndexOf(peer))
    requires c.TermAt(c.NextIndexOf(peer) - 1) == u.TermAt(c.NextIndexOf(peer) - 1)
    ensures Replication(c, id, peer) == Replication(u, id, peer)
  {
  }

  /** What a replication round sends is the same as long as no snapshot is needed. */
  lemma ReplicationTwin(c: NodeState, u: NodeState, id: NodeId, peer: NodeId)
    requires Twin(c, u) && c.NextIndexOf(peer) > c.logOffset
    ensures Replication(c, id, peer) == Replication(u, id, peer)
  {
    var next := c.NextIndexOf(peer);
    SameTail(c, u, next);
    SameEntry(c, u, next - 1);
    SameReplication(c, u, id, peer);
  }

  lemma {:induction false} FetchIsSlice(s: NodeState, full: Log, from: nat, to: nat)
    requires s.logOffset <= from <= to <= |full| && s.logOffset <= |full| && s.log == full[s.logOffset..]
    ensures Fetch(s, from, to) == full[from..to]
    decreases (to as int) - (from as int)
  {
    if from < to {
      FetchIsSlice(s, full, from + 1, to);
      assert full[from..to] == [full[from]] + full[from + 1..to];
    }
  }

  lemma ApplyTwin(c: NodeState, u: NodeState)
    requires Twin(c, u) && Chain(c)
    ensures Twin(TakeCommitted(c).0, TakeCommitted(u).0) && Chain(TakeCommitted(c).0)
    ensures TakeCommitted(c).1 == TakeCommitted(u).1 == u.log[u.lastApplied..u.commitIndex]
  {
    SameEnds(c, u);
    FetchIsSlice(c, u.log, c.lastApplied, c.commitIndex);
    FetchIsSlice(u, u.log, u.lastApplied, u.commitIndex);
  }
}
