/** A leader brings a lagging follower up to date: it steps its next index back on
    every rejection, and falls back to its snapshot when the entries it would need
    are compacted away.  Both nodes may have compacted; `full` and `have` are the
    logs they hold in effect. */
module CatchUp {
  import opened Types
  import opened RaftSpec
  import opened Logs
  import opened Compaction

  datatype Result = Again | Caught(carried: bool) | Idle

  /** One round in which every message arrives. */
  ghost function Round(l: NodeState, me: NodeId, f: NodeState, peer: NodeId): (NodeState, NodeState, Result) {
    match Replication(l, me, peer)
    case Skip => (l, f, Idle)
    case SendSnapshot(req) =>
      var f' := HandleInstallSnapshot(f, req);
      (HandleInstallReply(l, peer, f'.currentTerm, req.snapshot.lastIncludedIndex), f', Again)
    case SendAppend(req) =>
      var (f', r) := HandleAppendEntries(f, req);
      (HandleAppendReply(l, peer, r), f', if r.success then Caught(req.entries != []) else Again)
  }

  /** What the follower's log becomes in effect. */
  ghost function NextLog(l: NodeState, me: NodeId, f: NodeState, peer: NodeId, full: Log, have: Log): Log {
    match Replication(l, me, peer)
    case Skip => have
    case SendSnapshot(_) => if l.logOffset <= |full| then Splice(have, full[..l.logOffset]) else have
    case SendAppend(req) => HandleAppendEntries(Unfold(f, have), req).0.log
  }

  /** The Log Matching property, for two logs. */
  ghost predicate PairMatch(a: Log, b: Log) {
    forall k :: 0 <= k < |a| && k < |b| && a[k].term == b[k].term ==> Agree(a, b, k + 1)
  }

  ghost predicate Ready(l: NodeState, f: NodeState, peer: NodeId, full: Log, have: Log) {
    && Stores(l, full) && Stores(f, have)
    && l.role == Leader && f.currentTerm <= l.currentTerm
    && peer in l.nextIndex && f.logOffset < l.nextIndex[peer] <= |full| + 1
    && PairMatch(full, have) && Agree(full, have, f.logOffset) && Agree(full, have, l.MatchIndexOf(peer))
  }

  // ----- one request -------------------------------------------------------------------

  /** What the leader sends, in terms of the log it holds in effect. */
  lemma RequestQuotes(l: NodeState, me: NodeId, peer: NodeId, full: Log)
    requires Stores(l, full) && peer in l.nextIndex && 1 <= l.nextIndex[peer] <= |full| + 1
    requires Replication(l, me, peer).SendAppend?
    ensures var req := Replication(l, me, peer).append;
            && l.nextIndex[peer] > l.logOffset
            && req.term == l.currentTerm && req.prevLogIndex == l.nextIndex[peer] - 1
            && req.entries == full[req.prevLogIndex..]
            && req.prevLogTerm == if req.prevLogIndex == 0 then 0 else full[req.prevLogIndex - 1].term
  {
    var u := Unfold(l, full);
    assert Twin(l, u);
    ReplicationTwin(l, u, me, peer);
    PlainTail(u, l.nextIndex[peer]);
    assert Replication(u, me, peer).append.entries == u.GetEntriesFrom(u.nextIndex[peer]);
  }

  lemma PlainTail(u: NodeState, next: nat)
    requires Plain(u) && 1 <= next <= |u.log| + 1
    ensures u.GetEntriesFrom(next) == u.log[next - 1..]
    ensures u.TermAt(next - 1) == if next == 1 then 0 else u.log[next - 2].term
  {
  }

  /** The request never reaches below the follower's own offset. */
  lemma ProbeFits(l: NodeState, me: NodeId, f: NodeState, peer: NodeId, full: Log, have: Log)
    requires Ready(l, f, peer, full, have) && Replication(l, me, peer).SendAppend?
    ensures var req := Replication(l, me, peer).append;
            && req.prevLogIndex >= f.logOffset && FromOffset(f, req)
            && OldPrevAgrees(f, Unfold(f, have), req) && EntriesNumbered(req)
  {
    RequestQuotes(l, me, peer, full);
  }

  lemma StoredFull(u: NodeState, req: AppendRequest, full: Log)
    requires Plain(u) && Agree(full, u.log, req.prevLogIndex) && req.entries == full[req.prevLogIndex..]
    ensures var log' := StoreEntries(u, req).log;
            full <= log' && (req.entries != [] ==> log' == full)
  {
    var p := req.prevLogIndex;
    assert u.log[..p] == full[..p];
    if req.entries != [] {
      assert StoreEntries(u, req).log == u.log[..p] + full[p..];
    }
  }

  ghost predicate Quotes(req: AppendRequest, full: Log) {
    && req.prevLogIndex <= |full| && req.entries == full[req.prevLogIndex..]
    && req.prevLogTerm == if req.prevLogIndex == 0 then 0 else full[req.prevLogIndex - 1].term
  }

  /** The follower's log after a request that quotes the leader's log to its end. */
  lemma AppendedLog(u: NodeState, req: AppendRequest, full: Log)
    requires Plain(u) && PairMatch(full, u.log) && req.term >= u.currentTerm && Quotes(req, full)
    ensures var (u', r) := HandleAppendEntries(u, req);
            var p := req.prevLogIndex;
            && (r.success <==> p == 0 || (p <= |u.log| && u.log[p - 1].term == full[p - 1].term))
            && (r.success ==> full <= u'.log && (req.entries != [] ==> u'.log == full))
            && (!r.success ==> u'.log == if p > |u.log| then u.log else u.log[..p - 1])
            && u'.currentTerm == r.term == req.term
  {
    var u1, p := Acknowledge(u, req), req.prevLogIndex;
    CheckPrevPlain(u1, req);
    if CheckPrev(u1, req).Accept? {
      assert Agree(full, u.log, p);
      StoredFull(u1, req, full);
    }
  }

  // ----- one round ------------------------------------------------------------------------

  /** The follower's side of an AppendEntries round: (f', r) is its new state and
      answer and have' the log it then holds in effect. */
  ghost predicate Answered(l: NodeState, f: NodeState, peer: NodeId, full: Log, have: Log,
                           f': NodeState, r: AppendResponse, have': Log)
    requires peer in l.nextIndex && l.nextIndex[peer] >= 1
  {
    var p := l.nextIndex[peer] - 1;
    && Stores(f', have') && f'.logOffset == f.logOffset
    && f'.currentTerm == r.term == l.currentTerm && r.matchIndex == |have'|
    && (r.success ==> full <= have' && (p < |full| ==> have' == full))
    && (!r.success ==>
          && p > f.logOffset && (p <= |have| && p <= |full| ==> have[p - 1].term != full[p - 1].term)
          && have' == if p > |have| then have else have[..p - 1])
  }

  lemma AppendAnswered(l: NodeState, me: NodeId, f: NodeState, peer: NodeId, full: Log, have: Log)
    requires Ready(l, f, peer, full, have) && Replication(l, me, peer).SendAppend?
    ensures var (f', r) := HandleAppendEntries(f, Replication(l, me, peer).append);
            Answered(l, f, peer, full, have, f', r, NextLog(l, me, f, peer, full, have))
  {
    var req, u := Replication(l, me, peer).append, Unfold(f, have);
    RequestQuotes(l, me, peer, full);
    ProbeFits(l, me, f, peer, full, have);
    AppendTwin(f, u, req);
    AppendedLog(u, req, full);
    SameEnds(HandleAppendEntries(f, req).0, HandleAppendEntries(u, req).0);
    ReportsEnd(f, req);
    OffsetKept(f, req);
  }

  lemma CutKeepsMatch(full: Log, have: Log, k: nat, m: nat)
    requires PairMatch(full, have) && Agree(full, have, m) && m <= k <= |have|
    ensures PairMatch(full, have[..k]) && Agree(full, have[..k], m)
  {
    forall j | 0 <= j < |full| && j < k && full[j].term == have[..k][j].term
      ensures Agree(full, have[..k], j + 1)
    {
      assert Agree(full, have, j + 1);
    }
  }

  /** A rejection needs a probe strictly above the offset, so stepping back keeps
      the next probe at or above it. */
  lemma RejectedRound(l: NodeState, me: NodeId, f: NodeState, peer: NodeId, full: Log, have: Log)
    requires Ready(l, f, peer, full, have) && Round(l, me, f, peer).2.Again? && Replication(l, me, peer).SendAppend?
    ensures var (l', f', _) := Round(l, me, f, peer);
            && Ready(l', f', peer, full, NextLog(l, me, f, peer, full, have))
            && f'.logOffset == f.logOffset && l'.logOffset == l.logOffset
            && l'.nextIndex[peer] == l.nextIndex[peer] - 1
  {
    var (f', r) := HandleAppendEntries(f, Replication(l, me, peer).append);
    AppendAnswered(l, me, f, peer, full, have);
    RejectedReply(l, peer, r);
    RejectedReady(l, f, peer, full, have, f', r, NextLog(l, me, f, peer, full, have));
  }

  lemma RejectedReady(l: NodeState, f: NodeState, peer: NodeId, full: Log, have: Log,
                      f': NodeState, r: AppendResponse, have': Log)
    requires Ready(l, f, peer, full, have) && Answered(l, f, peer, full, have, f', r, have') && !r.success
    ensures Ready(l.(nextIndex := l.nextIndex[peer := l.nextIndex[peer] - 1]), f', peer, full, have')
  {
    var p := l.nextIndex[peer] - 1;
    if p <= |have| {
      CutKeepsMatch(full, have, p - 1, f.logOffset);
      CutKeepsMatch(full, have, p - 1, l.MatchIndexOf(peer));
    }
  }

  lemma OffsetKept(f: NodeState, req: AppendRequest)
    ensures HandleAppendEntries(f, req).0.logOffset == f.logOffset
  {
  }

  lemma RejectedReply(l: NodeState, peer: NodeId, r: AppendResponse)
    requires l.role == Leader && r.term == l.currentTerm && !r.success && peer in l.nextIndex && l.nextIndex[peer] > 1
    ensures HandleAppendReply(l, peer, r) == l.(nextIndex := l.nextIndex[peer := l.nextIndex[peer] - 1])
  {
  }

  lemma SnapshotRound(l: NodeState, me: NodeId, f: NodeState, peer: NodeId, full: Log, have: Log)
    requires Ready(l, f, peer, full, have) && Replication(l, me, peer).SendSnapshot?
    ensures var (l', f', r) := Round(l, me, f, peer);
            && r.Again? && Ready(l', f', peer, full, NextLog(l, me, f, peer, full, have))
            && f.logOffset < l.logOffset && f'.logOffset == l.logOffset == l'.logOffset
  {
    var req, u, prefix := Replication(l, me, peer).install, Unfold(f, have), full[..l.logOffset];
    assert l.nextIndex[peer] <= l.logOffset;
    assert StandsFor(req.snapshot, prefix);
    assert Twin(f, u);
    InstallTwin(f, u, req, prefix);
    SpliceMatches(full, have, prefix);
  }

  lemma SpliceMatches(full: Log, have: Log, prefix: Log)
    requires PairMatch(full, have) && prefix <= full
    ensures PairMatch(full, Splice(have, prefix)) && Agree(full, Splice(have, prefix), |prefix|)
  {
  }

  lemma AcceptedRound(l: NodeState, me: NodeId, f: NodeState, peer: NodeId, full: Log, have: Log)
    requires Ready(l, f, peer, full, have) && Round(l, me, f, peer).2.Caught?
    ensures var (l', f', r) := Round(l, me, f, peer);
            var have' := NextLog(l, me, f, peer, full, have);
            && Stores(l', full) && Stores(f', have') && full <= have' && (r.carried ==> have' == full)
            && peer in l'.matchIndex && l'.matchIndex[peer] == |have'|
  {
    AppendAnswered(l, me, f, peer, full, have);
    RequestQuotes(l, me, peer, full);
    AcceptedReply(l, peer, HandleAppendEntries(f, Replication(l, me, peer).append).1);
  }

  lemma AcceptedReply(l: NodeState, peer: NodeId, r: AppendResponse)
    requires l.role == Leader && r.term == l.currentTerm && r.success
    ensures var l' := HandleAppendReply(l, peer, r);
            && l'.log == l.log && l'.logOffset == l.logOffset && l'.snapshot == l.snapshot
            && peer in l'.matchIndex && l'.matchIndex[peer] == r.matchIndex
  {
  }

  lemma ReportsEnd(f: NodeState, req: AppendRequest)
    ensures HandleAppendEntries(f, req).1.matchIndex == HandleAppendEntries(f, req).0.LastLogIndex()
  {
  }

  // ----- all rounds -----------------------------------------------------------------------------

  /** Rounds until the follower accepts or the leader sees no need to send. */
  ghost function CatchUp(l: NodeState, me: NodeId, f: NodeState, peer: NodeId, full: Log, have: Log)
    : (NodeState, NodeState, Log, Result)
    requires Ready(l, f, peer, full, have)
    decreases if f.logOffset < l.logOffset then 1 else 0, l.nextIndex[peer]
  {
    var (l', f', r) := Round(l, me, f, peer);
    var have' := NextLog(l, me, f, peer, full, have);
    if r.Again? then
      RoundAdvances(l, me, f, peer, full, have);
      CatchUp(l', me, f', peer, full, have')
    else (l', f', have', r)
  }

  lemma RoundAdvances(l: NodeState, me: NodeId, f: NodeState, peer: NodeId, full: Log, have: Log)
    requires Ready(l, f, peer, full, have) && Round(l, me, f, peer).2.Again?
    ensures var (l', f', _) := Round(l, me, f, peer);
            && Ready(l', f', peer, full, NextLog(l, me, f, peer, full, have))
            && l'.logOffset == l.logOffset
            && (|| (f.logOffset < l.logOffset && f'.logOffset == l.logOffset)
                || (f'.logOffset == f.logOffset && l'.nextIndex[peer] < l.nextIndex[peer]))
  {
    if Replication(l, me, peer).SendSnapshot? {
      SnapshotRound(l, me, f, peer, full, have);
    } else {
      RejectedRound(l, me, f, peer, full, have);
    }
  }

  /** Catch-up ends.  When the follower has accepted, the leader's log is a prefix of
      the follower's, equal to it when the last request carried entries; when the
      leader stops without sending, the follower holds all that is committed. */
  lemma {:induction false} CatchUpCorrect(l: NodeState, me: NodeId, f: NodeState, peer: NodeId, full: Log, have: Log)
    requires Ready(l, f, peer, full, have)
    ensures var (l', f', have', r) := CatchUp(l, me, f, peer, full, have);
            && !r.Again?
            && (r.Caught? ==>
                  && Stores(l', full) && Stores(f', have') && full <= have' && (r.carried ==> have' == full)
                  && peer in l'.matchIndex && l'.matchIndex[peer] == |have'|)
            && (r.Idle? ==> Stores(f', have') && Agree(full, have', l'.commitIndex))
    decreases if f.logOffset < l.logOffset then 1 else 0, l.nextIndex[peer]
  {
    var (l', f', r) := Round(l, me, f, peer);
    if r.Again? {
      RoundAdvances(l, me, f, peer, full, have);
      CatchUpCorrect(l', me, f', peer, full, NextLog(l, me, f, peer, full, have));
    } else if r.Caught? {
      AcceptedRound(l, me, f, peer, full, have);
    }
  }
}
