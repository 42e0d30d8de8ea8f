/** A node together with its storage.  Every handler leaves on disk exactly what a
    restart needs to rebuild the durable part of its memory. */
module Durability {
  import opened Types
  import opened RaftSpec
  import opened RaftStateObject
  import opened Compaction
  import opened Storage
  import TwinRuns

  /** Loading the store gives back the durable part of s. */
  ghost predicate Synced(db: Database, s: NodeState) {
    || Contents(db) == Some(Durable(s))
    || (db == map[] && Durable(s) == Durable(FRESH) && s.role == Follower)
  }

  /** The log is consecutive after the offset and the disk agrees with it. */
  ghost predicate GivesBack(db: Database, s: NodeState) {
    Contiguous(s) && Synced(db, s)
  }

  // ----- storing what an AppendEntries changed -------------------------------------------

  function PutAll(db: Database, entries: seq<LogEntry>): Database {
    if entries == [] then db
    else
      var last := entries[|entries| - 1];
      PutAll(db, entries[..|entries| - 1])[LogKey(last.index) := Entry(last)]
  }

  /** The entries from an index on replaced by others. */
  ghost function Rewritten(db: Database, from: nat, entries: seq<LogEntry>): Database {
    PutAll(db - LogKeys(db, from, LIMIT), entries)
  }

  /** The store holds p; closed until asked for. */
  ghost predicate Holds(db: Database, p: Persisted) {
    forall k: nat :: Asked(k) ==> Contents(db) == Some(p)
  }

  lemma PutKept(db: Database, p: Persisted, e: LogEntry)
    requires Holds(db, p) && e.index == p.logOffset + |p.log| + 1 && e.index + 1 < LIMIT
    ensures Holds(db[LogKey(e.index) := Entry(e)], p.(log := p.log + [e]))
  {
    assert Asked(0);
    AppendKept(db, p, e);
  }

  lemma {:induction false} PutAllHeld(db: Database, p: Persisted, entries: seq<LogEntry>)
    requires Holds(db, p)
    requires forall k :: 0 <= k < |entries| ==> entries[k].index == p.logOffset + |p.log| + 1 + k
    requires p.logOffset + |p.log| + |entries| + 1 < LIMIT
    ensures Holds(PutAll(db, entries), p.(log := p.log + entries))
  {
    var n := |entries|;
    if n == 0 {
      assert p.log + entries == p.log;
    } else {
      PutAllHeld(db, p, entries[..n - 1]);
      var p1 := p.(log := p.log + entries[..n - 1]);
      PutKept(PutAll(db, entries[..n - 1]), p1, entries[n - 1]);
      assert p1.log + [entries[n - 1]] == p.log + entries;
    }
  }

  lemma PutAllKept(db: Database, p: Persisted, entries: seq<LogEntry>)
    requires Contents(db) == Some(p)
    requires forall k :: 0 <= k < |entries| ==> entries[k].index == p.logOffset + |p.log| + 1 + k
    requires p.logOffset + |p.log| + |entries| + 1 < LIMIT
    ensures Contents(PutAll(db, entries)) == Some(p.(log := p.log + entries))
  {
    PutAllHeld(db, p, entries);
    assert Asked(0);
  }

  lemma HardKnown(db: Database, term: nat, vote: Option<NodeId>, offset: nat)
    requires KnownKeys(db)
    ensures KnownKeys(WriteHard(db, term, vote, offset))
  {
  }

  lemma HardWritten(db: Database, s: NodeState, s': NodeState)
    requires Synced(db, s)
    requires s'.log == s.log && s'.logOffset == s.logOffset && s'.snapshot == s.snapshot
    ensures Contents(WriteHard(db, s'.currentTerm, s'.votedFor, s'.logOffset)) == Some(Durable(s'))
  {
    HardStateKept(db, Durable(s), s'.currentTerm, s'.votedFor);
  }

  ghost predicate NumberedFrom(log: seq<LogEntry>, base: nat) {
    forall k :: 0 <= k < |log| ==> log[k].index == base + 1 + k
  }

  lemma Joined(kept: seq<LogEntry>, entries: seq<LogEntry>, base: nat)
    requires NumberedFrom(kept, base) && NumberedFrom(entries, base + |kept|)
    ensures NumberedFrom(kept + entries, base) && (kept + entries)[|kept|..] == entries
  {
  }

  lemma TailOf(s: NodeState, kept: seq<LogEntry>, entries: seq<LogEntry>)
    requires s.log == kept + entries && entries != []
    requires NumberedFrom(s.log, s.logOffset) && s.log[|kept|..] == entries
    ensures s.GetEntriesFrom(s.logOffset + |kept| + 1) == entries
  {
    assert s.LastLogIndex() == s.logOffset + |s.log|;
  }

  /** The part of the log the request leaves in place. */
  function KeptEntries(s: NodeState, req: AppendRequest): seq<LogEntry>
    requires s.logOffset <= req.prevLogIndex <= s.logOffset + |s.log|
  {
    s.log[..req.prevLogIndex - s.logOffset]
  }

  lemma RewrittenShape(s: NodeState, req: AppendRequest)
    requires s.logOffset <= req.prevLogIndex <= s.logOffset + |s.log|
    ensures s.TruncateAndAppend(req.prevLogIndex + 1, req.entries) == s.(log := KeptEntries(s, req) + req.entries)
  {
    assert |KeptEntries(s, req)| == |s.log| ==> KeptEntries(s, req) == s.log;
  }

  lemma KeptNumbered(s: NodeState, req: AppendRequest)
    requires Contiguous(s) && EntriesNumbered(req) && s.logOffset <= req.prevLogIndex <= s.logOffset + |s.log|
    ensures NumberedFrom(KeptEntries(s, req), s.logOffset)
    ensures NumberedFrom(req.entries, s.logOffset + |KeptEntries(s, req)|)
  {
  }

  lemma TailSent(s: NodeState, req: AppendRequest)
    requires Contiguous(s) && EntriesNumbered(req) && req.entries != []
    requires s.logOffset <= req.prevLogIndex <= s.logOffset + |s.log|
    ensures var s' := s.(log := KeptEntries(s, req) + req.entries);
            Contiguous(s') && s'.GetEntriesFrom(req.prevLogIndex + 1) == req.entries
  {
    var kept := KeptEntries(s, req);
    KeptNumbered(s, req);
    Joined(kept, req.entries, s.logOffset);
    TailOf(s.(log := kept + req.entries), kept, req.entries);
  }

  /** Truncating and re-appending from the request on stores the new log. */
  lemma StoredWritten(db: Database, s: NodeState, req: AppendRequest)
    requires Contents(db) == Some(Durable(s)) && EntriesNumbered(req) && req.Covers() + 1 < LIMIT
    requires s.logOffset <= req.prevLogIndex <= s.logOffset + |s.log|
    ensures Contents(Rewritten(db, req.prevLogIndex + 1, req.entries))
         == Some(Durable(s).(log := KeptEntries(s, req) + req.entries))
  {
    TruncateKept(db, Durable(s), req.prevLogIndex + 1);
    assert |KeptEntries(s, req)| == |s.log| ==> KeptEntries(s, req) == s.log;
    PutAllKept(db - LogKeys(db, req.prevLogIndex + 1, LIMIT), Durable(s).(log := KeptEntries(s, req)), req.entries);
  }

  lemma CutWritten(db: Database, s: NodeState, p: nat)
    requires Contiguous(s) && Contents(db) == Some(Durable(s)) && s.logOffset < p <= s.LastLogIndex()
    ensures var s' := s.TruncateAndAppend(p, []);
            && Contiguous(s') && s'.LastLogIndex() == p - 1
            && Contents(db - LogKeys(db, p, LIMIT)) == Some(Durable(s'))
  {
    TruncateKept(db, Durable(s), p);
    assert s.TruncateAndAppend(p, []).log == s.log[..p - s.logOffset - 1];
  }

  // ----- when the condition fails ----------------------------------------------------------

  /** Every stored entry sits under its own index. */
  ghost predicate Keyed(db: Database) {
    forall i :: 0 <= i < LIMIT && LogKey(i) in db && db[LogKey(i)].Entry? ==> db[LogKey(i)].entry.index == i
  }

  lemma {:induction false} PutAllKeyed(db: Database, entries: seq<LogEntry>)
    requires Keyed(db) && forall k :: 0 <= k < |entries| ==> entries[k].index < LIMIT
    ensures Keyed(PutAll(db, entries))
  {
    var n := |entries|;
    if n > 0 {
      PutAllKeyed(db, entries[..n - 1]);
      forall i | 0 <= i < LIMIT ensures LogKey(i) == LogKey(entries[n - 1].index) <==> i == entries[n - 1].index {
        LogKeyOrder(i, entries[n - 1].index);
      }
    }
  }

  lemma ContentsKeyed(db: Database, s: NodeState)
    requires Contiguous(s) && Contents(db) == Some(Durable(s))
    ensures Keyed(db)
  {
    forall i | 0 <= i < LIMIT && LogKey(i) in db && db[LogKey(i)].Entry? ensures db[LogKey(i)].entry.index == i {
      var k := i - s.logOffset - 1;
      assert db[LogKey(s.logOffset + 1 + k)] == Entry(s.log[k]);
    }
  }

  /** No loaded log begins at or below the offset. */
  lemma LoadsPastOffset(db: Database, q: Persisted)
    requires Keyed(db) && IsLoaded(db, q) && q.log != []
    ensures q.log[0].index > q.logOffset
  {
    var keys :| Lists(db, q.logOffset + 1, keys) && Reads(db, keys, q.log);
    assert keys[0] in keys;
    var i :| q.logOffset + 1 <= i < LIMIT && keys[0] == LogKey(i);
  }

  /** No load gives back what is in memory. */
  ghost predicate Lost(db: Database, s: NodeState) {
    forall q :: IsLoaded(db, q) ==> q != Durable(s)
  }

  /** A log in memory that begins at or below the offset is found by no load. */
  lemma NotReloaded(db: Database, s: NodeState)
    requires Keyed(db) && s.log != [] && s.log[0].index <= s.logOffset
    ensures Lost(db, s)
  {
    forall q | IsLoaded(db, q) && q.log != [] ensures q.log[0].index > q.logOffset {
      LoadsPastOffset(db, q);
    }
  }

  // ----- what an accepted request leaves on disk ----------------------------------------------

  lemma EndOfLog(s: NodeState)
    requires Contiguous(s)
    ensures s.LastLogIndex() == s.logOffset + |s.log|
  {
  }

  /** The handler found the entry before the new ones, stored them and followed the commit. */
  ghost predicate Accepted(s: NodeState, req: AppendRequest, s': NodeState) {
    req.prevLogIndex <= s.logOffset + |s.log| && s' == FollowCommit(StoreEntries(s, req), req.leaderCommit)
  }

  lemma CommitNotWritten(s: NodeState, commit: nat, from: nat)
    ensures var s' := FollowCommit(s, commit);
            && Durable(s') == Durable(s) && (Contiguous(s) ==> Contiguous(s'))
            && s'.GetEntriesFrom(from) == s.GetEntriesFrom(from)
  {
  }

  lemma EntriesShape(s: NodeState, req: AppendRequest, s': NodeState)
    requires Contiguous(s) && Accepted(s, req, s') && req.entries != [] && req.prevLogIndex >= s.logOffset
    ensures s' == FollowCommit(s.(log := KeptEntries(s, req) + req.entries), req.leaderCommit)
  {
    RewrittenShape(s, req);
  }

  /** Truncating and re-appending from the request on stores the new log. */
  lemma EntriesWritten(db: Database, s: NodeState, req: AppendRequest, s': NodeState)
    requires Contiguous(s) && Contents(db) == Some(Durable(s)) && Accepted(s, req, s')
    requires EntriesNumbered(req) && req.entries != [] && req.prevLogIndex >= s.logOffset && req.Covers() + 1 < LIMIT
    ensures Contiguous(s')
    ensures Contents(Rewritten(db, req.prevLogIndex + 1, s'.GetEntriesFrom(req.prevLogIndex + 1))) == Some(Durable(s'))
  {
    EntriesShape(s, req, s');
    TailSent(s, req);
    CommitNotWritten(s.(log := KeptEntries(s, req) + req.entries), req.leaderCommit, req.prevLogIndex + 1);
    StoredWritten(db, s, req);
  }

  /** A request from before the offset leaves its own entries as the log. */
  lemma StaleStored(s: NodeState, req: AppendRequest, s': NodeState)
    requires EntriesNumbered(req) && req.entries != [] && req.prevLogIndex < s.logOffset && Accepted(s, req, s')
    ensures s'.log == req.entries && s'.log[0].index <= s'.logOffset
    ensures forall e :: e in s'.GetEntriesFrom(req.prevLogIndex + 1) ==> e.index <= req.Covers()
  {
    assert s'.log == [] + req.entries;
    assert forall e :: e in s'.GetEntriesFrom(req.prevLogIndex + 1) ==> e in s'.log;
  }

  lemma RewriteLost(db: Database, s: NodeState, from: nat)
    requires Keyed(db) && s.log != [] && s.log[0].index <= s.logOffset
    requires forall e :: e in s.GetEntriesFrom(from) ==> e.index < LIMIT
    ensures Lost(Rewritten(db, from, s.GetEntriesFrom(from)), s)
  {
    PutAllKeyed(db - LogKeys(db, from, LIMIT), s.GetEntriesFrom(from));
    NotReloaded(Rewritten(db, from, s.GetEntriesFrom(from)), s);
  }

  lemma StaleWritten(db: Database, s: NodeState, req: AppendRequest, s': NodeState)
    requires Contiguous(s) && Contents(db) == Some(Durable(s)) && Accepted(s, req, s')
    requires EntriesNumbered(req) && req.entries != [] && req.prevLogIndex < s.logOffset && req.Covers() < LIMIT
    ensures Lost(Rewritten(db, req.prevLogIndex + 1, s'.GetEntriesFrom(req.prevLogIndex + 1)), s')
  {
    ContentsKeyed(db, s);
    StaleStored(s, req, s');
    RewriteLost(db, s', req.prevLogIndex + 1);
  }

  /** s is on disk and has just stored the request's entries in memory as s'. */
  ghost predicate ToWrite(db: Database, s: NodeState, req: AppendRequest, s': NodeState) {
    && Contiguous(s) && Contents(db) == Some(Durable(s)) && Accepted(s, req, s')
    && EntriesNumbered(req) && req.entries != [] && req.Covers() + 1 < LIMIT
  }

  /** What a load makes of the node's memory: all of it, or never the same.  Closed
      until asked for. */
  ghost predicate Reloads(db: Database, s: NodeState, exact: bool) {
    forall k: nat :: Asked(k) ==> if exact then GivesBack(db, s) else Lost(db, s)
  }

  lemma ReloadsOpen(db: Database, s: NodeState, exact: bool)
    requires Reloads(db, s, exact)
    ensures if exact then GivesBack(db, s) else Lost(db, s)
  {
    assert Asked(0);
  }

  lemma RewriteOutcome(db: Database, s: NodeState, req: AppendRequest, s': NodeState)
    requires ToWrite(db, s, req, s')
    ensures Reloads(Rewritten(db, req.prevLogIndex + 1, s'.GetEntriesFrom(req.prevLogIndex + 1)), s',
                    FromOffset(s, req))
  {
    if FromOffset(s, req) {
      EntriesWritten(db, s, req, s');
    } else {
      StaleWritten(db, s, req, s');
    }
  }

  /** The part of the handler that decides terms and roles. */
  function Greet(s: NodeState, req: AppendRequest): NodeState {
    if req.term < s.currentTerm then s else Acknowledge(s, req)
  }

  /** What the rest of the handler can do: s after the greeting, s' at the end. */
  ghost predicate Ends(s: NodeState, req: AppendRequest, s': NodeState, success: bool) {
    && s'.currentTerm == s.currentTerm && s'.votedFor == s.votedFor && s'.logOffset == s.logOffset
    && if success then Accepted(s, req, s') else s' == s || IsCut(s, req.prevLogIndex, s')
  }

  lemma AppendOutcomes(s: NodeState, req: AppendRequest)
    ensures var (s', resp) := HandleAppendEntries(s, req);
            Ends(Greet(s, req), req, s', resp.success)
  {
  }

  lemma GreetKeepsLog(s: NodeState, req: AppendRequest)
    ensures var s1 := Greet(s, req);
            s1.log == s.log && s1.logOffset == s.logOffset && s1.snapshot == s.snapshot
  {
  }

  ghost predicate IsCut(s: NodeState, p: nat, s': NodeState) {
    s.logOffset < p <= s.logOffset + |s.log| && s' == s.TruncateAndAppend(p, [])
  }

  /** What the disk holds once a request has been handled: `last` is where the log ended
      before, s' the node after. */
  ghost function WriteAppend(db: Database, last: nat, s': NodeState, req: AppendRequest, success: bool): Database {
    WriteLog(WriteHard(db, s'.currentTerm, s'.votedFor, s'.logOffset), last, s', req, success)
  }

  ghost function WriteLog(db: Database, last: nat, s': NodeState, req: AppendRequest, success: bool): Database {
    if success && req.entries != [] then
      Rewritten(db, req.prevLogIndex + 1, s'.GetEntriesFrom(req.prevLogIndex + 1))
    else if !success && s'.LastLogIndex() < last then
      Rewritten(db, s'.LastLogIndex() + 1, [])
    else db
  }

  lemma CutRewritten(db: Database, s: NodeState, p: nat, s': NodeState)
    requires Contiguous(s) && Contents(db) == Some(Durable(s)) && IsCut(s, p, s')
    ensures Contiguous(s') && s'.LastLogIndex() == p - 1 < s.LastLogIndex()
    ensures Contents(Rewritten(db, p, [])) == Some(Durable(s'))
  {
    EndOfLog(s);
    CutWritten(db, s, p);
  }

  lemma EmptyAccepted(db: Database, s: NodeState, req: AppendRequest, s': NodeState)
    requires Contiguous(s) && Contents(db) == Some(Durable(s)) && Accepted(s, req, s') && req.entries == []
    ensures Reloads(db, s', true)
  {
    CommitNotWritten(s, req.leaderCommit, 0);
  }

  lemma RefusedWritten(db: Database, s: NodeState, req: AppendRequest, s': NodeState)
    requires Contiguous(s) && Contents(db) == Some(Durable(s)) && (s' == s || IsCut(s, req.prevLogIndex, s'))
    ensures Reloads(WriteLog(db, s.LastLogIndex(), s', req, false), s', true)
  {
    if s' != s {
      RefusedCut(db, s, req, s');
    }
  }

  lemma RefusedCut(db: Database, s: NodeState, req: AppendRequest, s': NodeState)
    requires Contiguous(s) && Contents(db) == Some(Durable(s)) && IsCut(s, req.prevLogIndex, s')
    ensures Reloads(WriteLog(db, s.LastLogIndex(), s', req, false), s', true)
  {
    CutRewritten(db, s, req.prevLogIndex, s');
    CutReloads(db, s.LastLogIndex(), req, req.prevLogIndex, s');
  }

  lemma CutReloads(db: Database, last: nat, req: AppendRequest, p: nat, s': NodeState)
    requires Contiguous(s') && s'.LastLogIndex() == p - 1 < last
    requires Contents(Rewritten(db, p, [])) == Some(Durable(s'))
    ensures Reloads(WriteLog(db, last, s', req, false), s', true)
  {
  }

  lemma SameWrites(db: Database, last: nat, req: AppendRequest, s': NodeState, exact: bool)
    requires if req.entries == [] then Reloads(db, s', exact)
             else Reloads(Rewritten(db, req.prevLogIndex + 1, s'.GetEntriesFrom(req.prevLogIndex + 1)), s', exact)
    ensures Reloads(WriteLog(db, last, s', req, true), s', exact)
  {
  }

  lemma AcceptedWritten(db: Database, s: NodeState, req: AppendRequest, s': NodeState)
    requires Contiguous(s) && Contents(db) == Some(Durable(s)) && EntriesNumbered(req) && req.Covers() + 1 < LIMIT
    requires Accepted(s, req, s')
    ensures Reloads(WriteLog(db, s.LastLogIndex(), s', req, true), s', FromOffset(s, req))
  {
    if req.entries != [] {
      RewriteOutcome(db, s, req, s');
    } else {
      EmptyAccepted(db, s, req, s');
    }
    SameWrites(db, s.LastLogIndex(), req, s', FromOffset(s, req));
  }

  /** A load gives back memory, exactly when the accepted entries do not start before
      the offset. */
  lemma AppendWritten(db: Database, s: NodeState, req: AppendRequest, s': NodeState, success: bool)
    requires GivesBack(db, s) && EntriesNumbered(req) && req.Covers() + 1 < LIMIT
    requires Ends(Greet(s, req), req, s', success)
    ensures Reloads(WriteAppend(db, s.LastLogIndex(), s', req, success), s', success ==> FromOffset(s, req))
  {
    var s1 := Greet(s, req);
    GreetKeepsLog(s, req);
    var db1 := WriteHard(db, s'.currentTerm, s'.votedFor, s'.logOffset);
    assert Contents(db1) == Some(Durable(s1)) by {
      HardWritten(db, s, s1);
    }
    if success {
      AcceptedWritten(db1, s1, req, s');
    } else {
      RefusedWritten(db1, s1, req, s');
    }
  }

  lemma SyncedKnown(db: Database, s: NodeState)
    requires Synced(db, s)
    ensures WellFormed(db) && s.logOffset + 1 < LIMIT
    ensures TERM !in db ==> Durable(s) == Durable(FRESH)
    ensures TERM in db ==> Contents(db) == Some(Durable(s))
  {
    if Contents(db) == Some(Durable(s)) {
      ContentsWellFormed(db, Durable(s));
      ContentsExact(db, Durable(s));
    }
  }

  lemma ReplyKeepsLog(s: NodeState, peer: NodeId, resp: AppendResponse)
    ensures var s' := HandleAppendReply(s, peer, resp);
            && s'.log == s.log && s'.logOffset == s.logOffset && s'.snapshot == s.snapshot
            && (resp.term <= s.currentTerm ==>
                  s'.currentTerm == s.currentTerm && s'.votedFor == s.votedFor && s'.role == s.role)
  {
  }

  lemma InstalledOffset(s: NodeState, req: InstallRequest)
    ensures HandleInstallSnapshot(s, req).logOffset <= Max(s.logOffset, req.snapshot.lastIncludedIndex)
  {
  }

  // ----- snapshots ------------------------------------------------------------------------------

  ghost function Snapshotted(db: Database, snap: Snapshot, offset: nat): Database {
    WriteSnapshot(db, snap, offset) - LogKeys(db, 1, offset + 1)
  }

  /** Saving a snapshot again changes nothing. */
  lemma Resaved(db: Database, s: NodeState)
    requires Contents(db) == Some(Durable(s)) && s.snapshot.Some? && s.logOffset + 1 < LIMIT
    ensures Contents(Snapshotted(db, s.snapshot.value, s.logOffset)) == Some(Durable(s))
  {
    SnapshotKept(db, Durable(s), s.snapshot.value, s.logOffset);
    assert Past(Durable(s), s.logOffset) == s.log;
  }

  /** The offset written with the hard state is overwritten by the snapshot's. */
  lemma OffsetOverwritten(db: Database, term: nat, vote: Option<NodeId>, early: nat, offset: nat, snap: Snapshot)
    requires KnownKeys(db) && offset < LIMIT
    ensures Snapshotted(WriteHard(db, term, vote, early), snap, offset)
         == Snapshotted(WriteHard(db, term, vote, offset), snap, offset)
  {
    assert WriteSnapshot(WriteHard(db, term, vote, early), snap, offset)
        == WriteSnapshot(WriteHard(db, term, vote, offset), snap, offset);
    assert LogKeys(WriteHard(db, term, vote, early), 1, offset + 1)
        == LogKeys(WriteHard(db, term, vote, offset), 1, offset + 1);
  }

  lemma CompactWritten(db: Database, s: NodeState, snap: Snapshot)
    requires Contiguous(s) && Contents(db) == Some(Durable(s))
    requires s.logOffset < snap.lastIncludedIndex && snap.lastIncludedIndex + 1 < LIMIT
    ensures var s' := s.CompactLog(snap);
            Contiguous(s') && Contents(Snapshotted(db, snap, snap.lastIncludedIndex)) == Some(Durable(s'))
  {
    SnapshotKept(db, Durable(s), snap, snap.lastIncludedIndex);
  }

  lemma CompactedWritten(db: Database, s: NodeState, snap: Snapshot)
    requires Contiguous(s) && Contents(db) == Some(Durable(s))
    requires snap.lastIncludedIndex + 1 < LIMIT && s.logOffset + 1 < LIMIT
    ensures var s' := s.CompactLog(snap);
            && s'.logOffset + 1 < LIMIT && Contiguous(s')
            && Contents(if s'.snapshot.Some? then Snapshotted(db, s'.snapshot.value, s'.logOffset) else db)
               == Some(Durable(s'))
  {
    if snap.lastIncludedIndex > s.logOffset {
      CompactWritten(db, s, snap);
    } else if s.snapshot.Some? {
      Resaved(db, s);
    }
  }

  /** Retaining by index keeps what the store keeps. */
  lemma InstallIsCompact(s: NodeState, snap: Snapshot)
    requires Contiguous(s) && s.logOffset < snap.lastIncludedIndex
    ensures var s' := s.InstallSnapshot(snap);
            Durable(s') == Durable(s.CompactLog(snap)) && (Contiguous(s') <==> Contiguous(s.CompactLog(snap)))
  {
    KeepFromIsSlice(s.log, snap.lastIncludedIndex + 1, s.logOffset);
  }

  ghost function WriteInstall(db: Database, s': NodeState, last: nat): Database {
    var db1 := WriteHard(db, s'.currentTerm, s'.votedFor, s'.logOffset);
    if s'.snapshot.Some? && s'.logOffset >= last then Snapshotted(db1, s'.snapshot.value, s'.logOffset) else db1
  }

  /** The part of the handler that decides the term. */
  function GreetInstall(s: NodeState, req: InstallRequest): NodeState {
    var s1 := if req.term > s.currentTerm then s.BecomeFollower(req.term) else s;
    if req.term < s1.currentTerm then s1 else s1.(leaderId := Some(req.leaderId))
  }

  lemma InstallOutcome(s: NodeState, req: InstallRequest)
    ensures var s1, s' := GreetInstall(s, req), HandleInstallSnapshot(s, req);
            && Durable(s1) == Durable(s).(currentTerm := s1.currentTerm, votedFor := s1.votedFor)
            && (s' == s1 || (req.snapshot.lastIncludedIndex > s.logOffset && s' == s1.InstallSnapshot(req.snapshot)))
  {
  }

  lemma InstallWritten(db: Database, s: NodeState, req: InstallRequest, s': NodeState)
    requires GivesBack(db, s) && KnownKeys(db) && req.snapshot.lastIncludedIndex + 1 < LIMIT && s.logOffset + 1 < LIMIT
    requires s' == HandleInstallSnapshot(s, req)
    ensures GivesBack(WriteInstall(db, s', req.snapshot.lastIncludedIndex), s')
  {
    var s1 := GreetInstall(s, req);
    InstallOutcome(s, req);
    HardWritten(db, s, s1);
    TakenWritten(db, s1, req.snapshot, s');
  }

  lemma TakenWritten(db: Database, s: NodeState, snap: Snapshot, s': NodeState)
    requires Contiguous(s) && KnownKeys(db) && snap.lastIncludedIndex + 1 < LIMIT && s.logOffset + 1 < LIMIT
    requires Contents(WriteHard(db, s.currentTerm, s.votedFor, s.logOffset)) == Some(Durable(s))
    requires s' == s || (snap.lastIncludedIndex > s.logOffset && s' == s.InstallSnapshot(snap))
    ensures GivesBack(WriteInstall(db, s', snap.lastIncludedIndex), s')
  {
    var db1 := WriteHard(db, s.currentTerm, s.votedFor, s.logOffset);
    if s' == s {
      if s.snapshot.Some? {
        Resaved(db1, s);
      }
    } else {
      InstallIsCompact(s, snap);
      CompactWritten(db1, s, snap);
      OffsetOverwritten(db, s.currentTerm, s.votedFor, s.logOffset, snap.lastIncludedIndex, snap);
    }
  }

  // ----- the node ---------------------------------------------------------------------------

  class PersistentNode {
    const state: RaftState
    const storage: RaftStorage

    ghost predicate Stored()
      reads state, storage
    {
      GivesBack(storage.db, state.View())
    }

    constructor ()
      ensures Stored() && state.View() == FRESH && fresh(state) && fresh(storage)
    {
      state := new RaftState();
      storage := new RaftStorage();
    }

    method SaveHard()
      modifies storage
      ensures storage.db == WriteHard(old(storage.db), state.currentTerm, state.votedFor, state.logOffset)
    {
      storage.SaveHardState(state.currentTerm, state.votedFor, state.logOffset);
    }

    method StartElection(me: NodeId)
      requires Stored()
      modifies state, storage
      ensures Stored() && state.View() == old(state.View()).BecomeCandidate(me)
    {
      state.BecomeCandidate(me);
      SaveHard();
      HardWritten(old(storage.db), old(state.View()), state.View());
    }

    method HandleVote(req: VoteRequest) returns (resp: VoteResponse)
      requires Stored()
      modifies state, storage
      ensures Stored() && (state.View(), resp) == HandleRequestVote(old(state.View()), req)
    {
      resp := state.HandleRequestVote(req);
      SaveHard();
      HardWritten(old(storage.db), old(state.View()), state.View());
    }

    /** The leader's own append; a node that is not leader refuses. */
    method AppendCommand(command: Command) returns (index: Option<nat>)
      requires Stored() && state.View().LastLogIndex() + 2 < LIMIT
      modifies state, storage
      ensures Stored()
      ensures index.Some? <==> old(state.role) == Leader
      ensures state.View() == if index.Some? then old(state.View()).AppendEntry(command) else old(state.View())
      ensures index.Some? ==> index.value == old(state.View()).LastLogIndex() + 1
    {
      if state.role != Leader {
        return None;
      }
      var entry := state.AppendEntry(command);
      storage.AppendEntry(entry);
      EndOfLog(old(state.View()));
      AppendKept(old(storage.db), Durable(old(state.View())), entry);
      index := Some(entry.index);
    }

    /** Afterwards a load gives back memory, exactly when the accepted entries do not
        start before the offset. */
    method HandleAppend(req: AppendRequest) returns (resp: AppendResponse)
      requires Stored() && EntriesNumbered(req) && req.Covers() + 1 < LIMIT
      modifies state, storage
      ensures (state.View(), resp) == HandleAppendEntries(old(state.View()), req)
      ensures !resp.success || FromOffset(old(state.View()), req) ==> Stored()
      ensures resp.success && !FromOffset(old(state.View()), req) ==>
                Lost(storage.db, state.View())
    {
      ghost var s := state.View();
      var last := state.View().LastLogIndex();
      resp := state.HandleAppendEntries(req);
      PersistAppend(storage, last, state.View(), req, resp.success);
      AppendOutcomes(s, req);
      AppendWritten(old(storage.db), s, req, state.View(), resp.success);
      ReloadsOpen(storage.db, state.View(), resp.success ==> FromOffset(s, req));
    }

    method HandleInstall(req: InstallRequest) returns (term: nat)
      requires Stored() && req.snapshot.lastIncludedIndex + 1 < LIMIT
      modifies state, storage
      ensures Stored() && state.View() == HandleInstallSnapshot(old(state.View()), req) && term == state.currentTerm
    {
      SyncedKnown(storage.db, state.View());
      InstalledOffset(state.View(), req);
      term := state.HandleInstallSnapshot(req);
      PersistInstall(storage, state.View(), req.snapshot.lastIncludedIndex);
      InstallWritten(old(storage.db), old(state.View()), req, state.View());
    }

    /** Handing over committed entries changes nothing durable. */
    method Apply() returns (entries: seq<LogEntry>)
      requires Stored()
      modifies state
      ensures Stored() && (state.View(), entries) == TakeCommitted(old(state.View()))
    {
      entries := state.GetCommittedEntries();
    }

    /** The scheduler's compaction of everything applied. */
    method Compact(threshold: nat, jobs: seq<SnapshotJob>, workers: seq<NodeId>)
      requires Stored() && threshold > 0 && state.lastApplied + 1 < LIMIT
      modifies state, storage
      ensures Stored() && state.View() == MaybeCompact(old(state.View()), threshold, jobs, workers)
    {
      SyncedKnown(storage.db, state.View());
      if |state.log| < threshold || state.lastApplied == 0 {
        return;
      }
      CompactedWritten(storage.db, state.View(), AppliedSnapshot(state.View(), jobs, workers));
      state.CompactLog(AppliedSnapshot(state.View(), jobs, workers));
      if state.snapshot.Some? {
        storage.SaveSnapshot(state.snapshot.value, state.logOffset);
      }
    }

    /** A higher term in any answer is written before anything else happens. */
    method HandleReply(peer: NodeId, resp: AppendResponse)
      requires Stored()
      modifies state, storage
      ensures Stored() && state.View() == HandleAppendReply(old(state.View()), peer, resp)
    {
      ReplyKeepsLog(state.View(), peer, resp);
      if resp.term > state.currentTerm {
        state.HandleAppendReply(peer, resp);
        SaveHard();
        HardWritten(old(storage.db), old(state.View()), state.View());
      } else {
        state.HandleAppendReply(peer, resp);
      }
    }

    /** A heartbeat is answered: the answer's term is compared with the one the heartbeat
        was sent in, not with the current one. */
    method HandleBeatReply(sentIn: nat, resp: AppendResponse)
      requires Stored()
      modifies state, storage
      ensures Stored()
      ensures state.View() ==
              if resp.term > sentIn then old(state.View()).BecomeFollower(resp.term) else old(state.View())
    {
      if resp.term > sentIn {
        state.BecomeFollower(resp.term);
        SaveHard();
        HardWritten(old(storage.db), old(state.View()), state.View());
      }
    }

    method HandleInstallAnswer(peer: NodeId, term: nat, sent: nat)
      requires Stored()
      modifies state, storage
      ensures Stored() && state.View() == HandleInstallReply(old(state.View()), peer, term, sent)
    {
      var higher := term > state.currentTerm;
      state.HandleInstallReply(peer, term, sent);
      if higher {
        SaveHard();
        HardWritten(old(storage.db), old(state.View()), state.View());
      }
    }

    method Conclude(me: NodeId, term: nat, peers: seq<NodeId>, replies: seq<Option<VoteResponse>>)
      requires Stored() && forall i, j :: 0 <= i < j < |peers| ==> peers[i] != peers[j]
      modifies state, storage
      ensures Stored()
      ensures state.View() == FinishElection(old(state.View()), me, term, Members(peers), TallyVotes(term, replies))
    {
      state.ConcludeElection(me, term, peers, replies);
      if TallyVotes(term, replies).Superseded? {
        SaveHard();
        HardWritten(old(storage.db), old(state.View()), state.View());
      }
    }

    /** A restart rebuilds the node from what it had in memory that is durable. */
    method Restart() returns (restarted: RaftState)
      requires Stored()
      ensures restarted.View() == Restore(Durable(state.View()))
    {
      SyncedKnown(storage.db, state.View());
      var p := storage.Load();
      if p.Some? {
        LoadExact(storage.db, Durable(state.View()), p.value);
        restarted := new RaftState.Restored(p.value);
      } else {
        restarted := new RaftState();
      }
    }
  }

  lemma LateRequest(s: NodeState, req: AppendRequest)
    requires s == MaybeCompact(TwinRuns.APPLIED, 1, [], []) && req == AppendRequest(1, 1, 0, 0, [TwinRuns.FIRST], 2)
    ensures !FromOffset(s, req) && HandleAppendEntries(s, req).1.success
  {
  }

  /** A node that has stored and applied two entries. */
  method StoreAndApply() returns (node: PersistentNode)
    ensures fresh(node.state) && fresh(node.storage) && node.Stored() && node.state.View() == TwinRuns.APPLIED
  {
    node := new PersistentNode();
    TwinRuns.StoresBoth();
    var resp := node.HandleAppend(TwinRuns.BOTH);
    assert node.state.View() == TwinRuns.APPLIED.(lastApplied := 0);
    TwinRuns.AppliesBoth();
    var batch := node.Apply();
  }

  /** It compacts them; a late request with the first of them is accepted, and no load
      gives back what is then in memory. */
  method ForgetsOnReload() returns (node: PersistentNode)
    ensures Lost(node.storage.db, node.state.View())
  {
    node := StoreAndApply();
    node.Compact(1, [], []);
    var req := AppendRequest(1, 1, 0, 0, [TwinRuns.FIRST], 2);
    LateRequest(node.state.View(), req);
    var resp := node.HandleAppend(req);
  }

  /** Replaces the stored entries from an index on. */
  method Rewrite(storage: RaftStorage, from: nat, entries: seq<LogEntry>)
    requires KnownKeys(storage.db) && from < LIMIT
    modifies storage
    ensures storage.db == Rewritten(old(storage.db), from, entries)
  {
    storage.TruncateFrom(from);
    ghost var cut := storage.db;
    for i := 0 to |entries|
      invariant storage.db == PutAll(cut, entries[..i])
    {
      storage.AppendEntry(entries[i]);
      assert entries[..i + 1][..i] == entries[..i];
    }
    assert entries[..|entries|] == entries;
  }

  method PersistAppend(storage: RaftStorage, last: nat, s: NodeState, req: AppendRequest, success: bool)
    requires KnownKeys(storage.db) && req.Covers() + 1 < LIMIT && last < LIMIT
    modifies storage
    ensures storage.db == WriteAppend(old(storage.db), last, s, req, success)
  {
    storage.SaveHardState(s.currentTerm, s.votedFor, s.logOffset);
    HardKnown(old(storage.db), s.currentTerm, s.votedFor, s.logOffset);
    if success && req.entries != [] {
      Rewrite(storage, req.prevLogIndex + 1, s.GetEntriesFrom(req.prevLogIndex + 1));
    } else if !success && s.LastLogIndex() < last {
      storage.TruncateFrom(s.LastLogIndex() + 1);
    }
  }

  method PersistInstall(storage: RaftStorage, s: NodeState, last: nat)
    requires KnownKeys(storage.db) && s.logOffset + 1 < LIMIT
    modifies storage
    ensures storage.db == WriteInstall(old(storage.db), s, last)
  {
    storage.SaveHardState(s.currentTerm, s.votedFor, s.logOffset);
    HardKnown(old(storage.db), s.currentTerm, s.votedFor, s.logOffset);
    if s.snapshot.Some? && s.logOffset >= last {
      storage.SaveSnapshot(s.snapshot.value, s.logOffset);
    }
  }
}
