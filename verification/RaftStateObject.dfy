/** The node state as the code keeps it: one object whose fields the handlers update
    in place.  Each method is proved against the function of the same name in
    RaftSpec. */
module RaftStateObject {
  import opened Types
  import opened CommitRule
  import opened RaftSpec
  import opened Compaction
  import Wire

  function Members(ids: seq<NodeId>): set<NodeId> {
    set p | p in ids
  }

  /** The outcome of polling the peers for votes. */
  datatype Tally = Superseded(term: nat) | Votes(count: nat)

  /** Replies are counted in order; a higher term ends the election. */
  function TallyVotes(term: nat, replies: seq<Option<VoteResponse>>): Tally {
    if replies == [] then Votes(1)
    else
      var before, last := TallyVotes(term, replies[..|replies| - 1]), replies[|replies| - 1];
      if before.Superseded? || last.None? then before
      else if last.value.term > term then Superseded(last.value.term)
      else if last.value.voteGranted then Votes(before.count + 1)
      else before
  }

  /** What the end of an election does to the candidate. */
  ghost function FinishElection(s: NodeState, me: NodeId, term: nat, peers: set<NodeId>, tally: Tally): NodeState {
    match tally
    case Superseded(higher) => s.BecomeFollower(higher)
    case Votes(count) =>
      if s.role != Candidate || s.currentTerm != term then s
      else if count >= VoteQuorum(|peers| + 1) then s.(votesReceived := count).BecomeLeader(me, peers)
      else s.(votesReceived := count)
  }

  function Granted(replies: seq<Option<VoteResponse>>): set<int> {
    set i | 0 <= i < |replies| && replies[i].Some? && replies[i].value.voteGranted
  }

  lemma GrantedLast(replies: seq<Option<VoteResponse>>)
    requires replies != []
    ensures var n := |replies| - 1;
            |Granted(replies)| == |Granted(replies[..n])| +
              if replies[n].Some? && replies[n].value.voteGranted then 1 else 0
  {
    var n := |replies| - 1;
    var last := if replies[n].Some? && replies[n].value.voteGranted then {n} else {};
    assert Granted(replies) == Granted(replies[..n]) + last;
  }

  /** Reply i is the first that carries a higher term. */
  ghost predicate FirstHigher(term: nat, replies: seq<Option<VoteResponse>>, i: int) {
    && 0 <= i < |replies| && replies[i].Some? && replies[i].value.term > term
    && forall j :: 0 <= j < i && replies[j].Some? ==> replies[j].value.term <= term
  }

  /** A tally is one plus the granted answers, or the first higher term that an answer carried. */
  lemma {:induction false} TallyCounts(term: nat, replies: seq<Option<VoteResponse>>)
    ensures match TallyVotes(term, replies)
            case Votes(count) =>
              && count == 1 + |Granted(replies)|
              && forall i :: 0 <= i < |replies| && replies[i].Some? ==> replies[i].value.term <= term
            case Superseded(higher) => exists i :: FirstHigher(term, replies, i) && replies[i].value.term == higher
  {
    if replies != [] {
      var n := |replies| - 1;
      var before := replies[..n];
      TallyCounts(term, before);
      GrantedLast(replies);
      if TallyVotes(term, before).Superseded? {
        var i :| FirstHigher(term, before, i) && before[i].value.term == TallyVotes(term, before).term;
        assert forall j :: 0 <= j <= i ==> replies[j] == before[j];
        assert FirstHigher(term, replies, i);
      } else if replies[n].Some? && replies[n].value.term > term {
        assert forall j :: 0 <= j < n ==> replies[j] == before[j];
        assert FirstHigher(term, replies, n);
      } else {
        assert forall i :: 0 <= i < n ==> replies[i] == before[i];
      }
    }
  }

  /** The entries at or after an index, in order. */
  method Retain(entries: seq<LogEntry>, first: nat) returns (kept: seq<LogEntry>)
    ensures kept == KeepFrom(entries, first)
  {
    kept := [];
    var i := |entries|;
    while i > 0
      invariant 0 <= i <= |entries|
      invariant kept == KeepFrom(entries[i..], first)
    {
      i := i - 1;
      assert entries[i..][1..] == entries[i + 1..];
      if entries[i].index >= first {
        kept := [entries[i]] + kept;
      }
    }
    assert entries[0..] == entries;
  }

  /** The term of the first entry with that index; 0 if there is none. */
  method FindTerm(entries: seq<LogEntry>, index: nat) returns (term: nat)
    ensures (exists k :: 0 <= k < |entries| && entries[k].index == index
                         && (forall j :: 0 <= j < k ==> entries[j].index != index) && term == entries[k].term)
            || (term == 0 && forall k :: 0 <= k < |entries| ==> entries[k].index != index)
  {
    for i := 0 to |entries|
      invariant forall k :: 0 <= k < i ==> entries[k].index != index
    {
      if entries[i].index == index {
        return entries[i].term;
      }
    }
    term := 0;
  }

  /** The smallest value of a non-empty map. */
  method MinValue(m: map<NodeId, nat>) returns (least: nat)
    requires m != map[]
    ensures least in m.Values && forall p :: p in m ==> least <= m[p]
  {
    var first :| first in m;
    least := m[first];
    var rest := m.Keys - {first};
    while rest != {}
      invariant rest <= m.Keys && least in m.Values
      invariant forall p :: p in m && p !in rest ==> least <= m[p]
      decreases rest
    {
      var p :| p in rest;
      if m[p] < least {
        least := m[p];
      }
      rest := rest - {p};
    }
  }

  lemma MembersGrow(ids: seq<NodeId>, i: nat)
    requires i < |ids|
    ensures Members(ids[..i + 1]) == Members(ids[..i]) + {ids[i]}
  {
    assert ids[..i + 1] == ids[..i] + [ids[i]];
  }

  /** A new leader's table: every peer next gets what follows the log, and has nothing yet. */
  method FirstIndices(peers: seq<NodeId>, last: nat) returns (next: map<NodeId, nat>, matched: map<NodeId, nat>)
    ensures next == Uniform(Members(peers), last + 1) && matched == Uniform(Members(peers), 0)
  {
    next, matched := map[], map[];
    for i := 0 to |peers|
      invariant next.Keys == matched.Keys == Members(peers[..i])
      invariant forall k :: k in next ==> next[k] == last + 1 && matched[k] == 0
    {
      next := next[peers[i] := last + 1];
      matched := matched[peers[i] := 0];
      MembersGrow(peers, i);
    }
    assert peers[..|peers|] == peers;
    UniformUnique(next, Members(peers), last + 1);
    UniformUnique(matched, Members(peers), 0);
  }

  /** The log holds consecutive indices after the offset, which a snapshot explains. */
  ghost predicate Contiguous(s: NodeState) {
    && (forall k :: 0 <= k < |s.log| ==> s.log[k].index == s.logOffset + 1 + k)
    && (s.logOffset > 0 ==> s.snapshot.Some?)
  }

  lemma WindowShape(s: NodeState, start: nat)
    requires Contiguous(s) && s.logOffset < start
    ensures s.GetEntriesFrom(start)
         == if start <= s.logOffset + |s.log| then s.log[start - s.logOffset - 1..] else []
  {
    TailShape(s, start);
  }

  /** Filtering a window by index is taking the log from there. */
  lemma KeptPart(log: seq<LogEntry>, base: nat, a: nat, next: nat)
    requires forall k :: 0 <= k < |log| ==> log[k].index == base + 1 + k
    requires a <= |log| && next > base + a
    ensures KeepFrom(log[a..], next) == if next - base - 1 <= |log| then log[next - base - 1..] else []
  {
    KeepFromIsSlice(log[a..], next, base + a);
    if next - base - 1 <= |log| {
      DropTwice(log, a, next - base - 1);
    }
  }

  /** A window that starts no later than the entry before `next` is as good as the log. */
  lemma WindowEnough(s: NodeState, start: nat, next: nat)
    requires Contiguous(s) && s.logOffset < start <= Max(s.logOffset + 1, if next == 0 then 0 else next - 1)
    ensures KeepFrom(s.GetEntriesFrom(start), next) == s.GetEntriesFrom(next)
  {
    if next <= start {
      WindowWhole(s, start, next);
    } else {
      WindowPart(s, start, next);
    }
  }

  lemma WindowWhole(s: NodeState, start: nat, next: nat)
    requires Contiguous(s) && next <= start == s.logOffset + 1
    ensures KeepFrom(s.GetEntriesFrom(start), next) == s.GetEntriesFrom(next)
  {
    ClampedStart(s, start, next);
    WindowShape(s, start);
    AllKept(s.GetEntriesFrom(start), next);
  }

  lemma ClampedStart(s: NodeState, start: nat, next: nat)
    requires next <= start == s.logOffset + 1
    ensures s.GetEntriesFrom(next) == s.GetEntriesFrom(start)
  {
  }

  lemma WindowPart(s: NodeState, start: nat, next: nat)
    requires Contiguous(s) && s.logOffset < start < next
    ensures KeepFrom(s.GetEntriesFrom(start), next) == s.GetEntriesFrom(next)
  {
    WindowShape(s, start);
    WindowShape(s, next);
    if start <= s.logOffset + |s.log| {
      KeptPart(s.log, s.logOffset, start - s.logOffset - 1, next);
    }
  }

  /** The window finds an entry where the log has it. */
  lemma WindowAt(s: NodeState, start: nat, i: nat)
    requires Contiguous(s) && s.logOffset < start <= i
    ensures var window := s.GetEntriesFrom(start);
            && (forall k :: 0 <= k < |window| ==> window[k].index == start + k)
            && (i < start + |window| <==> s.GetEntry(i).Some?)
            && (i < start + |window| ==> window[i - start] == s.GetEntry(i).value)
  {
    WindowShape(s, start);
  }

  // ----- the window against the whole log ------------------------------------------------------

  ghost predicate IsLeastNext(m: map<NodeId, nat>, k: nat) {
    if m == map[] then k == 1 else k in m.Values && forall p :: p in m ==> k <= m[p]
  }

  ghost predicate ReachesFirst(m: map<NodeId, nat>) {
    m == map[] || exists p :: p in m && m[p] <= 2
  }

  method LeastNext(m: map<NodeId, nat>) returns (k: nat)
    ensures IsLeastNext(m, k)
  {
    if m == map[] {
      return 1;
    }
    k := MinValue(m);
  }

  /** What a round sends when it cuts entries and the quoted term from a window. */
  function Windowed(s: NodeState, me: NodeId, peer: NodeId, start: nat): Outgoing {
    var next := s.NextIndexOf(peer);
    if next <= s.logOffset && s.snapshot.Some? then
      SendSnapshot(InstallRequest(s.currentTerm, me, s.snapshot.value))
    else
      var prev := if next == 0 then 0 else next - 1;
      var entries := KeepFrom(s.GetEntriesFrom(start), next);
      if entries == [] && s.MatchIndexOf(peer) >= s.commitIndex then Skip
      else SendAppend(AppendRequest(s.currentTerm, me, prev, s.TermAt(prev), entries, s.commitIndex))
  }

  lemma SameSend(s: NodeState, me: NodeId, peer: NodeId, start: nat)
    requires KeepFrom(s.GetEntriesFrom(start), s.NextIndexOf(peer)) == s.GetEntriesFrom(s.NextIndexOf(peer))
    ensures Windowed(s, me, peer, start) == Replication(s, me, peer)
  {
  }

  lemma OtherSend(s: NodeState, me: NodeId, peer: NodeId, start: nat)
    requires s.NextIndexOf(peer) > s.logOffset
    requires KeepFrom(s.GetEntriesFrom(start), s.NextIndexOf(peer)) != s.GetEntriesFrom(s.NextIndexOf(peer))
    ensures Windowed(s, me, peer, start) != Replication(s, me, peer)
  {
  }

  lemma WindowLength(s: NodeState, start: nat)
    requires Contiguous(s) && s.logOffset < start
    ensures |s.GetEntriesFrom(start)| == if start <= s.logOffset + |s.log| then s.logOffset + |s.log| + 1 - start else 0
  {
    WindowShape(s, start);
  }

  /** A window that starts later than a missing peer's first entry loses entries. */
  lemma WindowShort(s: NodeState, start: nat)
    requires Contiguous(s) && s.logOffset == 0 && s.log != [] && start > 1
    ensures KeepFrom(s.GetEntriesFrom(start), 1) != s.GetEntriesFrom(1)
  {
    WindowLength(s, start);
    WindowLength(s, 1);
    WindowAt(s, start, start);
    AllKept(s.GetEntriesFrom(start), 1);
  }

  lemma WindowedExact(s: NodeState, me: NodeId, peer: NodeId, minNext: nat, start: nat)
    requires Contiguous(s) && IsLeastNext(s.nextIndex, minNext)
    requires start == Max(if minNext == 0 then 0 else minNext - 1, s.logOffset + 1)
    ensures Windowed(s, me, peer, start) == Replication(s, me, peer) <==>
              peer in s.nextIndex || s.logOffset > 0 || s.log == [] || ReachesFirst(s.nextIndex)
  {
    var next := s.NextIndexOf(peer);
    if peer in s.nextIndex || start == 1 {
      WindowEnough(s, start, next);
      SameSend(s, me, peer, start);
    } else if s.logOffset == 0 {
      if s.log == [] {
        SameSend(s, me, peer, start);
      } else {
        WindowShort(s, start);
        OtherSend(s, me, peer, start);
      }
    }
    FirstReached(s.nextIndex, minNext);
  }

  lemma FirstReached(m: map<NodeId, nat>, k: nat)
    requires IsLeastNext(m, k)
    ensures ReachesFirst(m) <==> k <= 2
  {
  }

  method ReadEntries(c: Wire.Codec, ws: seq<Wire.WireEntry>) returns (entries: seq<LogEntry>)
    ensures entries == Wire.DecodeAll(c, ws)
  {
    entries := [];
    var i := |ws|;
    while i > 0
      invariant 0 <= i <= |ws| && entries == Wire.DecodeAll(c, ws[i..])
    {
      i := i - 1;
      assert ws[i..][1..] == ws[i + 1..];
      var entry := Wire.Decode(c, ws[i]);
      if entry.Some? {
        entries := [entry.value] + entries;
      }
    }
    assert ws[0..] == ws;
  }

  method ReadJobs(c: Wire.Codec, ws: seq<Wire.WireJob>) returns (jobs: seq<SnapshotJob>)
    ensures jobs == Wire.DecodeJobs(c, ws)
  {
    jobs := [];
    var i := |ws|;
    while i > 0
      invariant 0 <= i <= |ws| && jobs == Wire.DecodeJobs(c, ws[i..])
    {
      i := i - 1;
      assert ws[i..][1..] == ws[i + 1..];
      var job := Wire.DecodeJob(c, ws[i]);
      if job.Some? {
        jobs := [job.value] + jobs;
      }
    }
    assert ws[0..] == ws;
  }

  class RaftState {
    var currentTerm: nat
    var votedFor: Option<NodeId>
    var log: seq<LogEntry>
    var commitIndex: nat
    var lastApplied: nat
    var nextIndex: map<NodeId, nat>
    var matchIndex: map<NodeId, nat>
    var role: Role
    var leaderId: Option<NodeId>
    var votesReceived: nat
    var logOffset: nat
    var snapshot: Option<Snapshot>

    function View(): NodeState
      reads this
    {
      NodeState(currentTerm, votedFor, log, commitIndex, lastApplied, nextIndex, matchIndex,
                role, leaderId, votesReceived, logOffset, snapshot)
    }

    constructor ()
      ensures View() == FRESH
    {
      currentTerm, votedFor, log, commitIndex, lastApplied := 0, None, [], 0, 0;
      nextIndex, matchIndex, role, leaderId, votesReceived := map[], map[], Follower, None, 0;
      logOffset, snapshot := 0, None;
    }

    constructor Restored(p: Persisted)
      ensures View() == Restore(p)
    {
      currentTerm, votedFor, log, logOffset, snapshot := p.currentTerm, p.votedFor, p.log, p.logOffset, p.snapshot;
      nextIndex, matchIndex, role, leaderId, votesReceived := map[], map[], Follower, None, 0;
      commitIndex, lastApplied := 0, 0;
      if p.snapshot.Some? {
        commitIndex := p.snapshot.value.lastIncludedIndex;
        lastApplied := p.snapshot.value.lastIncludedIndex;
      }
    }

    method AppendEntry(command: Command) returns (entry: LogEntry)
      modifies this
      ensures View() == old(View()).AppendEntry(command)
      ensures entry == LogEntry(old(currentTerm), old(View()).LastLogIndex() + 1, command)
    {
      entry := LogEntry(currentTerm, View().LastLogIndex() + 1, command);
      log := log + [entry];
    }

    method TruncateAndAppend(from: nat, entries: seq<LogEntry>)
      modifies this
      ensures View() == old(View()).TruncateAndAppend(from, entries)
    {
      if from <= logOffset {
        log := [];
      } else if from - logOffset - 1 < |log| {
        log := log[..from - logOffset - 1];
      }
      log := log + entries;
    }

    method CompactLog(s: Snapshot)
      modifies this
      ensures View() == old(View()).CompactLog(s)
    {
      if s.lastIncludedIndex <= logOffset {
        return;
      }
      var drop := s.lastIncludedIndex - logOffset;
      if drop >= |log| {
        log := [];
      } else {
        log := log[drop..];
      }
      logOffset := s.lastIncludedIndex;
      snapshot := Some(s);
    }

    method InstallSnapshot(s: Snapshot) returns (installed: bool)
      modifies this
      ensures View() == old(View()).InstallSnapshot(s)
      ensures installed <==> s.lastIncludedIndex > old(logOffset)
    {
      if s.lastIncludedIndex <= logOffset {
        return false;
      }
      log := Retain(log, s.lastIncludedIndex + 1);
      logOffset := s.lastIncludedIndex;
      if commitIndex < s.lastIncludedIndex {
        commitIndex := s.lastIncludedIndex;
      }
      if lastApplied < s.lastIncludedIndex {
        lastApplied := s.lastIncludedIndex;
      }
      snapshot := Some(s);
      installed := true;
    }

    method BecomeFollower(term: nat)
      modifies this
      ensures View() == old(View()).BecomeFollower(term)
    {
      role := Follower;
      currentTerm := term;
      votedFor := None;
      votesReceived := 0;
    }

    method BecomeCandidate(me: NodeId)
      modifies this
      ensures View() == old(View()).BecomeCandidate(me)
    {
      role := Candidate;
      currentTerm := currentTerm + 1;
      votedFor := Some(me);
      votesReceived := 1;
      leaderId := None;
    }

    method BecomeLeader(me: NodeId, peers: seq<NodeId>)
      modifies this
      ensures View() == old(View()).BecomeLeader(me, Members(peers))
    {
      role := Leader;
      leaderId := Some(me);
      nextIndex, matchIndex := FirstIndices(peers, View().LastLogIndex());
    }

    // ----- handlers -----------------------------------------------------------------

    method HandleRequestVote(req: VoteRequest) returns (resp: VoteResponse)
      modifies this
      ensures (View(), resp) == RaftSpec.HandleRequestVote(old(View()), req)
    {
      if req.term > currentTerm {
        BecomeFollower(req.term);
      }
      var granted := false;
      if req.term < currentTerm {
      } else if votedFor.Some? && votedFor != Some(req.candidateId) {
      } else if !View().IsLogUpToDate(req.lastLogIndex, req.lastLogTerm) {
      } else {
        votedFor := Some(req.candidateId);
        granted := true;
      }
      resp := VoteResponse(currentTerm, granted);
    }

    /** Consistency check, storing and committing, once the sender is accepted. */
    method FollowLeader(req: AppendRequest) returns (resp: AppendResponse)
      modifies this
      ensures (View(), resp) == RaftSpec.FollowLeader(old(View()), req)
    {
      ghost var s1 := View();
      if req.prevLogIndex > 0 {
        if req.prevLogIndex < logOffset {
        } else if req.prevLogIndex == logOffset {
          if snapshot.Some? && snapshot.value.lastIncludedTerm != req.prevLogTerm {
            return AppendResponse(currentTerm, false, View().LastLogIndex());
          }
        } else {
          var entry := View().GetEntry(req.prevLogIndex);
          if entry.None? {
            return AppendResponse(currentTerm, false, View().LastLogIndex());
          }
          if entry.value.term != req.prevLogTerm {
            log := log[..req.prevLogIndex - logOffset - 1];
            assert View() == s1.TruncateAndAppend(req.prevLogIndex, []);
            return AppendResponse(currentTerm, false, View().LastLogIndex());
          }
        }
      }
      assert CheckPrev(s1, req).Accept?;
      if req.entries != [] {
        TruncateAndAppend(req.prevLogIndex + 1, req.entries);
      }
      assert View() == StoreEntries(s1, req);
      if req.leaderCommit > commitIndex {
        commitIndex := Min(req.leaderCommit, View().LastLogIndex());
      }
      resp := AppendResponse(currentTerm, true, View().LastLogIndex());
    }

    method HandleAppendEntries(req: AppendRequest) returns (resp: AppendResponse)
      modifies this
      ensures (View(), resp) == RaftSpec.HandleAppendEntries(old(View()), req)
    {
      if req.term > currentTerm {
        BecomeFollower(req.term);
      }
      if req.term < currentTerm {
        return AppendResponse(currentTerm, false, View().LastLogIndex());
      }
      if role != Follower {
        BecomeFollower(req.term);
      }
      leaderId := Some(req.leaderId);
      resp := FollowLeader(req);
    }

    method HandleInstallSnapshot(req: InstallRequest) returns (term: nat)
      modifies this
      ensures View() == RaftSpec.HandleInstallSnapshot(old(View()), req)
      ensures term == currentTerm
    {
      if req.term > currentTerm {
        BecomeFollower(req.term);
      }
      if req.term < currentTerm {
        return currentTerm;
      }
      leaderId := Some(req.leaderId);
      var installed := InstallSnapshot(req.snapshot);
      term := currentTerm;
    }

    /** The handler as it meets a request on the wire: unreadable entries are skipped. */
    method ReceiveAppend(c: Wire.Codec, w: Wire.WireAppend) returns (resp: AppendResponse)
      modifies this
      ensures (View(), resp) == Wire.Receive(old(View()), c, w)
    {
      var entries := ReadEntries(c, w.entries);
      var req := AppendRequest(w.term, w.leaderId, w.prevLogIndex, w.prevLogTerm, entries, w.leaderCommit);
      assert req == Wire.DecodeAppend(c, w);
      if w.entries != [] && entries == [] && w.term >= currentTerm && CheckPrev(Acknowledge(View(), req), req).Accept? {
        resp := StoreNothing(req);
        return;
      }
      resp := HandleAppendEntries(req);
    }

    /** An accepted request none of whose entries could be read still truncates. */
    method StoreNothing(req: AppendRequest) returns (resp: AppendResponse)
      modifies this
      ensures var s := Acknowledge(old(View()), req).TruncateAndAppend(req.prevLogIndex + 1, []);
              View() == FollowCommit(s, req.leaderCommit)
      ensures resp == AppendResponse(currentTerm, true, View().LastLogIndex())
    {
      if req.term > currentTerm || role != Follower {
        BecomeFollower(req.term);
      }
      leaderId := Some(req.leaderId);
      TruncateAndAppend(req.prevLogIndex + 1, []);
      if req.leaderCommit > commitIndex {
        commitIndex := Min(req.leaderCommit, View().LastLogIndex());
      }
      resp := AppendResponse(currentTerm, true, View().LastLogIndex());
    }

    method ReceiveInstall(c: Wire.Codec, w: Wire.WireInstall) returns (term: nat)
      modifies this
      ensures View() == RaftSpec.HandleInstallSnapshot(old(View()), Wire.DecodeInstall(c, w)) && term == currentTerm
    {
      var jobs := ReadJobs(c, w.jobs);
      term := HandleInstallSnapshot(
        InstallRequest(w.term, w.leaderId, Snapshot(w.lastIncludedIndex, w.lastIncludedTerm, jobs, w.workers)));
    }

    /** The tail of an election: poll the answers, then claim the term. */
    method ConcludeElection(me: NodeId, term: nat, peers: seq<NodeId>, replies: seq<Option<VoteResponse>>)
      requires forall i, j :: 0 <= i < j < |peers| ==> peers[i] != peers[j]
      modifies this
      ensures View() == FinishElection(old(View()), me, term, Members(peers), TallyVotes(term, replies))
    {
      var count := 1;
      for i := 0 to |replies|
        invariant unchanged(this) && TallyVotes(term, replies[..i]) == Votes(count)
      {
        assert replies[..i + 1][..i] == replies[..i];
        if replies[i].Some? {
          var resp := replies[i].value;
          if resp.term > term {
            SupersededStays(term, replies, i + 1);
            BecomeFollower(resp.term);
            return;
          }
          if resp.voteGranted {
            count := count + 1;
          }
        }
      }
      assert replies[..|replies|] == replies;
      if role == Candidate && currentTerm == term {
        votesReceived := count;
        DistinctCount(peers);
        if count >= (|peers| + 1) / 2 + 1 {
          BecomeLeader(me, peers);
        }
      }
    }

    /** The term to quote for the entry before the ones to send. */
    method QuoteTerm(window: seq<LogEntry>, start: nat, prev: nat) returns (term: nat)
      requires Contiguous(View()) && (prev == 0 || prev == logOffset || logOffset < start <= prev)
      requires window == View().GetEntriesFrom(start)
      ensures term == View().TermAt(prev)
    {
      if prev == 0 {
        term := 0;
      } else if prev == logOffset {
        term := View().SnapshotTerm();
      } else {
        term := FindTerm(window, prev);
        WindowAt(View(), start, prev);
      }
    }

    /** The request for one peer, cut from a window of the log that serves all peers. */
    method CutRequest(me: NodeId, peer: NodeId, start: nat, window: seq<LogEntry>) returns (out: Outgoing)
      requires Contiguous(View()) && window == View().GetEntriesFrom(start)
      requires var prev := View().NextIndexOf(peer) - 1;
               logOffset < start && (prev <= 0 || prev <= logOffset || start <= prev)
      ensures out == Windowed(View(), me, peer, start)
    {
      var next := if peer in nextIndex then nextIndex[peer] else 1;
      if next <= logOffset && snapshot.Some? {
        return SendSnapshot(InstallRequest(currentTerm, me, snapshot.value));
      }
      var prev := if next == 0 then 0 else next - 1;
      var prevTerm := QuoteTerm(window, start, prev);
      var entries := Retain(window, next);
      if entries == [] && View().MatchIndexOf(peer) >= commitIndex {
        return Skip;
      }
      out := SendAppend(AppendRequest(currentTerm, me, prev, prevTerm, entries, commitIndex));
    }

    /** What the whole log would give, for a peer without an entry in the table exactly
        when the window reaches back to the first entry. */
    method BuildReplication(me: NodeId, peer: NodeId) returns (out: Outgoing)
      requires Contiguous(View())
      ensures out == Replication(View(), me, peer) <==>
                peer in nextIndex || logOffset > 0 || log == [] || ReachesFirst(nextIndex)
    {
      var minNext := LeastNext(nextIndex);
      var start := Max(if minNext == 0 then 0 else minNext - 1, logOffset + 1);
      var window := View().GetEntriesFrom(start);
      out := CutRequest(me, peer, start, window);
      WindowedExact(View(), me, peer, minNext, start);
    }

    /** The leader's reaction to an answer to AppendEntries. */
    method HandleAppendReply(peer: NodeId, resp: AppendResponse)
      modifies this
      ensures View() == RaftSpec.HandleAppendReply(old(View()), peer, resp)
    {
      if resp.term > currentTerm {
        BecomeFollower(resp.term);
        return;
      }
      if role == Leader && resp.success {
        matchIndex := matchIndex[peer := resp.matchIndex];
        nextIndex := nextIndex[peer := resp.matchIndex + 1];
        assert View() == RecordMatch(old(View()), peer, resp.matchIndex);
        var k := PickCommit(matchIndex, View().LastLogIndex());
        if k > commitIndex {
          var entry := View().GetEntry(k);
          if entry.Some? && entry.value.term == currentTerm {
            commitIndex := k;
          }
        }
      } else if role == Leader && !resp.success {
        var current := if peer in nextIndex then nextIndex[peer] else 1;
        if current > 1 {
          nextIndex := nextIndex[peer := current - 1];
        }
      }
    }

    /** The leader's reaction to an answer to InstallSnapshot. */
    method HandleInstallReply(peer: NodeId, term: nat, sent: nat)
      modifies this
      ensures View() == RaftSpec.HandleInstallReply(old(View()), peer, term, sent)
    {
      if term > currentTerm {
        BecomeFollower(term);
        return;
      }
      nextIndex := nextIndex[peer := sent + 1];
      matchIndex := matchIndex[peer := sent];
    }

    /** Hand over what is committed and not yet applied. */
    method GetCommittedEntries() returns (entries: seq<LogEntry>)
      modifies this
      ensures (View(), entries) == TakeCommitted(old(View()))
    {
      entries := [];
      while lastApplied < commitIndex
        invariant old(lastApplied) <= lastApplied && (lastApplied <= commitIndex || lastApplied == old(lastApplied))
        invariant View() == old(View()).(lastApplied := lastApplied)
        invariant entries + Fetch(old(View()), lastApplied, commitIndex)
               == Fetch(old(View()), old(lastApplied), commitIndex)
      {
        FetchNext(old(View()), lastApplied, commitIndex, entries);
        lastApplied := lastApplied + 1;
        var entry := View().GetEntry(lastApplied);
        if entry.Some? {
          entries := entries + [entry.value];
        }
      }
      FetchDone(old(View()), lastApplied, commitIndex, entries);
    }
  }

  lemma FetchNext(s: NodeState, from: nat, to: nat, done: seq<LogEntry>)
    requires from < to
    ensures var e := s.GetEntry(from + 1);
            done + Fetch(s, from, to) == (if e.Some? then done + [e.value] else done) + Fetch(s, from + 1, to)
  {
  }

  lemma FetchDone(s: NodeState, from: nat, to: nat, done: seq<LogEntry>)
    requires from >= to
    ensures done + Fetch(s, from, to) == done
  {
  }

  lemma {:induction false} SupersededStays(term: nat, replies: seq<Option<VoteResponse>>, i: nat)
    requires i <= |replies| && TallyVotes(term, replies[..i]).Superseded?
    ensures TallyVotes(term, replies) == TallyVotes(term, replies[..i])
    decreases |replies| - i
  {
    if i == |replies| {
      assert replies[..i] == replies;
    } else {
      assert replies[..i + 1][..i] == replies[..i];
      SupersededStays(term, replies, i + 1);
    }
  }

  lemma {:induction false} DistinctCount(ids: seq<NodeId>)
    requires forall i, j :: 0 <= i < j < |ids| ==> ids[i] != ids[j]
    ensures |Members(ids)| == |ids|
  {
    if ids != [] {
      var n := |ids| - 1;
      DistinctCount(ids[..n]);
      assert Members(ids) == Members(ids[..n]) + {ids[n]};
    }
  }
}
