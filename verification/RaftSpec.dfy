/** The state of one Raft node as a value, with the log accessors, the state
    transitions and the message handlers as functions on it.  The class
    RaftState updates the same fields in place and is proved against these. */
module RaftSpec {
  import opened Types
  import opened CommitRule

  datatype NodeState = NodeState(
    currentTerm: nat,
    votedFor: Option<NodeId>,
    log: seq<LogEntry>,
    commitIndex: nat,
    lastApplied: nat,
    nextIndex: map<NodeId, nat>,
    matchIndex: map<NodeId, nat>,
    role: Role,
    leaderId: Option<NodeId>,
    votesReceived: nat,
    logOffset: nat,
    snapshot: Option<Snapshot>)
  {
    function LastLogIndex(): nat {
      if log != [] then log[|log| - 1].index else logOffset
    }

    function SnapshotTerm(): nat {
      if snapshot.Some? then snapshot.value.lastIncludedTerm else 0
    }

    function LastLogTerm(): nat {
      if log != [] then log[|log| - 1].term else SnapshotTerm()
    }

    /** The entry at a 1-based index, if it has not been compacted away. */
    function GetEntry(index: nat): Option<LogEntry> {
      if index <= logOffset || index - logOffset - 1 >= |log| then None
      else Some(log[index - logOffset - 1])
    }

    function GetEntriesFrom(start: nat): seq<LogEntry> {
      var first := Max(start, logOffset + 1);
      if first > LastLogIndex() || first - logOffset - 1 >= |log| then []
      else log[first - logOffset - 1..]
    }

    function AppendEntry(command: Command): NodeState {
      this.(log := log + [LogEntry(currentTerm, LastLogIndex() + 1, command)])
    }

    function TruncateAndAppend(from: nat, entries: seq<LogEntry>): NodeState {
      var kept :=
        if from <= logOffset then []
        else if from - logOffset - 1 < |log| then log[..from - logOffset - 1]
        else log;
      this.(log := kept + entries)
    }

    function CompactLog(s: Snapshot): NodeState {
      if s.lastIncludedIndex <= logOffset then this
      else
        var drop := s.lastIncludedIndex - logOffset;
        this.(log := if drop >= |log| then [] else log[drop..],
              logOffset := s.lastIncludedIndex,
              snapshot := Some(s))
    }

    /** Entries survive an installed snapshot by index alone. */
    function InstallSnapshot(s: Snapshot): NodeState {
      if s.lastIncludedIndex <= logOffset then this
      else this.(log := KeepFrom(log, s.lastIncludedIndex + 1),
                 logOffset := s.lastIncludedIndex,
                 commitIndex := Max(commitIndex, s.lastIncludedIndex),
                 lastApplied := Max(lastApplied, s.lastIncludedIndex),
                 snapshot := Some(s))
    }

    predicate IsLogUpToDate(lastIndex: nat, lastTerm: nat) {
      lastTerm > LastLogTerm() || (lastTerm == LastLogTerm() && lastIndex >= LastLogIndex())
    }

    /** Clears the vote even when the term does not change. */
    function BecomeFollower(term: nat): NodeState {
      this.(role := Follower, currentTerm := term, votedFor := None, votesReceived := 0)
    }

    function BecomeCandidate(id: NodeId): NodeState {
      this.(role := Candidate, currentTerm := currentTerm + 1, votedFor := Some(id),
            votesReceived := 1, leaderId := None)
    }

    ghost function BecomeLeader(id: NodeId, peers: set<NodeId>): NodeState {
      this.(role := Leader, leaderId := Some(id),
            nextIndex := Uniform(peers, LastLogIndex() + 1),
            matchIndex := Uniform(peers, 0))
    }

    function NextIndexOf(peer: NodeId): nat {
      if peer in nextIndex then nextIndex[peer] else 1
    }

    function MatchIndexOf(peer: NodeId): nat {
      if peer in matchIndex then matchIndex[peer] else 0
    }

    /** The term a leader quotes for the entry at index i; 0 when it has none. */
    function TermAt(i: nat): nat {
      if i == 0 then 0
      else if i == logOffset then SnapshotTerm()
      else if GetEntry(i).Some? then GetEntry(i).value.term
      else 0
    }
  }

  function KeepFrom(log: seq<LogEntry>, first: nat): seq<LogEntry> {
    if log == [] then []
    else if log[0].index >= first then [log[0]] + KeepFrom(log[1..], first)
    else KeepFrom(log[1..], first)
  }

  const FRESH: NodeState :=
    NodeState(0, None, [], 0, 0, map[], map[], Follower, None, 0, 0, None)

  // ----- message handlers ---------------------------------------------------

  function HandleRequestVote(s: NodeState, req: VoteRequest): (NodeState, VoteResponse) {
    var s1 := if req.term > s.currentTerm then s.BecomeFollower(req.term) else s;
    if && req.term >= s1.currentTerm
       && (s1.votedFor.None? || s1.votedFor == Some(req.candidateId))
       && s1.IsLogUpToDate(req.lastLogIndex, req.lastLogTerm)
    then (s1.(votedFor := Some(req.candidateId)), VoteResponse(s1.currentTerm, true))
    else (s1, VoteResponse(s1.currentTerm, false))
  }

  predicate Grants(s: NodeState, vote: VoteRequest) {
    HandleRequestVote(s, vote).1.voteGranted
  }

  datatype PrevCheck = Accept | Reject | TruncateAndReject

  /** The consistency check on the entry that precedes the new ones. */
  function CheckPrev(s: NodeState, req: AppendRequest): PrevCheck {
    if req.prevLogIndex == 0 || req.prevLogIndex < s.logOffset then Accept
    else if req.prevLogIndex == s.logOffset then
      if s.snapshot.Some? && s.snapshot.value.lastIncludedTerm != req.prevLogTerm then Reject else Accept
    else if s.GetEntry(req.prevLogIndex).None? then Reject
    else if s.GetEntry(req.prevLogIndex).value.term != req.prevLogTerm then TruncateAndReject
    else Accept
  }

  /** The request is answered with success. */
  predicate Accepts(s: NodeState, req: AppendRequest) {
    req.term >= s.currentTerm && CheckPrev(s, req).Accept?
  }

  /** The node accepts the sender as leader of the request's term. */
  function Acknowledge(s: NodeState, req: AppendRequest): NodeState
  {
    var s1 := if req.term > s.currentTerm || s.role != Follower then s.BecomeFollower(req.term) else s;
    s1.(leaderId := Some(req.leaderId))
  }

  function StoreEntries(s: NodeState, req: AppendRequest): NodeState {
    if req.entries == [] then s else s.TruncateAndAppend(req.prevLogIndex + 1, req.entries)
  }

  function FollowCommit(s: NodeState, leaderCommit: nat): NodeState {
    if leaderCommit > s.commitIndex then s.(commitIndex := Min(leaderCommit, s.LastLogIndex())) else s
  }

  /** Consistency check, storing and committing, once the sender is accepted. */
  function FollowLeader(s: NodeState, req: AppendRequest): (NodeState, AppendResponse) {
    match CheckPrev(s, req)
    case Reject => (s, AppendResponse(s.currentTerm, false, s.LastLogIndex()))
    case TruncateAndReject =>
      var s1 := s.TruncateAndAppend(req.prevLogIndex, []);
      (s1, AppendResponse(s1.currentTerm, false, s1.LastLogIndex()))
    case Accept =>
      var s1 := FollowCommit(StoreEntries(s, req), req.leaderCommit);
      (s1, AppendResponse(s1.currentTerm, true, s1.LastLogIndex()))
  }

  function HandleAppendEntries(s: NodeState, req: AppendRequest): (NodeState, AppendResponse) {
    if req.term < s.currentTerm then (s, AppendResponse(s.currentTerm, false, s.LastLogIndex()))
    else FollowLeader(Acknowledge(s, req), req)
  }

  function HandleInstallSnapshot(s: NodeState, req: InstallRequest): NodeState {
    var s1 := if req.term > s.currentTerm then s.BecomeFollower(req.term) else s;
    if req.term < s1.currentTerm then s1
    else s1.(leaderId := Some(req.leaderId)).InstallSnapshot(req.snapshot)
  }

  // ----- leader side --------------------------------------------------------

  datatype Outgoing = Skip | SendAppend(append: AppendRequest) | SendSnapshot(install: InstallRequest)

  /** What a replication round sends to one peer. */
  function Replication(s: NodeState, id: NodeId, peer: NodeId): Outgoing {
    var next := s.NextIndexOf(peer);
    if next <= s.logOffset && s.snapshot.Some? then
      SendSnapshot(InstallRequest(s.currentTerm, id, s.snapshot.value))
    else
      var prev := if next == 0 then 0 else next - 1;
      var entries := s.GetEntriesFrom(next);
      if entries == [] && s.MatchIndexOf(peer) >= s.commitIndex then Skip
      else SendAppend(AppendRequest(s.currentTerm, id, prev, s.TermAt(prev), entries, s.commitIndex))
  }

  function Heartbeat(s: NodeState, id: NodeId): AppendRequest {
    AppendRequest(s.currentTerm, id, 0, 0, [], s.commitIndex)
  }

  /** Only an entry of the leader's own term is committed by counting. */
  ghost function AdvanceCommit(s: NodeState): NodeState {
    var k := CommitPoint(s.matchIndex, s.LastLogIndex());
    if k > s.commitIndex && s.GetEntry(k).Some? && s.GetEntry(k).value.term == s.currentTerm
    then s.(commitIndex := k)
    else s
  }

  function RecordMatch(s: NodeState, peer: NodeId, index: nat): NodeState {
    s.(matchIndex := s.matchIndex[peer := index], nextIndex := s.nextIndex[peer := index + 1])
  }

  function BackOff(s: NodeState, peer: NodeId): NodeState {
    if s.NextIndexOf(peer) > 1 then s.(nextIndex := s.nextIndex[peer := s.NextIndexOf(peer) - 1]) else s
  }

  ghost function HandleAppendReply(s: NodeState, peer: NodeId, resp: AppendResponse): NodeState {
    if resp.term > s.currentTerm then s.BecomeFollower(resp.term)
    else if s.role != Leader then s
    else if resp.success then AdvanceCommit(RecordMatch(s, peer, resp.matchIndex))
    else BackOff(s, peer)
  }

  /** The leader's bookkeeping once a peer has answered InstallSnapshot. */
  function HandleInstallReply(s: NodeState, peer: NodeId, term: nat, sent: nat): NodeState {
    if term > s.currentTerm then s.BecomeFollower(term) else RecordMatch(s, peer, sent)
  }

  // ----- applying -----------------------------------------------------------

  /** The entries at indices from..to that the log still has. */
  function Fetch(s: NodeState, from: nat, to: nat): seq<LogEntry>
    decreases (to as int) - (from as int)
  {
    if from >= to then []
    else (if s.GetEntry(from + 1).Some? then [s.GetEntry(from + 1).value] else []) + Fetch(s, from + 1, to)
  }

  /** One batch for the state machine: everything committed and not yet applied. */
  function TakeCommitted(s: NodeState): (NodeState, seq<LogEntry>) {
    (s.(lastApplied := Max(s.lastApplied, s.commitIndex)), Fetch(s, s.lastApplied, s.commitIndex))
  }

  /** The snapshot a node builds of everything it has applied. */
  function AppliedSnapshot(s: NodeState, jobs: seq<SnapshotJob>, workers: seq<NodeId>): Snapshot {
    var term :=
      if s.GetEntry(s.lastApplied).Some? then s.GetEntry(s.lastApplied).value.term
      else if s.snapshot.Some? && s.snapshot.value.lastIncludedIndex == s.lastApplied then s.SnapshotTerm()
      else 0;
    Snapshot(s.lastApplied, term, jobs, workers)
  }

  /** A log shorter than the threshold is left alone. */
  function MaybeCompact(s: NodeState, threshold: nat, jobs: seq<SnapshotJob>, workers: seq<NodeId>): NodeState {
    if |s.log| < threshold || s.lastApplied == 0 then s
    else s.CompactLog(AppliedSnapshot(s, jobs, workers))
  }

  // ----- durability ---------------------------------------------------------

  /** What a node finds on disk when it starts. */
  datatype Persisted = Persisted(
    currentTerm: nat,
    votedFor: Option<NodeId>,
    logOffset: nat,
    snapshot: Option<Snapshot>,
    log: seq<LogEntry>)

  function Durable(s: NodeState): Persisted {
    Persisted(s.currentTerm, s.votedFor, s.logOffset, s.snapshot, s.log)
  }

  function Restore(p: Persisted): NodeState {
    var applied := if p.snapshot.Some? then p.snapshot.value.lastIncludedIndex else 0;
    FRESH.(currentTerm := p.currentTerm, votedFor := p.votedFor, logOffset := p.logOffset,
           log := p.log, snapshot := p.snapshot, commitIndex := applied, lastApplied := applied)
  }
}
