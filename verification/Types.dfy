/** The values that nodes exchange and store: commands, log entries, snapshots
    and the four Raft messages.  Identifiers (node ids, terms, indices, UUIDs)
    are unbounded naturals and times are nanoseconds since the epoch. */
module Types {
  datatype Option<+T> = None | Some(value: T)

  type NodeId = nat
  type JobId = nat
  type Time = int

  datatype JobStatus = Pending | Running | Completed | Failed | Cancelled

  datatype JobStatusUpdate = JobStatusUpdate(
    jobId: JobId,
    status: JobStatus,
    executedBy: NodeId,
    exitCode: Option<int>,
    completedAt: Option<Time>)

  datatype Command =
    | SubmitJob(jobId: JobId, command: string, createdAt: Time, image: Option<string>)
    | UpdateJobStatus(update: JobStatusUpdate)
    | BatchUpdateJobStatus(updates: seq<JobStatusUpdate>)
    | RegisterWorker(workerId: NodeId)
    | AssignJob(jobId: JobId, workerId: NodeId)
    | CancelJob(jobId: JobId)
    | Noop

  datatype LogEntry = LogEntry(term: nat, index: nat, command: Command)

  datatype SnapshotJob = SnapshotJob(
    id: JobId,
    command: string,
    status: JobStatus,
    assignedWorker: NodeId,
    executedBy: NodeId,
    exitCode: Option<int>,
    createdAt: Time,
    completedAt: Option<Time>,
    image: Option<string>)

  datatype Snapshot = Snapshot(
    lastIncludedIndex: nat,
    lastIncludedTerm: nat,
    jobs: seq<SnapshotJob>,
    workers: seq<NodeId>)

  datatype Role = Follower | Candidate | Leader

  datatype VoteRequest = VoteRequest(term: nat, candidateId: NodeId, lastLogIndex: nat, lastLogTerm: nat)

  datatype VoteResponse = VoteResponse(term: nat, voteGranted: bool)

  datatype AppendRequest = AppendRequest(
    term: nat,
    leaderId: NodeId,
    prevLogIndex: nat,
    prevLogTerm: nat,
    entries: seq<LogEntry>,
    leaderCommit: nat)
  {
    /** The index of the last entry whose presence the request establishes. */
    function Covers(): nat { prevLogIndex + |entries| }

    /** The form of a heartbeat; a replication round from an empty log looks the same. */
    predicate IsHeartbeat() { prevLogIndex == 0 && entries == [] }
  }

  datatype AppendResponse = AppendResponse(term: nat, success: bool, matchIndex: nat)

  datatype InstallRequest = InstallRequest(term: nat, leaderId: NodeId, snapshot: Snapshot)

  /** A question that opens the definitions stated under it: a predicate of the form
      `forall k: nat :: Asked(k) ==> P` stays closed until a proof asks. */
  predicate Asked(k: nat) { true }

  function Min(a: nat, b: nat): nat { if a <= b then a else b }

  function Max(a: nat, b: nat): nat { if a <= b then b else a }

  ghost predicate IsUniform<T(!new)>(m: map<NodeId, T>, keys: set<NodeId>, value: T) {
    m.Keys == keys && forall k :: k in m ==> m[k] == value
  }

  /** The map that gives every key the same value. */
  ghost function Uniform<T(!new)>(keys: set<NodeId>, value: T): (m: map<NodeId, T>)
    ensures IsUniform(m, keys, value)
  {
    UniformExists(keys, value);
    var m :| IsUniform(m, keys, value);
    m
  }

  lemma {:induction false} UniformExists<T(!new)>(keys: set<NodeId>, value: T)
    ensures exists m: map<NodeId, T> :: IsUniform(m, keys, value)
  {
    if keys == {} {
      var empty: map<NodeId, T> := map[];
      assert IsUniform(empty, keys, value);
    } else {
      var k :| k in keys;
      UniformExists(keys - {k}, value);
      var m: map<NodeId, T> :| IsUniform(m, keys - {k}, value);
      assert IsUniform(m[k := value], keys, value);
    }
  }

  lemma UniformUnique<T(!new)>(m: map<NodeId, T>, keys: set<NodeId>, value: T)
    requires IsUniform(m, keys, value)
    ensures m == Uniform(keys, value)
  {
  }

  lemma SubsetSize<T>(a: set<T>, b: set<T>)
    requires a <= b
    ensures |a| <= |b|
  {
    assert b == a + (b - a);
  }
}
