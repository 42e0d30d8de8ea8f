/** Log entries on the wire.  Job ids travel as text and times as whole milliseconds, so
    a decoded entry is the sent one in a normal form. */
module Wire {
  import opened Types
  import opened RaftSpec
  import opened Compaction

  /** Texts of job ids, and the milliseconds that stand for a time. */
  datatype Codec = Codec(show: JobId -> string, parse: string -> Option<JobId>, first: int, last: int)
  {
    ghost predicate Valid() {
      (forall id: JobId {:trigger show(id)} :: parse(show(id)) == Some(id)) && first <= 0 <= last
    }
  }

  const NANOS_PER_MILLI: int := 1_000_000

  datatype WireStatus = Unspecified | WirePending | WireRunning | WireCompleted | WireFailed | WireCancelled

  datatype WireUpdate = WireUpdate(
    jobId: string, status: WireStatus, executedBy: NodeId, exitCode: Option<int>, completedAtMs: Option<int>)

  datatype WireCommand =
    | WireSubmit(jobId: string, command: string, createdAtMs: int, image: Option<string>)
    | WireUpdateStatus(update: WireUpdate)
    | WireBatch(updates: seq<WireUpdate>)
    | WireRegister(workerId: NodeId)
    | WireAssign(jobId: string, workerId: NodeId)
    | WireCancel(jobId: string)

  /** A missing command is a no-op. */
  datatype WireEntry = WireEntry(term: nat, index: nat, command: Option<WireCommand>)

  // ----- times and statuses -------------------------------------------------------------

  function ToMillis(t: Time): int {
    t / NANOS_PER_MILLI
  }

  /** Milliseconds out of range are read as the epoch. */
  function FromMillis(c: Codec, ms: int): Time {
    if c.first <= ms <= c.last then ms * NANOS_PER_MILLI else 0
  }

  function ToWireStatus(s: JobStatus): WireStatus {
    match s
    case Pending => WirePending
    case Running => WireRunning
    case Completed => WireCompleted
    case Failed => WireFailed
    case Cancelled => WireCancelled
  }

  function FromWireStatus(s: WireStatus): JobStatus {
    match s
    case Unspecified => Pending
    case WirePending => Pending
    case WireRunning => Running
    case WireCompleted => Completed
    case WireFailed => Failed
    case WireCancelled => Cancelled
  }

  // ----- encoding -------------------------------------------------------------------------

  function EncodeUpdate(c: Codec, u: JobStatusUpdate): WireUpdate {
    WireUpdate(c.show(u.jobId), ToWireStatus(u.status), u.executedBy, u.exitCode,
               if u.completedAt.Some? then Some(ToMillis(u.completedAt.value)) else None)
  }

  function EncodeUpdates(c: Codec, us: seq<JobStatusUpdate>): seq<WireUpdate> {
    if us == [] then [] else [EncodeUpdate(c, us[0])] + EncodeUpdates(c, us[1..])
  }

  function EncodeCommand(c: Codec, command: Command): Option<WireCommand> {
    match command
    case SubmitJob(id, text, createdAt, image) => Some(WireSubmit(c.show(id), text, ToMillis(createdAt), image))
    case UpdateJobStatus(u) => Some(WireUpdateStatus(EncodeUpdate(c, u)))
    case BatchUpdateJobStatus(us) => Some(WireBatch(EncodeUpdates(c, us)))
    case RegisterWorker(id) => Some(WireRegister(id))
    case AssignJob(id, worker) => Some(WireAssign(c.show(id), worker))
    case CancelJob(id) => Some(WireCancel(c.show(id)))
    case Noop => None
  }

  function Encode(c: Codec, e: LogEntry): WireEntry {
    WireEntry(e.term, e.index, EncodeCommand(c, e.command))
  }

  function EncodeAll(c: Codec, es: seq<LogEntry>): seq<WireEntry> {
    if es == [] then [] else [Encode(c, es[0])] + EncodeAll(c, es[1..])
  }

  // ----- decoding --------------------------------------------------------------------------

  function DecodeUpdate(c: Codec, u: WireUpdate): Option<JobStatusUpdate> {
    match c.parse(u.jobId)
    case None => None
    case Some(id) =>
      Some(JobStatusUpdate(id, FromWireStatus(u.status), u.executedBy, u.exitCode,
                           if u.completedAtMs.Some? then Some(FromMillis(c, u.completedAtMs.value)) else None))
  }

  /** One unreadable id spoils the batch. */
  function DecodeUpdates(c: Codec, us: seq<WireUpdate>): Option<seq<JobStatusUpdate>> {
    if us == [] then Some([])
    else
      match (DecodeUpdate(c, us[0]), DecodeUpdates(c, us[1..]))
      case (Some(u), Some(rest)) => Some([u] + rest)
      case _ => None
  }

  function DecodeCommand(c: Codec, w: Option<WireCommand>): Option<Command> {
    match w
    case None => Some(Noop)
    case Some(WireSubmit(text, command, ms, image)) =>
      (match c.parse(text)
       case None => None
       case Some(id) => Some(SubmitJob(id, command, FromMillis(c, ms), if image == Some("") then None else image)))
    case Some(WireUpdateStatus(u)) =>
      (match DecodeUpdate(c, u)
       case None => None
       case Some(v) => Some(UpdateJobStatus(v)))
    case Some(WireBatch(us)) =>
      (match DecodeUpdates(c, us)
       case None => None
       case Some(vs) => Some(BatchUpdateJobStatus(vs)))
    case Some(WireRegister(id)) => Some(RegisterWorker(id))
    case Some(WireAssign(text, worker)) =>
      (match c.parse(text)
       case None => None
       case Some(id) => Some(AssignJob(id, worker)))
    case Some(WireCancel(text)) =>
      (match c.parse(text)
       case None => None
       case Some(id) => Some(CancelJob(id)))
  }

  function Decode(c: Codec, w: WireEntry): Option<LogEntry> {
    match DecodeCommand(c, w.command)
    case None => None
    case Some(command) => Some(LogEntry(w.term, w.index, command))
  }

  /** Unreadable entries are skipped. */
  function DecodeAll(c: Codec, ws: seq<WireEntry>): seq<LogEntry> {
    if ws == [] then []
    else
      match Decode(c, ws[0])
      case Some(e) => [e] + DecodeAll(c, ws[1..])
      case None => DecodeAll(c, ws[1..])
  }

  // ----- the normal form ---------------------------------------------------------------------

  function NormalTime(t: Time): Time {
    ToMillis(t) * NANOS_PER_MILLI
  }

  function NormalUpdate(u: JobStatusUpdate): JobStatusUpdate {
    u.(completedAt := if u.completedAt.Some? then Some(NormalTime(u.completedAt.value)) else None)
  }

  function NormalUpdates(us: seq<JobStatusUpdate>): seq<JobStatusUpdate> {
    if us == [] then [] else [NormalUpdate(us[0])] + NormalUpdates(us[1..])
  }

  function NormalCommand(command: Command): Command {
    match command
    case SubmitJob(id, text, createdAt, image) =>
      SubmitJob(id, text, NormalTime(createdAt), if image == Some("") then None else image)
    case UpdateJobStatus(u) => UpdateJobStatus(NormalUpdate(u))
    case BatchUpdateJobStatus(us) => BatchUpdateJobStatus(NormalUpdates(us))
    case _ => command
  }

  function Normal(e: LogEntry): LogEntry {
    e.(command := NormalCommand(e.command))
  }

  // ----- times that exist ----------------------------------------------------------------------

  predicate TimeFits(c: Codec, t: Time) {
    c.first <= ToMillis(t) <= c.last
  }

  predicate UpdateFits(c: Codec, u: JobStatusUpdate) {
    u.completedAt.Some? ==> TimeFits(c, u.completedAt.value)
  }

  ghost predicate EntryFits(c: Codec, e: LogEntry) {
    match e.command
    case SubmitJob(_, _, createdAt, _) => TimeFits(c, createdAt)
    case UpdateJobStatus(u) => UpdateFits(c, u)
    case BatchUpdateJobStatus(us) => forall i :: 0 <= i < |us| ==> UpdateFits(c, us[i])
    case _ => true
  }

  // ----- round trips -----------------------------------------------------------------------------

  lemma {:induction false} UpdatesRoundTrip(c: Codec, us: seq<JobStatusUpdate>)
    requires c.Valid() && forall i :: 0 <= i < |us| ==> UpdateFits(c, us[i])
    ensures DecodeUpdates(c, EncodeUpdates(c, us)) == Some(NormalUpdates(us))
  {
    if us != [] {
      UpdatesRoundTrip(c, us[1..]);
      assert EncodeUpdates(c, us)[1..] == EncodeUpdates(c, us[1..]);
      assert UpdateFits(c, us[0]);
    }
  }

  /** Decoding an encoded entry gives its normal form. */
  lemma RoundTrip(c: Codec, e: LogEntry)
    requires c.Valid() && EntryFits(c, e)
    ensures Decode(c, Encode(c, e)) == Some(Normal(e))
  {
    match e.command
    case BatchUpdateJobStatus(us) => UpdatesRoundTrip(c, us);
    case _ =>
  }

  lemma {:induction false} NormalUpdatesTwice(us: seq<JobStatusUpdate>)
    ensures NormalUpdates(NormalUpdates(us)) == NormalUpdates(us)
  {
    if us != [] {
      NormalUpdatesTwice(us[1..]);
      assert NormalUpdates(us)[1..] == NormalUpdates(us[1..]);
    }
  }

  /** The normal form is idempotent, so a second trip changes nothing. */
  lemma NormalTwice(e: LogEntry)
    ensures Normal(Normal(e)) == Normal(e)
  {
    match e.command
    case BatchUpdateJobStatus(us) => NormalUpdatesTwice(us);
    case _ =>
  }

  /** Everything that can be decoded is in normal form. */
  lemma {:induction false} DecodedUpdatesNormal(c: Codec, ws: seq<WireUpdate>)
    requires DecodeUpdates(c, ws).Some?
    ensures NormalUpdates(DecodeUpdates(c, ws).value) == DecodeUpdates(c, ws).value
  {
    if ws != [] {
      DecodedUpdatesNormal(c, ws[1..]);
    }
  }

  lemma DecodedNormal(c: Codec, w: WireEntry)
    requires Decode(c, w).Some?
    ensures Normal(Decode(c, w).value) == Decode(c, w).value
  {
    match w.command
    case Some(WireBatch(us)) => DecodedUpdatesNormal(c, us);
    case _ =>
  }

  /** Some job id in the entry cannot be read. */
  predicate Unreadable(c: Codec, w: WireEntry) {
    match w.command
    case Some(WireSubmit(text, _, _, _)) => c.parse(text).None?
    case Some(WireUpdateStatus(u)) => c.parse(u.jobId).None?
    case Some(WireBatch(us)) => exists i :: 0 <= i < |us| && c.parse(us[i].jobId).None?
    case Some(WireAssign(text, _)) => c.parse(text).None?
    case Some(WireCancel(text)) => c.parse(text).None?
    case _ => false
  }

  lemma {:induction false} BatchUnreadable(c: Codec, us: seq<WireUpdate>)
    ensures DecodeUpdates(c, us).None? <==> exists i :: 0 <= i < |us| && c.parse(us[i].jobId).None?
  {
    if us != [] {
      BatchUnreadable(c, us[1..]);
      if i :| 0 <= i < |us[1..]| && c.parse(us[1..][i].jobId).None? {
        assert c.parse(us[i + 1].jobId).None?;
      }
      if i :| 0 < i < |us| && c.parse(us[i].jobId).None? {
        assert us[1..][i - 1] == us[i];
      }
    }
  }

  /** The filter drops an entry exactly when an id in it is unreadable. */
  lemma DroppedExact(c: Codec, w: WireEntry)
    ensures Decode(c, w).None? <==> Unreadable(c, w)
  {
    match w.command
    case Some(WireBatch(us)) => BatchUnreadable(c, us);
    case _ =>
  }

  // ----- requests -----------------------------------------------------------------------------------

  ghost predicate AllFit(c: Codec, es: seq<LogEntry>) {
    forall i :: 0 <= i < |es| ==> EntryFits(c, es[i])
  }

  /** The filter drops nothing a leader sent: same length, terms and indices. */
  lemma {:induction false} RequestSurvives(c: Codec, es: seq<LogEntry>)
    requires c.Valid() && AllFit(c, es)
    ensures var ds := DecodeAll(c, EncodeAll(c, es));
            |ds| == |es| && forall i :: 0 <= i < |es| ==> ds[i] == Normal(es[i])
  {
    if es != [] {
      RoundTrip(c, es[0]);
      RequestSurvives(c, es[1..]);
      assert EncodeAll(c, es)[1..] == EncodeAll(c, es[1..]);
    }
  }

  /** So a numbered request arrives numbered, with the terms it was sent with. */
  lemma NumberingSurvives(c: Codec, req: AppendRequest)
    requires c.Valid() && AllFit(c, req.entries) && EntriesNumbered(req)
    ensures EntriesNumbered(req.(entries := DecodeAll(c, EncodeAll(c, req.entries))))
    ensures |DecodeAll(c, EncodeAll(c, req.entries))| == |req.entries|
    ensures forall i :: 0 <= i < |req.entries| ==>
              DecodeAll(c, EncodeAll(c, req.entries))[i].term == req.entries[i].term
  {
    RequestSurvives(c, req.entries);
  }

  /** The filter keeps the length of a request exactly when every id in it is readable. */
  lemma {:induction false} FilterExact(c: Codec, ws: seq<WireEntry>)
    ensures |DecodeAll(c, ws)| <= |ws|
    ensures |DecodeAll(c, ws)| == |ws| <==> forall i :: 0 <= i < |ws| ==> !Unreadable(c, ws[i])
  {
    if ws != [] {
      FilterExact(c, ws[1..]);
      DroppedExact(c, ws[0]);
      assert forall i :: 0 <= i < |ws| - 1 ==> ws[1..][i] == ws[i + 1];
      assert (forall i :: 0 <= i < |ws| ==> !Unreadable(c, ws[i])) <==>
             !Unreadable(c, ws[0]) && forall i :: 0 <= i < |ws[1..]| ==> !Unreadable(c, ws[1..][i]);
    }
  }

  // ----- the handler on what arrives -----------------------------------------------------------------

  datatype WireAppend = WireAppend(
    term: nat, leaderId: NodeId, prevLogIndex: nat, prevLogTerm: nat, entries: seq<WireEntry>, leaderCommit: nat)

  function EncodeAppend(c: Codec, req: AppendRequest): WireAppend {
    WireAppend(req.term, req.leaderId, req.prevLogIndex, req.prevLogTerm, EncodeAll(c, req.entries), req.leaderCommit)
  }

  function DecodeAppend(c: Codec, w: WireAppend): AppendRequest {
    AppendRequest(w.term, w.leaderId, w.prevLogIndex, w.prevLogTerm, DecodeAll(c, w.entries), w.leaderCommit)
  }

  /** The log is cut when entries arrived, even if none of them could be read. */
  function StoreReceived(s: NodeState, c: Codec, w: WireAppend): NodeState {
    if w.entries == [] then s else s.TruncateAndAppend(w.prevLogIndex + 1, DecodeAll(c, w.entries))
  }

  function Receive(s: NodeState, c: Codec, w: WireAppend): (NodeState, AppendResponse) {
    var req := DecodeAppend(c, w);
    var s1 := Acknowledge(s, req);
    if w.term >= s.currentTerm && CheckPrev(s1, req).Accept? then
      var s2 := FollowCommit(StoreReceived(s1, c, w), w.leaderCommit);
      (s2, AppendResponse(s2.currentTerm, true, s2.LastLogIndex()))
    else HandleAppendEntries(s, req)
  }

  /** What a leader sent is handled as its normal form. */
  lemma ReceivedAsSent(s: NodeState, c: Codec, req: AppendRequest)
    requires c.Valid() && AllFit(c, req.entries)
    ensures Receive(s, c, EncodeAppend(c, req)) == HandleAppendEntries(s, DecodeAppend(c, EncodeAppend(c, req)))
    ensures |DecodeAppend(c, EncodeAppend(c, req)).entries| == |req.entries|
    ensures forall i :: 0 <= i < |req.entries| ==>
              DecodeAppend(c, EncodeAppend(c, req)).entries[i] == Normal(req.entries[i])
  {
    RequestSurvives(c, req.entries);
  }

  /** Only when every entry of an accepted request is unreadable, and the log goes on
      after the place they were for, does more happen than handling what was read. */
  lemma ReceiveExact(s: NodeState, c: Codec, w: WireAppend)
    ensures var req := DecodeAppend(c, w);
            Receive(s, c, w).0.log == HandleAppendEntries(s, req).0.log <==>
              || w.entries == [] || req.entries != []
              || w.term < s.currentTerm || !CheckPrev(Acknowledge(s, req), req).Accept?
              || s.log == [] || w.prevLogIndex >= s.logOffset + |s.log|
  {
    var req := DecodeAppend(c, w);
    var s1 := Acknowledge(s, req);
    if w.entries != [] && req.entries == [] && w.term >= s.currentTerm && CheckPrev(s1, req).Accept? {
      assert StoreReceived(s1, c, w).log == s1.TruncateAndAppend(w.prevLogIndex + 1, []).log;
      assert s1.log + [] == s1.log;
    }
  }

  // ----- snapshots -----------------------------------------------------------------------------------

  datatype WireJob = WireJob(
    jobId: string, command: string, status: WireStatus, assignedWorker: NodeId, executedBy: NodeId,
    exitCode: Option<int>, createdAtMs: int, completedAtMs: Option<int>, image: Option<string>)

  datatype WireInstall = WireInstall(
    term: nat, leaderId: NodeId, lastIncludedIndex: nat, lastIncludedTerm: nat,
    jobs: seq<WireJob>, workers: seq<NodeId>)

  function EncodeJob(c: Codec, j: SnapshotJob): WireJob {
    WireJob(c.show(j.id), j.command, ToWireStatus(j.status), j.assignedWorker, j.executedBy, j.exitCode,
            ToMillis(j.createdAt), if j.completedAt.Some? then Some(ToMillis(j.completedAt.value)) else None, j.image)
  }

  function DecodeJob(c: Codec, w: WireJob): Option<SnapshotJob> {
    match c.parse(w.jobId)
    case None => None
    case Some(id) =>
      Some(SnapshotJob(id, w.command, FromWireStatus(w.status), w.assignedWorker, w.executedBy, w.exitCode,
                       FromMillis(c, w.createdAtMs),
                       if w.completedAtMs.Some? then Some(FromMillis(c, w.completedAtMs.value)) else None,
                       if w.image == Some("") then None else w.image))
  }

  function EncodeJobs(c: Codec, js: seq<SnapshotJob>): seq<WireJob> {
    if js == [] then [] else [EncodeJob(c, js[0])] + EncodeJobs(c, js[1..])
  }

  /** Unreadable jobs are skipped. */
  function DecodeJobs(c: Codec, ws: seq<WireJob>): seq<SnapshotJob> {
    if ws == [] then []
    else
      match DecodeJob(c, ws[0])
      case Some(j) => [j] + DecodeJobs(c, ws[1..])
      case None => DecodeJobs(c, ws[1..])
  }

  function EncodeInstall(c: Codec, req: InstallRequest): WireInstall {
    WireInstall(req.term, req.leaderId, req.snapshot.lastIncludedIndex, req.snapshot.lastIncludedTerm,
                EncodeJobs(c, req.snapshot.jobs), req.snapshot.workers)
  }

  function DecodeInstall(c: Codec, w: WireInstall): InstallRequest {
    InstallRequest(w.term, w.leaderId,
                   Snapshot(w.lastIncludedIndex, w.lastIncludedTerm, DecodeJobs(c, w.jobs), w.workers))
  }

  function NormalJob(j: SnapshotJob): SnapshotJob {
    j.(createdAt := NormalTime(j.createdAt),
       completedAt := if j.completedAt.Some? then Some(NormalTime(j.completedAt.value)) else None,
       image := if j.image == Some("") then None else j.image)
  }

  predicate JobFits(c: Codec, j: SnapshotJob) {
    TimeFits(c, j.createdAt) && (j.completedAt.Some? ==> TimeFits(c, j.completedAt.value))
  }

  /** A snapshot a leader sends arrives whole: index, term and workers as sent, and every
      job once, in order, in its normal form. */
  lemma {:induction false} InstallSurvives(c: Codec, req: InstallRequest)
    requires c.Valid() && forall i :: 0 <= i < |req.snapshot.jobs| ==> JobFits(c, req.snapshot.jobs[i])
    ensures var got, sent := DecodeInstall(c, EncodeInstall(c, req)), req.snapshot.jobs;
            && got == req.(snapshot := req.snapshot.(jobs := got.snapshot.jobs)) && |got.snapshot.jobs| == |sent|
            && forall i :: 0 <= i < |sent| ==> got.snapshot.jobs[i] == NormalJob(sent[i])
    decreases |req.snapshot.jobs|
  {
    var sent := req.snapshot.jobs;
    if sent != [] {
      InstallSurvives(c, req.(snapshot := req.snapshot.(jobs := sent[1..])));
      assert EncodeJobs(c, sent)[1..] == EncodeJobs(c, sent[1..]);
      assert JobFits(c, sent[0]);
    }
  }

  /** No job is dropped exactly when every id is readable. */
  lemma {:induction false} JobsFilterExact(c: Codec, ws: seq<WireJob>)
    ensures |DecodeJobs(c, ws)| <= |ws|
    ensures |DecodeJobs(c, ws)| == |ws| <==> forall i :: 0 <= i < |ws| ==> c.parse(ws[i].jobId).Some?
  {
    if ws != [] {
      JobsFilterExact(c, ws[1..]);
      assert forall i :: 0 <= i < |ws| - 1 ==> ws[1..][i] == ws[i + 1];
      assert (forall i :: 0 <= i < |ws| ==> c.parse(ws[i].jobId).Some?) <==>
             c.parse(ws[0].jobId).Some? && forall i :: 0 <= i < |ws[1..]| ==> c.parse(ws[1..][i].jobId).Some?;
    }
  }
}
