/** What survives the wire, field by field, without naming a normal form: everything but an
    empty image and what a time has below the millisecond. */
module WireFields {
  import opened Types
  import opened Wire

  /** Cut down to a whole millisecond. */
  predicate CutToMillis(sent: Time, got: Time) {
    got % 1_000_000 == 0 && got <= sent < got + 1_000_000
  }

  predicate SameOrCut(sent: Option<Time>, got: Option<Time>) {
    match (sent, got)
    case (None, None) => true
    case (Some(s), Some(g)) => CutToMillis(s, g)
    case _ => false
  }

  /** An image survives unless it is empty. */
  predicate SameImage(sent: Option<string>, got: Option<string>) {
    got == sent || (sent == Some("") && got == None)
  }

  predicate SameUpdate(sent: JobStatusUpdate, got: JobStatusUpdate) {
    && got.jobId == sent.jobId && got.status == sent.status && got.executedBy == sent.executedBy
    && got.exitCode == sent.exitCode && SameOrCut(sent.completedAt, got.completedAt)
  }

  ghost predicate SameCommand(sent: Command, got: Command) {
    match sent
    case SubmitJob(id, command, createdAt, image) =>
      && got.SubmitJob? && got.jobId == id && got.command == command
      && CutToMillis(createdAt, got.createdAt) && SameImage(image, got.image)
    case UpdateJobStatus(u) => got.UpdateJobStatus? && SameUpdate(u, got.update)
    case BatchUpdateJobStatus(us) =>
      && got.BatchUpdateJobStatus? && |got.updates| == |us|
      && forall i :: 0 <= i < |us| ==> SameUpdate(us[i], got.updates[i])
    case RegisterWorker(id) => got == RegisterWorker(id)
    case AssignJob(id, worker) => got == AssignJob(id, worker)
    case CancelJob(id) => got == CancelJob(id)
    case Noop => got == Noop
  }

  ghost predicate SameEntry(sent: LogEntry, got: LogEntry) {
    got.term == sent.term && got.index == sent.index && SameCommand(sent.command, got.command)
  }

  lemma CutTime(t: Time)
    ensures CutToMillis(t, NormalTime(t))
  {
  }

  lemma UpdateKept(u: JobStatusUpdate)
    ensures SameUpdate(u, NormalUpdate(u))
  {
    if u.completedAt.Some? {
      CutTime(u.completedAt.value);
    }
  }

  lemma {:induction false} UpdatesKept(us: seq<JobStatusUpdate>)
    ensures |NormalUpdates(us)| == |us|
    ensures forall i :: 0 <= i < |us| ==> SameUpdate(us[i], NormalUpdates(us)[i])
  {
    if us != [] {
      UpdateKept(us[0]);
      UpdatesKept(us[1..]);
      forall i | 0 < i < |us| ensures SameUpdate(us[i], NormalUpdates(us)[i]) {
        assert us[i] == us[1..][i - 1];
      }
    }
  }

  /** Every field of an entry arrives as it was sent. */
  lemma EntryArrives(c: Codec, e: LogEntry)
    requires c.Valid() && EntryFits(c, e)
    ensures Decode(c, Encode(c, e)).Some? && SameEntry(e, Decode(c, Encode(c, e)).value)
  {
    RoundTrip(c, e);
    match e.command
    case SubmitJob(_, _, createdAt, _) => CutTime(createdAt);
    case UpdateJobStatus(u) => UpdateKept(u);
    case BatchUpdateJobStatus(us) => UpdatesKept(us);
    case _ =>
  }

  /** And so does every field of a request. */
  lemma RequestArrives(c: Codec, req: AppendRequest)
    requires c.Valid() && AllFit(c, req.entries)
    ensures var got := DecodeAppend(c, EncodeAppend(c, req));
            && got.term == req.term && got.leaderId == req.leaderId && got.leaderCommit == req.leaderCommit
            && got.prevLogIndex == req.prevLogIndex && got.prevLogTerm == req.prevLogTerm
            && |got.entries| == |req.entries|
            && forall i :: 0 <= i < |req.entries| ==> SameEntry(req.entries[i], got.entries[i])
  {
    RequestSurvives(c, req.entries);
    forall i | 0 <= i < |req.entries|
      ensures SameEntry(req.entries[i], DecodeAppend(c, EncodeAppend(c, req)).entries[i])
    {
      RoundTrip(c, req.entries[i]);
      EntryArrives(c, req.entries[i]);
    }
  }

  ghost predicate SameSnapshotJob(sent: SnapshotJob, got: SnapshotJob) {
    && got.id == sent.id && got.command == sent.command && got.status == sent.status
    && got.assignedWorker == sent.assignedWorker && got.executedBy == sent.executedBy && got.exitCode == sent.exitCode
    && CutToMillis(sent.createdAt, got.createdAt) && SameOrCut(sent.completedAt, got.completedAt)
    && SameImage(sent.image, got.image)
  }

  lemma SnapshotJobKept(j: SnapshotJob)
    ensures SameSnapshotJob(j, NormalJob(j))
  {
    CutTime(j.createdAt);
    if j.completedAt.Some? {
      CutTime(j.completedAt.value);
    }
  }

  /** Every field of a snapshot arrives as it was sent, jobs in their order. */
  lemma SnapshotArrives(c: Codec, req: InstallRequest)
    requires c.Valid() && forall i :: 0 <= i < |req.snapshot.jobs| ==> JobFits(c, req.snapshot.jobs[i])
    ensures var got, sent := DecodeInstall(c, EncodeInstall(c, req)), req.snapshot;
            && got.term == req.term && got.leaderId == req.leaderId
            && got.snapshot.lastIncludedIndex == sent.lastIncludedIndex
            && got.snapshot.lastIncludedTerm == sent.lastIncludedTerm && got.snapshot.workers == sent.workers
            && |got.snapshot.jobs| == |sent.jobs|
            && forall i :: 0 <= i < |sent.jobs| ==> SameSnapshotJob(sent.jobs[i], got.snapshot.jobs[i])
  {
    InstallSurvives(c, req);
    forall i | 0 <= i < |req.snapshot.jobs|
      ensures SameSnapshotJob(req.snapshot.jobs[i], DecodeInstall(c, EncodeInstall(c, req)).snapshot.jobs[i])
    {
      SnapshotJobKept(req.snapshot.jobs[i]);
    }
  }

  // ----- whatever arrives --------------------------------------------------------------------------------

  lemma TimeRead(c: Codec, ms: int)
    requires c.first <= 0 <= c.last
    ensures TimeFits(c, FromMillis(c, ms)) && NormalTime(FromMillis(c, ms)) == FromMillis(c, ms)
  {
  }

  lemma {:induction false} UpdatesReadFit(c: Codec, us: seq<WireUpdate>)
    requires c.Valid() && DecodeUpdates(c, us).Some?
    ensures forall i :: 0 <= i < |DecodeUpdates(c, us).value| ==> UpdateFits(c, DecodeUpdates(c, us).value[i])
  {
    if us != [] {
      UpdatesReadFit(c, us[1..]);
      if us[0].completedAtMs.Some? {
        TimeRead(c, us[0].completedAtMs.value);
      }
    }
  }

  lemma ReadFits(c: Codec, w: WireEntry)
    requires c.Valid() && Decode(c, w).Some?
    ensures EntryFits(c, Decode(c, w).value)
  {
    match w.command
    case Some(WireSubmit(_, _, ms, _)) => TimeRead(c, ms);
    case Some(WireUpdateStatus(u)) =>
      if u.completedAtMs.Some? {
        TimeRead(c, u.completedAtMs.value);
      }
    case Some(WireBatch(us)) => UpdatesReadFit(c, us);
    case _ =>
  }

  /** Whatever a node has read it can pass on without loss: a second hop changes nothing. */
  lemma RelayLossless(c: Codec, w: WireEntry)
    requires c.Valid() && Decode(c, w).Some?
    ensures Decode(c, Encode(c, Decode(c, w).value)) == Decode(c, w)
  {
    ReadFits(c, w);
    RoundTrip(c, Decode(c, w).value);
    DecodedNormal(c, w);
  }

  /** A status that nobody set is read as pending, and a time that does not exist as the epoch. */
  lemma ReadDefaults(c: Codec, u: WireUpdate)
    requires c.parse(u.jobId).Some?
    ensures DecodeUpdate(c, u).Some?
    ensures u.status == Unspecified ==> DecodeUpdate(c, u).value.status == Pending
    ensures u.completedAtMs.Some? && !(c.first <= u.completedAtMs.value <= c.last) ==>
              DecodeUpdate(c, u).value.completedAt == Some(0)
  {
  }
}
