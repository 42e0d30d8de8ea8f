/** Whole runs of a compacting node beside its uncompacted twin: same answers, the
    index chain, and every committed entry handed to the state machine once. */
module TwinRuns {
  import opened Types
  import opened RaftSpec
  import opened Logs
  import opened Compaction

  datatype Op =
    | Vote(vote: VoteRequest)
    | Append(append: AppendRequest)
    | Timeout(id: NodeId)
    | Win(id: NodeId, votes: nat, peers: set<NodeId>)
    | StepDown(term: nat)
    | Propose(command: Command)
    | Reply(peer: NodeId, result: AppendResponse)
    | Apply
    | Compact(threshold: nat, jobs: seq<SnapshotJob>, workers: seq<NodeId>)
    | Install(install: InstallRequest, prefix: Log)
    | Restart

  datatype Answer = Voted(vote: VoteResponse) | Appended(result: AppendResponse) | Batch(entries: Log) | Silent

  /** The compacting node. */
  ghost function Act(c: NodeState, op: Op): (NodeState, Answer) {
    match op
    case Vote(vote) => var (c', r) := HandleRequestVote(c, vote); (c', Voted(r))
    case Append(append) => var (c', r) := HandleAppendEntries(c, append); (c', Appended(r))
    case Timeout(id) => (c.BecomeCandidate(id), Silent)
    case Win(id, votes, peers) => (c.(votesReceived := votes).BecomeLeader(id, peers), Silent)
    case StepDown(term) => (c.BecomeFollower(term), Silent)
    case Propose(command) => (c.AppendEntry(command), Silent)
    case Reply(peer, result) => (HandleAppendReply(c, peer, result), Silent)
    case Apply => var (c', batch) := TakeCommitted(c); (c', Batch(batch))
    case Compact(threshold, jobs, workers) => (MaybeCompact(c, threshold, jobs, workers), Silent)
    case Install(install, _) => (HandleInstallSnapshot(c, install), Silent)
    case Restart => (Restore(Durable(c)), Silent)
  }

  /** The twin ignores compaction, is handed the entries a snapshot stands for and
      restarts from the index of the node's snapshot. */
  ghost function ActPlain(u: NodeState, offset: nat, op: Op): (NodeState, Answer) {
    match op
    case Compact(_, _, _) => (u, Silent)
    case Install(install, prefix) => (InstallPlain(u, offset, install, prefix), Silent)
    case Restart => (RestartPlain(u, offset), Silent)
    case _ => Act(u, op)
  }

  /** What the environment owes the node; a request of an older term is refused unread. */
  ghost predicate Owed(c: NodeState, u: NodeState, op: Op) {
    match op
    case Append(append) =>
      append.term < c.currentTerm || (Compatible(u, append) && (Accepts(c, append) ==> FromOffset(c, append)))
    case Install(install, prefix) => install.term < c.currentTerm || StandsFor(install.snapshot, prefix)
    case _ => true
  }

  lemma StoreKeepsCommitted(u: NodeState, req: AppendRequest)
    requires Plain(u) && u.commitIndex <= |u.log| && req.prevLogIndex <= |u.log|
    requires EntriesNumbered(req) && EntriesAgree(u, req)
    ensures var u' := StoreEntries(u, req);
            Plain(u') && Agree(u'.log, u.log, u.commitIndex) && u'.LastLogIndex() == |u'.log|
  {
    if req.entries != [] {
      var p := req.prevLogIndex;
      var log' := StoreEntries(u, req).log;
      assert log' == u.log[..p] + req.entries;
      forall j | 0 <= j < u.commitIndex
        ensures log'[j] == u.log[j]
      {
        assert j >= p ==> req.entries[j - p] == u.log[j];
      }
    }
  }

  /** Handling a compatible request keeps the committed entries where they are. */
  lemma AppendKeepsCommitted(u: NodeState, req: AppendRequest)
    requires Plain(u) && u.commitIndex <= |u.log| && Compatible(u, req)
    ensures var u' := HandleAppendEntries(u, req).0;
            && Agree(u'.log, u.log, u.commitIndex)
            && u.commitIndex <= u'.commitIndex <= |u'.log| && u'.lastApplied == u.lastApplied
  {
    AppendShape(u, req);
    RaiseWithinLog(u, req);
    KeptByShape(u, req, HandleAppendEntries(u, req).0, HandleAppendEntries(u, req).1);
  }

  lemma KeptByShape(u: NodeState, req: AppendRequest, u': NodeState, r: AppendResponse)
    requires Plain(u) && u.commitIndex <= |u.log| && Compatible(u, req) && Shape(u, req, u', r)
    requires u'.commitIndex == u.commitIndex
          || (r.success && u.commitIndex < req.leaderCommit && u'.commitIndex == Min(req.leaderCommit, r.matchIndex))
    ensures Agree(u'.log, u.log, u.commitIndex) && u.commitIndex <= u'.commitIndex <= |u'.log|
  {
    if r.success {
      KeptAccepted(u, req, u', r);
    } else {
      KeptRefused(u, req, u', r);
    }
  }

  lemma KeptAccepted(u: NodeState, req: AppendRequest, u': NodeState, r: AppendResponse)
    requires Plain(u) && u.commitIndex <= |u.log| && Compatible(u, req) && Shape(u, req, u', r) && r.success
    ensures Agree(u'.log, u.log, u.commitIndex) && r.matchIndex == |u'.log|
  {
    var u1 := Acknowledge(u, req);
    CheckPrevPlain(u1, req);
    CheckPrevPlain(u, req);
    StoreKeepsCommitted(u1, req);
    assert u'.LastLogIndex() == |u'.log|;
  }

  lemma KeptRefused(u: NodeState, req: AppendRequest, u': NodeState, r: AppendResponse)
    requires u.commitIndex <= |u.log| && PrevAgrees(u, req) && Shape(u, req, u', r) && !r.success
    ensures Agree(u'.log, u.log, u.commitIndex)
  {
  }

  lemma AppendActs(c: NodeState, u: NodeState, append: AppendRequest)
    requires Twin(c, u) && Chain(c) && Compatible(u, append) && (Accepts(c, append) ==> FromOffset(c, append))
    ensures var (c', a) := HandleAppendEntries(c, append);
            var (u', b) := HandleAppendEntries(u, append);
            Twin(c', u') && c'.LastLogIndex() == |u'.log| && a == b
    ensures Chain(HandleAppendEntries(c, append).0)
  {
    SameEnds(c, u);
    SameCheck(c, u, append);
    AppendTwin(c, u, append);
    AppendKeepsCommitted(u, append);
    SameEnds(HandleAppendEntries(c, append).0, HandleAppendEntries(u, append).0);
    SameOffset(c, append);
  }

  lemma SameOffset(c: NodeState, append: AppendRequest)
    ensures HandleAppendEntries(c, append).0.logOffset == c.logOffset
  {
  }

  lemma VoteActs(c: NodeState, u: NodeState, vote: VoteRequest)
    requires Twin(c, u) && Chain(c)
    ensures var (c', a) := HandleRequestVote(c, vote);
            var (u', b) := HandleRequestVote(u, vote);
            Twin(c', u') && Chain(c') && a == b
  {
    VoteTwin(c, u, vote);
    SameEnds(c, u);
    SameEnds(HandleRequestVote(c, vote).0, HandleRequestVote(u, vote).0);
  }

  /** Every operation keeps twin and chain, and is answered alike. */
  ghost predicate ActsAlike(c: NodeState, u: NodeState, op: Op) {
    var (c', a) := Act(c, op);
    var (u', b) := ActPlain(u, c.logOffset, op);
    Twin(c', u') && Chain(c') && a == b
  }

  lemma ActTwin(c: NodeState, u: NodeState, op: Op)
    requires Twin(c, u) && Chain(c) && Owed(c, u, op)
    ensures ActsAlike(c, u, op)
  {
    match op
    case Vote(vote) => VoteActs(c, u, vote);
    case Append(append) =>
      if append.term < c.currentTerm {
        OldRequestActs(c, u, append);
      } else {
        AppendActs(c, u, append);
      }
    case Propose(command) => ProposeTwin(c, u, command);
    case Reply(peer, result) => ReplyTwin(c, u, peer, result);
    case Apply => ApplyTwin(c, u);
    case Compact(threshold, jobs, workers) => CompactTwin(c, u, threshold, jobs, workers);
    case Install(install, prefix) =>
      if install.term >= c.currentTerm {
        InstallTwin(c, u, install, prefix);
      }
    case Restart => RestartTwin(c, u);
    case Win(id, votes, peers) => WinTwin(c, u, id, votes, peers);
    case _ =>
  }

  lemma OldRequestActs(c: NodeState, u: NodeState, append: AppendRequest)
    requires Twin(c, u) && append.term < c.currentTerm
    ensures HandleAppendEntries(c, append).0 == c && HandleAppendEntries(u, append).0 == u
    ensures HandleAppendEntries(c, append).1 == HandleAppendEntries(u, append).1
  {
    SameEnds(c, u);
  }

  lemma WinTwin(c: NodeState, u: NodeState, id: NodeId, votes: nat, peers: set<NodeId>)
    requires Twin(c, u)
    ensures Twin(c.(votesReceived := votes).BecomeLeader(id, peers), u.(votesReceived := votes).BecomeLeader(id, peers))
  {
    SameEnds(c, u);
    SameEnds(c.(votesReceived := votes), u.(votesReceived := votes));
  }

  // ----- what reaches the state machine ------------------------------------------------------

  /** Both nodes; `applied` joins the batches the node has handed to its state
      machine since it was last rebuilt from the snapshot at index `base`. */
  datatype Pair = Pair(c: NodeState, u: NodeState, base: nat, applied: Log)

  ghost predicate Rebuilds(c: NodeState, op: Op) {
    op.Restart? || (op.Install? && Act(c, op).0.logOffset > c.logOffset)
  }

  ghost function Next(p: Pair, op: Op): Pair {
    var (c', a) := Act(p.c, op);
    var u' := ActPlain(p.u, p.c.logOffset, op).0;
    if Rebuilds(p.c, op) then Pair(c', u', c'.logOffset, [])
    else Pair(c', u', p.base, if a.Batch? then p.applied + a.entries else p.applied)
  }

  /** The batches are the committed entries since `base`, in order. */
  ghost predicate Delivered(p: Pair) {
    && p.base <= p.u.lastApplied <= |p.u.log|
    && p.applied == p.u.log[p.base..p.u.lastApplied]
  }

  /** A rebuild must not take the state machine back behind what it has applied. */
  predicate NoStepBack(c: NodeState, op: Op) {
    Installs(c, op) ==> op.install.snapshot.lastIncludedIndex >= c.lastApplied
  }

  /** Nodes in step. */
  ghost predicate InStep(p: Pair) {
    Twin(p.c, p.u) && Chain(p.c)
  }

  lemma AppliedKept(c: NodeState, u: NodeState, op: Op)
    requires Twin(c, u) && Chain(c) && Owed(c, u, op) && !op.Apply? && !op.Install? && !op.Restart?
    ensures var u' := ActPlain(u, c.logOffset, op).0;
            u'.lastApplied == u.lastApplied && Agree(u'.log, u.log, u.lastApplied)
  {
    SameEnds(c, u);
    if op.Append? && op.append.term >= c.currentTerm {
      AppendKeepsCommitted(u, op.append);
    }
  }

  /** The node installs the snapshot. */
  predicate Installs(c: NodeState, op: Op) {
    op.Install? && op.install.term >= c.currentTerm && op.install.snapshot.lastIncludedIndex > c.logOffset
  }

  lemma InstallShape(p: Pair, op: Op)
    requires InStep(p) && op.Install? && Owed(p.c, p.u, op)
    ensures var q := Next(p, op);
            if Installs(p.c, op) then
              && q.base == op.install.snapshot.lastIncludedIndex && q.applied == []
              && q.u.log == Splice(p.u.log, op.prefix) && q.u.lastApplied == Max(p.u.lastApplied, q.base)
            else
              q.base == p.base && q.applied == p.applied && q.u.log == p.u.log && q.u.lastApplied == p.u.lastApplied
  {
  }

  /** Entries between `base` and what has been applied were never handed over. */
  ghost predicate Gap(p: Pair) {
    p.base + |p.applied| < p.u.lastApplied
  }

  lemma InstallDelivers(p: Pair, op: Op)
    requires InStep(p) && Owed(p.c, p.u, op) && Installs(p.c, op)
    ensures Delivered(Next(p, op)) <==> NoStepBack(p.c, op)
    ensures Gap(Next(p, op)) <==> !NoStepBack(p.c, op)
  {
    SameEnds(p.c, p.u);
    InstallShape(p, op);
    SpliceShape(p.u.log, op.prefix);
  }

  lemma ApplyDelivers(p: Pair)
    requires InStep(p)
    ensures Delivered(p) ==> Delivered(Next(p, Apply))
    ensures Gap(p) ==> Gap(Next(p, Apply))
  {
    ApplyTwin(p.c, p.u);
    SameEnds(p.c, p.u);
    if Delivered(p) {
      Adjacent(p.u.log, p.base, p.u.lastApplied, p.u.commitIndex);
    }
  }

  lemma Adjacent(log: Log, a: nat, b: nat, c: nat)
    requires a <= b <= c <= |log|
    ensures log[a..b] + log[b..c] == log[a..c]
  {
  }

  lemma QuietDelivers(p: Pair, op: Op)
    requires InStep(p) && Owed(p.c, p.u, op) && !op.Apply? && !op.Install? && !op.Restart?
    ensures Delivered(p) ==> Delivered(Next(p, op))
    ensures Gap(p) ==> Gap(Next(p, op))
  {
    AppliedKept(p.c, p.u, op);
    QuietNext(p, op);
    if Delivered(p) {
      SameSlice(Next(p, op).u.log, p.u.log, p.base, p.u.lastApplied);
    }
  }

  /** Nothing is handed over and nothing rebuilt. */
  lemma QuietNext(p: Pair, op: Op)
    requires !op.Apply? && !op.Install? && !op.Restart?
    ensures Next(p, op).u == ActPlain(p.u, p.c.logOffset, op).0
    ensures Next(p, op).base == p.base && Next(p, op).applied == p.applied
  {
    assert !Act(p.c, op).1.Batch?;
  }

  lemma SameSlice(a: Log, b: Log, i: nat, j: nat)
    requires i <= j && Agree(a, b, j)
    ensures j <= |a| && j <= |b| && a[i..j] == b[i..j]
  {
    assert a[i..j] == a[..j][i..] && b[i..j] == b[..j][i..];
  }

  lemma RestartDelivers(p: Pair)
    requires InStep(p)
    ensures Delivered(Next(p, Restart))
  {
    SameEnds(p.c, p.u);
  }

  /** Whatever is not a rebuild keeps the joined batches whole, or broken. */
  lemma NextDelivers(p: Pair, op: Op)
    requires InStep(p) && Owed(p.c, p.u, op) && !op.Restart? && !Installs(p.c, op)
    ensures Delivered(p) ==> Delivered(Next(p, op))
    ensures Gap(p) ==> Gap(Next(p, op))
  {
    if op.Apply? {
      ApplyDelivers(p);
    } else if op.Install? {
      InstallShape(p, op);
    } else {
      QuietDelivers(p, op);
    }
  }

  // ----- runs --------------------------------------------------------------------------------

  const FRESH_PAIR := Pair(FRESH, FRESH, 0, [])

  ghost function After(ops: seq<Op>): Pair {
    if ops == [] then FRESH_PAIR else Next(After(ops[..|ops| - 1]), ops[|ops| - 1])
  }

  ghost predicate Served(ops: seq<Op>) {
    ops != [] ==>
      var p, op := After(ops[..|ops| - 1]), ops[|ops| - 1];
      Served(ops[..|ops| - 1]) && Owed(p.c, p.u, op)
  }

  /** The answers of the compacting node and of the twin. */
  ghost function Answers(ops: seq<Op>): seq<Answer> {
    if ops == [] then []
    else Answers(ops[..|ops| - 1]) + [Act(After(ops[..|ops| - 1]).c, ops[|ops| - 1]).1]
  }

  ghost function PlainAnswers(ops: seq<Op>): seq<Answer> {
    if ops == [] then []
    else
      var p := After(ops[..|ops| - 1]);
      PlainAnswers(ops[..|ops| - 1]) + [ActPlain(p.u, p.c.logOffset, ops[|ops| - 1]).1]
  }

  /** Compaction is invisible: over every run the two nodes give the same answers. */
  lemma {:induction false} CompactionInvisible(ops: seq<Op>)
    requires Served(ops)
    ensures InStep(After(ops)) && Answers(ops) == PlainAnswers(ops)
  {
    if ops != [] {
      var p := After(ops[..|ops| - 1]);
      CompactionInvisible(ops[..|ops| - 1]);
      ActTwin(p.c, p.u, ops[|ops| - 1]);
      assert ActsAlike(p.c, p.u, ops[|ops| - 1]);
    }
  }

  /** The index chain and the numbering of the stored entries, over every run. */
  lemma ChainHolds(ops: seq<Op>)
    requires Served(ops)
    ensures var c := After(ops).c;
            && c.logOffset <= c.lastApplied <= c.commitIndex <= c.LastLogIndex()
            && forall k :: 0 <= k < |c.log| ==> c.log[k].index == c.logOffset + 1 + k
  {
    CompactionInvisible(ops);
  }

  /** The last rebuild of the run, if any, did not step back. */
  ghost predicate Intact(ops: seq<Op>) {
    ops != [] ==>
      var p, op := After(ops[..|ops| - 1]), ops[|ops| - 1];
      if op.Restart? then true
      else if Installs(p.c, op) then NoStepBack(p.c, op)
      else Intact(ops[..|ops| - 1])
  }

  lemma {:induction false} DeliveredExact(ops: seq<Op>)
    requires Served(ops)
    ensures if Intact(ops) then Delivered(After(ops)) else Gap(After(ops))
  {
    if ops != [] {
      var before := ops[..|ops| - 1];
      var p, op := After(before), ops[|ops| - 1];
      CompactionInvisible(before);
      if op.Restart? {
        RestartDelivers(p);
      } else if Installs(p.c, op) {
        InstallDelivers(p, op);
      } else {
        DeliveredExact(before);
        NextDelivers(p, op);
      }
    }
  }

  /** Exactly-once, in-order application: the joined batches since the last rebuild are the
      entries of the uncompacted log from there to what has been applied, exactly when
      that rebuild did not step back; they then carry the indices one by one. */
  lemma ExactlyOnce(ops: seq<Op>)
    requires Served(ops)
    ensures var p := After(ops);
            && (Intact(ops) <==>
                  p.base <= p.c.lastApplied <= |p.u.log| && p.applied == p.u.log[p.base..p.c.lastApplied])
            && (Intact(ops) ==> forall k :: 0 <= k < |p.applied| ==> p.applied[k].index == p.base + 1 + k)
  {
    CompactionInvisible(ops);
    DeliveredExact(ops);
  }

  // ----- inputs on which the code falls short ------------------------------------------------------

  const FIRST := LogEntry(1, 1, Noop)
  const SECOND := LogEntry(1, 2, Noop)
  const BOTH := AppendRequest(1, 1, 0, 0, [FIRST, SECOND], 2)

  /** A follower that has stored and applied two entries. */
  const APPLIED := FRESH.(currentTerm := 1, leaderId := Some(1), log := [FIRST, SECOND],
                          commitIndex := 2, lastApplied := 2)

  lemma AfterOne(op: Op)
    ensures After([op]) == Next(FRESH_PAIR, op) && (Served([op]) <==> Owed(FRESH, FRESH, op))
  {
    assert [op][..0] == [];
  }

  lemma AfterMore(ops: seq<Op>, op: Op)
    ensures After(ops + [op]) == Next(After(ops), op)
    ensures Served(ops + [op]) <==> Served(ops) && Owed(After(ops).c, After(ops).u, op)
  {
    assert (ops + [op])[..|ops|] == ops;
  }

  lemma StoresBoth()
    ensures Next(FRESH_PAIR, Append(BOTH)) == Pair(APPLIED.(lastApplied := 0), APPLIED.(lastApplied := 0), 0, [])
    ensures Owed(FRESH, FRESH, Append(BOTH))
  {
    assert [] + [FIRST, SECOND] == [FIRST, SECOND];
  }

  lemma AppliesBoth()
    ensures var p := Pair(APPLIED.(lastApplied := 0), APPLIED.(lastApplied := 0), 0, []);
            Next(p, Apply) == Pair(APPLIED, APPLIED, 0, [FIRST, SECOND])
  {
    var s := APPLIED.(lastApplied := 0);
    assert Fetch(s, 2, 2) == [];
    assert Fetch(s, 1, 2) == [SECOND];
    assert Fetch(s, 0, 2) == [FIRST, SECOND];
  }

  /** The operations that lead there. */
  lemma ReachApplied() returns (ops: seq<Op>)
    ensures Served(ops) && After(ops) == Pair(APPLIED, APPLIED, 0, [FIRST, SECOND])
  {
    ops := [Append(BOTH)];
    AfterOne(Append(BOTH));
    StoresBoth();
    AfterMore(ops, Apply);
    AppliesBoth();
    ops := ops + [Apply];
  }

  /** A snapshot of the first entry arrives after both were applied: the second entry is
      never handed to the rebuilt state machine. */
  lemma StepBackInstall() returns (ops: seq<Op>)
    ensures Served(ops) && !Intact(ops) && Gap(After(ops))
  {
    ops := ReachApplied();
    var op := Install(InstallRequest(1, 1, Snapshot(1, 1, [], [])), [FIRST]);
    AfterMore(ops, op);
    assert (ops + [op])[..|ops|] == ops;
    ops := ops + [op];
    DeliveredExact(ops);
  }

  /** The node compacts both entries; a late request with the first entry is accepted and
      stored behind the offset, where the uncompacted twin keeps its own place. */
  lemma MisplacedEntry() returns (ops: seq<Op>, req: AppendRequest)
    ensures Served(ops) && req.entries != [] && !FromOffset(After(ops).c, req)
    ensures HandleAppendEntries(After(ops).c, req).1.success
    ensures !Twin(HandleAppendEntries(After(ops).c, req).0, HandleAppendEntries(After(ops).u, req).0)
  {
    ops := ReachApplied();
    AfterMore(ops, Compact(1, [], []));
    ops := ops + [Compact(1, [], [])];
    req := AppendRequest(1, 1, 0, 0, [FIRST], 2);
    CompactionInvisible(ops);
    FromOffsetExact(After(ops).c, After(ops).u, req);
  }
}
