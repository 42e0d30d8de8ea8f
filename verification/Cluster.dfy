/** The protocol as steps.  Every node runs the handlers of RaftSpec; the network
    is a set of messages from which anything may be lost, delayed, repeated or
    reordered.  The log is never compacted here (CompactedCluster lets it be).

    `elections`, `hist`, `acks` and `commits` are history: they record what
    happened and no step reads them. */
module Cluster {
  import opened Types
  import opened RaftSpec
  import opened CommitRule

  datatype Message =
    | VoteCall(vote: VoteRequest)
    | VoteReply(voter: NodeId, vote: VoteRequest, answer: VoteResponse, voterLog: seq<LogEntry>)
    | AppendCall(to: NodeId, append: AppendRequest)
    | AppendReply(follower: NodeId, append: AppendRequest, result: AppendResponse)

  /** Who won a term, with which log, and what the voters' logs were. */
  datatype Election = Election(vote: VoteRequest, log: seq<LogEntry>, voterLogs: map<NodeId, seq<LogEntry>>)

  /** `node` held the log of the leader of `term` through `upTo`, and told it so. */
  datatype Ack = Ack(node: NodeId, term: nat, upTo: nat)

  /** The leader of `term` committed through `index`, counting `holders`. */
  datatype Commit = Commit(term: nat, index: nat, holders: set<NodeId>)

  datatype Cluster = Cluster(
    nodes: map<NodeId, NodeState>,
    net: set<Message>,
    elections: map<nat, Election>,
    hist: map<nat, seq<LogEntry>>,
    acks: set<Ack>,
    commits: set<Commit>)

  datatype Event =
    | Timeout
    | AnswerVote(vote: VoteRequest)
    | Win(vote: VoteRequest, voterLogs: map<NodeId, seq<LogEntry>>)
    | StepDown(seen: Message)
    | Propose(command: Command)
    | Replicate(peer: NodeId)
    | Beat(peer: NodeId)
    | TakeAppend(append: AppendRequest)
    | TakeReply(follower: NodeId, append: AppendRequest, result: AppendResponse)

  /** A crash strikes while the handler of `event` saves its hard state: the
      first `writes` of the three writes land, and no message leaves the node.
      Committing restarts at `keeps`, which is 0 for a log without a snapshot and
      the snapshot's index for the log that a compacted one stands for. */
  datatype Step =
    | Run(node: NodeId, event: Event)
    | Crash(node: NodeId, event: Event, writes: nat, keeps: nat)

  ghost function Init(ids: set<NodeId>): Cluster {
    Cluster(Uniform(ids, FRESH), {}, map[], map[], {}, {})
  }

  // ----- steps --------------------------------------------------------------

  function SeenTerm(m: Message): nat {
    match m
    case VoteReply(_, _, answer, _) => answer.term
    case AppendReply(_, _, result) => result.term
    case _ => 0
  }

  /** A reply that makes node n step down on comparing it with the term that n
      captured when it sent the request: a vote reply or a heartbeat reply. */
  predicate IsHigherReply(m: Message, n: NodeId) {
    match m
    case VoteReply(_, vote, answer, _) => vote.candidateId == n && answer.term > vote.term
    case AppendReply(_, append, result) =>
      append.leaderId == n && append.IsHeartbeat() && result.term > append.term
    case _ => false
  }

  function Candidacy(s: NodeState, n: NodeId): VoteRequest {
    VoteRequest(s.currentTerm, n, s.LastLogIndex(), s.LastLogTerm())
  }

  /** Enough nodes granted n the vote it asked for. */
  ghost predicate HasQuorum(c: Cluster, n: NodeId, vote: VoteRequest, voterLogs: map<NodeId, seq<LogEntry>>) {
    && VoteCall(vote) in c.net && vote.candidateId == n
    && voterLogs.Keys <= c.nodes.Keys
    && |voterLogs.Keys| >= VoteQuorum(|c.nodes|)
    && forall v :: v in voterLogs ==> VoteReply(v, vote, VoteResponse(vote.term, true), voterLogs[v]) in c.net
  }

  ghost predicate Enabled(c: Cluster, n: NodeId, e: Event) {
    && n in c.nodes
    && var s := c.nodes[n];
       match e
       case Timeout => true
       case AnswerVote(vote) => VoteCall(vote) in c.net && vote.candidateId != n
       case Win(vote, voterLogs) =>
         s.role == Candidate && vote.term == s.currentTerm && HasQuorum(c, n, vote, voterLogs)
       case StepDown(seen) => seen in c.net && IsHigherReply(seen, n)
       case Propose(_) => s.role == Leader
       case Replicate(peer) =>
         s.role == Leader && peer in c.nodes && peer != n && Replication(s, n, peer).SendAppend?
       case Beat(peer) => s.role == Leader && peer in c.nodes && peer != n
       case TakeAppend(append) => AppendCall(n, append) in c.net
       // a reply to an empty request may be to a heartbeat or to a replication round
       case TakeReply(follower, append, result) =>
         AppendReply(follower, append, result) in c.net && append.leaderId == n
  }

  /** The node's state after the handler. */
  ghost function React(c: Cluster, n: NodeId, e: Event): NodeState
    requires n in c.nodes
  {
    var s := c.nodes[n];
    match e
    case Timeout => s.BecomeCandidate(n)
    case AnswerVote(vote) => HandleRequestVote(s, vote).0
    case Win(_, voterLogs) => s.(votesReceived := |voterLogs.Keys|).BecomeLeader(n, c.nodes.Keys - {n})
    case StepDown(seen) => s.BecomeFollower(SeenTerm(seen))
    case Propose(command) => s.AppendEntry(command)
    case Replicate(_) => s
    case Beat(_) => s
    case TakeAppend(append) => HandleAppendEntries(s, append).0
    case TakeReply(follower, _, result) => HandleAppendReply(s, follower, result)
  }

  /** The messages the handler sends.  The candidate's vote for itself is
      recorded as a reply, so that a quorum is a set of replies. */
  function Emit(c: Cluster, n: NodeId, e: Event): set<Message>
    requires n in c.nodes
  {
    var s := c.nodes[n];
    match e
    case Timeout =>
      var vote := Candidacy(s.BecomeCandidate(n), n);
      {VoteCall(vote), VoteReply(n, vote, VoteResponse(vote.term, true), s.log)}
    case AnswerVote(vote) => {VoteReply(n, vote, HandleRequestVote(s, vote).1, s.log)}
    case Replicate(peer) =>
      (match Replication(s, n, peer)
       case SendAppend(append) => {AppendCall(peer, append)}
       case _ => {})
    case Beat(peer) => {AppendCall(peer, Heartbeat(s, n))}
    case TakeAppend(append) => {AppendReply(n, append, HandleAppendEntries(s, append).1)}
    case _ => {}
  }

  ghost function NewElections(c: Cluster, n: NodeId, e: Event): map<nat, Election>
    requires n in c.nodes
  {
    match e
    case Win(vote, voterLogs) => c.elections[vote.term := Election(vote, c.nodes[n].log, voterLogs)]
    case _ => c.elections
  }

  /** `hist[t]` is the log of the leader of term t, as far as it has grown. */
  ghost function NewHist(c: Cluster, n: NodeId, e: Event): map<nat, seq<LogEntry>>
    requires n in c.nodes
  {
    if e.Win? || e.Propose? then c.hist[c.nodes[n].currentTerm := React(c, n, e).log] else c.hist
  }

  ghost function NewAcks(c: Cluster, n: NodeId, e: Event): set<Ack>
    requires n in c.nodes
  {
    var s := c.nodes[n];
    match e
    case Win(_, _) => c.acks + {Ack(n, s.currentTerm, |s.log|)}
    case Propose(_) => c.acks + {Ack(n, s.currentTerm, |s.log| + 1)}
    case TakeAppend(append) =>
      var (s', r) := HandleAppendEntries(s, append);
      if r.success && SharesThrough(c.hist, append.term, s'.log, r.matchIndex)
      then c.acks + {Ack(n, append.term, r.matchIndex)}
      else c.acks
    case _ => c.acks
  }

  /** The log begins with the first m entries of the leader of term t. */
  ghost predicate SharesThrough(hist: map<nat, seq<LogEntry>>, t: nat, log: seq<LogEntry>, m: nat) {
    t in hist && m <= |hist[t]| && m <= |log| && log[..m] == hist[t][..m]
  }

  ghost function NewCommits(c: Cluster, n: NodeId, e: Event): set<Commit>
    requires n in c.nodes
  {
    var s := React(c, n, e);
    if e.TakeReply? && s.commitIndex > c.nodes[n].commitIndex then
      c.commits + {Commit(s.currentTerm, s.commitIndex, Holders(s.matchIndex, s.commitIndex) + {n})}
    else c.commits
  }

  ghost function Handle(c: Cluster, n: NodeId, e: Event): Cluster
    requires n in c.nodes
  {
    Cluster(c.nodes[n := React(c, n, e)], c.net + Emit(c, n, e),
            NewElections(c, n, e), NewHist(c, n, e), NewAcks(c, n, e), NewCommits(c, n, e))
  }

  /** What a node reloads after a crash that let the first `writes` of term, vote
      and offset reach the disk.  No handler of the protocol changes the offset. */
  function Torn(before: NodeState, after: NodeState, writes: nat): NodeState {
    Restore(Persisted(
              if writes >= 1 then after.currentTerm else before.currentTerm,
              if writes >= 2 then after.votedFor else before.votedFor,
              before.logOffset, before.snapshot, before.log))
  }

  ghost function Do(c: Cluster, step: Step): Cluster
    requires step.node in c.nodes
  {
    match step
    case Run(n, e) => Handle(c, n, e)
    case Crash(n, e, writes, keeps) =>
      c.(nodes := c.nodes[n := Torn(c.nodes[n], React(c, n, e), writes).(commitIndex := keeps, lastApplied := keeps)])
  }

  // ----- what a run must observe --------------------------------------------

  /** Stepping down on a captured-term comparison neither lowers the term nor
      forgets a vote of the current term. */
  ghost predicate Monotone(c: Cluster, n: NodeId, e: Event)
    requires n in c.nodes
  {
    e.StepDown? ==>
      || SeenTerm(e.seen) > c.nodes[n].currentTerm
      || (SeenTerm(e.seen) == c.nodes[n].currentTerm && c.nodes[n].votedFor.None?)
  }

  /** The same for whole steps: of a handler cut off by a crash, as far as it got. */
  ghost predicate Steady(c: Cluster, step: Step)
    requires step.node in c.nodes
  {
    match step
    case Run(n, e) => Monotone(c, n, e)
    case Crash(n, e, writes, _) =>
      e.StepDown? && writes >= 1 ==>
        || SeenTerm(e.seen) > c.nodes[n].currentTerm
        || (SeenTerm(e.seen) == c.nodes[n].currentTerm && (writes == 1 || c.nodes[n].votedFor.None?))
  }

  /** The request stops short of an entry that follower and leader share, so
      that storing its entries would cut that entry off. */
  ghost predicate IsStale(c: Cluster, s: NodeState, req: AppendRequest) {
    && req.entries != [] && req.term in c.hist
    && req.Covers() < |s.log| && req.Covers() < |c.hist[req.term]|
    && s.log[req.Covers()].term == c.hist[req.term][req.Covers()].term
  }

  ghost predicate NotStale(c: Cluster, n: NodeId, e: Event)
    requires n in c.nodes
  {
    e.TakeAppend? && Accepts(c.nodes[n], e.append) ==> !IsStale(c, c.nodes[n], e.append)
  }

  /** Node f has held the log of the leader of term t through index i, at least. */
  ghost predicate Acked(c: Cluster, f: NodeId, t: nat, i: nat) {
    exists a :: a in c.acks && a.node == f && a.term == t && a.upTo >= i
  }

  /** The reply enters the match table. */
  ghost predicate Enters(c: Cluster, n: NodeId, e: Event)
    requires n in c.nodes
  {
    e.TakeReply? && c.nodes[n].role == Leader && e.result.success && e.result.term <= c.nodes[n].currentTerm
  }

  /** Whoever is counted has held the log of the leader that counts it through the
      index that is recorded. */
  ghost predicate Truthful(c: Cluster, n: NodeId, e: Event)
    requires n in c.nodes
  {
    Enters(c, n, e) && e.result.matchIndex > 0 ==>
      Acked(c, e.follower, c.nodes[n].currentTerm, e.result.matchIndex)
  }

  /** The same of the leader that sent the request; this does not suffice. */
  ghost predicate TruthfulThen(c: Cluster, n: NodeId, e: Event)
    requires n in c.nodes
  {
    Enters(c, n, e) && e.result.matchIndex > 0 ==> Acked(c, e.follower, e.append.term, e.result.matchIndex)
  }

  /** When the request raises the commit index, the follower's entry there has
      the term of the leader's entry there. */
  ghost predicate CommitAgrees(c: Cluster, n: NodeId, e: Event)
    requires n in c.nodes
  {
    e.TakeAppend? ==>
      var s := React(c, n, e);
      var k := s.commitIndex;
      k > c.nodes[n].commitIndex && e.append.term in c.hist ==>
        k <= |c.hist[e.append.term]| && k <= |s.log| && s.log[k - 1].term == c.hist[e.append.term][k - 1].term
  }

  /** How much of the above a run observes. */
  datatype Discipline = Unrestricted | Monotonic | Fresh | Dated | InOrder | Verified
  {
    predicate CountsTruly() { InOrder? || Verified? }
  }

  ghost predicate Observes(c: Cluster, n: NodeId, e: Event, d: Discipline)
    requires n in c.nodes
  {
    && (!d.Unrestricted? ==> Monotone(c, n, e))
    && (d.Fresh? || d.Dated? || d.CountsTruly() ==> NotStale(c, n, e))
    && (d.Dated? ==> TruthfulThen(c, n, e))
    && (d.CountsTruly() ==> Truthful(c, n, e))
    && (d.Verified? ==> CommitAgrees(c, n, e))
  }

  /** A handler cut off by a crash needs only the first condition. */
  ghost predicate Allowed(c: Cluster, step: Step, d: Discipline) {
    && Enabled(c, step.node, step.event)
    && match step
       case Run(n, e) => Observes(c, n, e, d)
       case Crash(n, _, _, keeps) => (!d.Unrestricted? ==> Steady(c, step)) && keeps <= c.nodes[n].commitIndex
  }

  // ----- runs ---------------------------------------------------------------

  ghost predicate IsNext(run: seq<Cluster>, steps: seq<Step>, d: Discipline, i: nat)
    requires i + 1 < |run| && i < |steps|
  {
    Allowed(run[i], steps[i], d) && run[i + 1] == Do(run[i], steps[i])
  }

  ghost predicate IsRun(run: seq<Cluster>, steps: seq<Step>, d: Discipline) {
    && |run| == |steps| + 1
    && (exists ids :: run[0] == Init(ids))
    && forall i: nat :: i < |steps| ==> IsNext(run, steps, d, i)
  }
}
