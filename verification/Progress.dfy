/** Commands get committed: from every state that a run can reach, any majority can elect a
    leader, have a command accepted, replicated and committed, and learn of it.  A cluster of
    one node is the exception: there nothing is ever committed. */
module Progress {
  import opened Types
  import opened RaftSpec
  import opened CommitRule
  import opened Cluster
  import opened Logs
  import opened RaftSafety
  import opened Electability
  import OrderlyRuns

  // ----- one leader, one follower --------------------------------------------------------------------

  /** A leader whose last entry is of its own term. */
  ghost predicate HasNew(s: NodeState) {
    && s.role == Leader && Plain(s) && s.log != [] && s.log[|s.log| - 1].term == s.currentTerm
    && forall p :: p in s.matchIndex ==> s.matchIndex[p] <= |s.log|
  }

  /** There are entries to send to f. */
  ghost predicate Owes(s: NodeState, f: NodeId) {
    f in s.nextIndex && 1 <= s.nextIndex[f] <= |s.log|
  }

  /** The entries from the next index on are sent to the end; a follower that has not seen a
      later term answers in the leader's term, and accepts if nothing precedes them. */
  lemma Probed(s: NodeState, b: NodeId, f: NodeId, t: NodeState)
    requires HasNew(s) && Owes(s, f) && Plain(t) && t.currentTerm <= s.currentTerm
    ensures Replication(s, b, f).SendAppend?
    ensures var req := Replication(s, b, f).append;
            var (t', r) := HandleAppendEntries(t, req);
            && req.entries == s.log[s.nextIndex[f] - 1..] && req.term == s.currentTerm
            && t'.currentTerm == r.term == s.currentTerm
            && (s.nextIndex[f] == 1 ==> r.success)
  {
  }

  /** Everything a quorum is known to hold is committed. */
  ghost predicate Current(s: NodeState) {
    HeldBy(s.matchIndex, |s.log|, |s.log|) >= CommitQuorum(|s.matchIndex| + 1) ==> s.commitIndex >= |s.log|
  }

  lemma LastIsPoint(matches: map<NodeId, nat>, last: nat)
    requires forall p :: p in matches ==> matches[p] <= last
    requires HeldBy(matches, last, last) >= CommitQuorum(|matches| + 1)
    ensures CommitPoint(matches, last) == last
  {
    forall j: nat | j > last ensures HeldBy(matches, last, j) < CommitQuorum(|matches| + 1) {
      assert Holders(matches, j) == {};
    }
    CommitPointUnique(matches, last, last);
  }

  /** What the leader makes of an answer. */
  lemma Answered(s: NodeState, f: NodeId, r: AppendResponse)
    requires HasNew(s) && Owes(s, f) && r.term <= s.currentTerm && f in s.matchIndex
    requires r.success ==> r.matchIndex == |s.log|
    requires !r.success ==> s.nextIndex[f] > 1
    ensures var s' := HandleAppendReply(s, f, r);
            && s'.role == Leader && s'.currentTerm == s.currentTerm && s'.log == s.log && HasNew(s')
            && s'.matchIndex == (if r.success then s.matchIndex[f := |s.log|] else s.matchIndex)
            && s'.nextIndex == s.nextIndex[f := if r.success then |s.log| + 1 else s.nextIndex[f] - 1]
            && (r.success ==> Current(s')) && (!r.success ==> s'.commitIndex == s.commitIndex)
  {
    if r.success {
      var s1 := RecordMatch(s, f, |s.log|);
      if HeldBy(s1.matchIndex, |s.log|, |s.log|) >= CommitQuorum(|s1.matchIndex| + 1) {
        LastIsPoint(s1.matchIndex, |s.log|);
      }
    }
  }

  // ----- one round -----------------------------------------------------------------------------------

  /** b leads the term with this log, which ends in an entry of the term. */
  ghost predicate Serves(c: Cluster, b: NodeId, term: nat, log: Log) {
    && b in c.nodes && c.nodes[b].currentTerm == term && c.nodes[b].log == log && HasNew(c.nodes[b])
    && c.nodes[b].matchIndex.Keys == c.nodes.Keys - {b}
  }

  ghost predicate Waits(c: Cluster, b: NodeId, f: NodeId) {
    && f in c.nodes && b in c.nodes && f != b && c.nodes[f].currentTerm <= c.nodes[b].currentTerm
    && Owes(c.nodes[b], f)
  }

  ghost predicate Fed(c: Cluster, b: NodeId, f: NodeId) {
    && f in c.nodes && b in c.nodes && f != b && c.nodes[f].currentTerm <= c.nodes[b].currentTerm
    && c.nodes[f].log == c.nodes[b].log
    && f in c.nodes[b].matchIndex && c.nodes[b].matchIndex[f] == |c.nodes[b].log|
  }

  lemma TakeAgrees(c: Cluster, l: NodeId, f: NodeId, req: AppendRequest)
    requires LogInv(c) && l in c.nodes && f in c.nodes && c.nodes[l].role == Leader
    requires Replication(c.nodes[l], l, f) == SendAppend(req) && req.entries != []
    ensures var c1 := Handle(c, l, Replicate(f)); f in c1.nodes && CommitAgrees(c1, f, TakeAppend(req))
  {
    Sent(c, l, f, req);
    StoredIsSent(c, c, l, f, req);
    RequestReachesEnd(c, l, f);
    RaiseWithinLog(c.nodes[f], req);
  }

  /** What suffices for any discipline. */
  lemma ObservesAll(c: Cluster, n: NodeId, e: Event, d: Discipline)
    requires n in c.nodes && Observes(c, n, e, InOrder) && TruthfulThen(c, n, e) && CommitAgrees(c, n, e)
    ensures Observes(c, n, e, d)
  {
  }

  /** Where a round leads. */
  ghost function After(c: Cluster, l: NodeId, f: NodeId, req: AppendRequest): Cluster
    requires l in c.nodes && f in c.nodes
  {
    Handle(OrderlyRuns.Handled(c, l, f, req), l, OrderlyRuns.Reply(c, f, req))
  }

  lemma ThreeSteps(c: Cluster, s1: Step, c1: Cluster, s2: Step, c2: Cluster, s3: Step, c3: Cluster, d: Discipline)
    requires Goes(c, s1, d, c1) && Goes(c1, s2, d, c2) && Goes(c2, s3, d, c3)
    ensures LeadsTo(c, [s1, s2, s3], d, c3)
  {
    LeadsOnce(c, s1, d, c1);
    LeadsOnce(c1, s2, d, c2);
    LeadsOnce(c2, s3, d, c3);
    LeadsJoin(c, [s1], d, c1, [s2], c2);
    LeadsJoin(c, [s1] + [s2], d, c2, [s3], c3);
    assert [s1] + [s2] + [s3] == [s1, s2, s3];
  }

  lemma RoundLeads(c: Cluster, l: NodeId, f: NodeId, req: AppendRequest, d: Discipline)
    requires LogInv(c) && l in c.nodes && f in c.nodes && l != f && c.nodes[l].role == Leader
    requires Replication(c.nodes[l], l, f) == SendAppend(req) && req.entries != []
    ensures LeadsTo(c, [Run(l, Replicate(f)), Run(f, TakeAppend(req)), Run(l, OrderlyRuns.Reply(c, f, req))], d,
                    After(c, l, f, req))
  {
    var c1, c2 := Handle(c, l, Replicate(f)), OrderlyRuns.Handled(c, l, f, req);
    var reply := OrderlyRuns.Reply(c, f, req);
    StoredIsSent(c, c, l, f, req);
    ExchangeInOrder(c, l, f, req);
    OrderlyRuns.HandledNodes(c, l, f, req);
    assert Goes(c, Run(l, Replicate(f)), d, c1) by { ObservesAll(c, l, Replicate(f), d); }
    assert Goes(c1, Run(f, TakeAppend(req)), d, c2) by {
      TakeAgrees(c, l, f, req);
      ObservesAll(c1, f, TakeAppend(req), d);
    }
    assert Goes(c2, Run(l, reply), d, After(c, l, f, req)) by {
      assert req.term == c2.nodes[l].currentTerm;
      ObservesAll(c2, l, reply, d);
    }
    ThreeSteps(c, Run(l, Replicate(f)), c1, Run(f, TakeAppend(req)), c2, Run(l, reply), After(c, l, f, req), d);
  }

  /** The invariant goes along. */
  lemma {:induction false} LeadsSafe(c: Cluster, steps: seq<Step>, d: Discipline, c': Cluster)
    requires Safe(c, d) && !d.Unrestricted? && LeadsTo(c, steps, d, c')
    ensures Safe(c', d)
    decreases |steps|
  {
    if steps != [] {
      var m := FirstStep(c, steps, d, c');
      assert Safe(m, d) by {
        assert Asked(0);
        InvStep(c, steps[0], d);
      }
      LeadsSafe(m, steps[1..], d, c');
    }
  }

  lemma AfterNodes(c: Cluster, l: NodeId, f: NodeId, req: AppendRequest)
    requires OrderlyRuns.CanSend(c, l, f, req)
    ensures var (t, r) := HandleAppendEntries(c.nodes[f], req);
            After(c, l, f, req).nodes == c.nodes[f := t][l := HandleAppendReply(c.nodes[l], f, r)]
  {
    OrderlyRuns.HandledNodes(c, l, f, req);
  }

  /** Only b and f take part. */
  ghost predicate Between(c: Cluster, b: NodeId, f: NodeId, c': Cluster) {
    c'.nodes.Keys == c.nodes.Keys && forall k :: k in c.nodes && k != b && k != f ==> c'.nodes[k] == c.nodes[k]
  }

  /** Of the leader's tables, only f's entries change. */
  ghost predicate TablesBut(s: NodeState, f: NodeId, s': NodeState) {
    && s'.nextIndex.Keys == s.nextIndex.Keys && s'.matchIndex.Keys == s.matchIndex.Keys
    && (forall k :: k in s.nextIndex && k != f ==> s'.nextIndex[k] == s.nextIndex[k])
    && (forall k :: k in s.matchIndex && k != f ==> s'.matchIndex[k] == s.matchIndex[k])
  }

  /** f has all, or the next index is one closer to the start. */
  ghost predicate Closer(c: Cluster, b: NodeId, f: NodeId, c': Cluster) {
    || (Fed(c', b, f) && b in c'.nodes && Current(c'.nodes[b]))
    || (Waits(c, b, f) && Waits(c', b, f) && c'.nodes[b].nextIndex[f] < c.nodes[b].nextIndex[f])
  }

  lemma RoundOutcome(c: Cluster, b: NodeId, f: NodeId, term: nat, log: Log, t: NodeState, r: AppendResponse,
                     c': Cluster)
    requires Serves(c, b, term, log) && Waits(c, b, f)
    requires c'.nodes == c.nodes[f := t][b := HandleAppendReply(c.nodes[b], f, r)]
    requires t.currentTerm == r.term == term && (c.nodes[b].nextIndex[f] == 1 ==> r.success)
    requires r.success ==> t.log == log && r.matchIndex == |log|
    ensures Between(c, b, f, c') && Serves(c', b, term, log)
    ensures TablesBut(c.nodes[b], f, c'.nodes[b]) && Closer(c, b, f, c')
  {
    Answered(c.nodes[b], f, r);
  }

  lemma Sends(c: Cluster, b: NodeId, f: NodeId, term: nat, log: Log, d: Discipline) returns (req: AppendRequest)
    requires Safe(c, d) && !d.Unrestricted? && Serves(c, b, term, log) && Waits(c, b, f)
    ensures LeadsTo(c, [Run(b, Replicate(f)), Run(f, TakeAppend(req)), Run(b, OrderlyRuns.Reply(c, f, req))], d,
                    After(c, b, f, req))
    ensures var (t, r) := HandleAppendEntries(c.nodes[f], req);
            && After(c, b, f, req).nodes == c.nodes[f := t][b := HandleAppendReply(c.nodes[b], f, r)]
            && t.currentTerm == r.term == term && (c.nodes[b].nextIndex[f] == 1 ==> r.success)
            && (r.success ==> t.log == log && r.matchIndex == |log|)
  {
    assert LogInv(c) by { assert Asked(0); }
    assert GoodLog(c.hist, c.nodes[f]);
    Probed(c.nodes[b], b, f, c.nodes[f]);
    req := Replication(c.nodes[b], b, f).append;
    StoredIsSent(c, c, b, f, req);
    RoundLeads(c, b, f, req, d);
    AfterNodes(c, b, f, req);
  }

  /** One round feeds f, or brings the next index one closer to the start. */
  lemma Round(c: Cluster, b: NodeId, f: NodeId, term: nat, log: Log, d: Discipline)
    returns (steps: seq<Step>, c': Cluster)
    requires Safe(c, d) && !d.Unrestricted? && Serves(c, b, term, log) && Waits(c, b, f)
    ensures LeadsTo(c, steps, d, c') && Between(c, b, f, c') && Serves(c', b, term, log)
    ensures TablesBut(c.nodes[b], f, c'.nodes[b]) && Closer(c, b, f, c')
  {
    var req := Sends(c, b, f, term, log, d);
    steps := [Run(b, Replicate(f)), Run(f, TakeAppend(req)), Run(b, OrderlyRuns.Reply(c, f, req))];
    c' := After(c, b, f, req);
    var (t, r) := HandleAppendEntries(c.nodes[f], req);
    RoundOutcome(c, b, f, term, log, t, r, c');
  }

  // ----- rounds until all are fed --------------------------------------------------------------------

  lemma {:induction false} Feed(c: Cluster, b: NodeId, f: NodeId, term: nat, log: Log, d: Discipline)
    returns (steps: seq<Step>, c': Cluster)
    requires Safe(c, d) && !d.Unrestricted? && Serves(c, b, term, log) && Waits(c, b, f)
    ensures LeadsTo(c, steps, d, c') && Between(c, b, f, c') && Serves(c', b, term, log)
    ensures TablesBut(c.nodes[b], f, c'.nodes[b]) && Fed(c', b, f) && Current(c'.nodes[b])
    decreases c.nodes[b].nextIndex[f]
  {
    steps, c' := Round(c, b, f, term, log, d);
    if !(Fed(c', b, f) && Current(c'.nodes[b])) {
      LeadsSafe(c, steps, d, c');
      var more, c2 := Feed(c', b, f, term, log, d);
      LeadsJoin(c, steps, d, c', more, c2);
      steps, c' := steps + more, c2;
    }
  }

  /** Of b's peers, `done` have been fed and `rest` wait; closed until asked for. */
  ghost predicate Feeding(c: Cluster, b: NodeId, term: nat, log: Log, rest: set<NodeId>, done: set<NodeId>) {
    forall k: nat :: Asked(k) ==>
      && Serves(c, b, term, log) && rest !! done && (done != {} ==> Current(c.nodes[b]))
      && (forall f :: f in rest ==> Waits(c, b, f))
      && (forall f :: f in done ==> Fed(c, b, f))
  }

  lemma FedAlso(c: Cluster, b: NodeId, term: nat, log: Log, rest: set<NodeId>, done: set<NodeId>,
                f: NodeId, c': Cluster)
    requires Feeding(c, b, term, log, rest, done) && f in rest && Serves(c', b, term, log) && Between(c, b, f, c')
    requires b in c.nodes && TablesBut(c.nodes[b], f, c'.nodes[b]) && Fed(c', b, f) && Current(c'.nodes[b])
    ensures Feeding(c', b, term, log, rest - {f}, done + {f})
  {
    assert Asked(0);
  }

  lemma FeedOne(c: Cluster, b: NodeId, term: nat, log: Log, rest: set<NodeId>, done: set<NodeId>,
                f: NodeId, d: Discipline)
    returns (steps: seq<Step>, c': Cluster)
    requires Safe(c, d) && !d.Unrestricted? && Feeding(c, b, term, log, rest, done) && f in rest
    ensures LeadsTo(c, steps, d, c') && c'.nodes.Keys == c.nodes.Keys
    ensures Feeding(c', b, term, log, rest - {f}, done + {f})
  {
    assert Serves(c, b, term, log) && Waits(c, b, f) by { assert Asked(0); }
    steps, c' := Feed(c, b, f, term, log, d);
    FedAlso(c, b, term, log, rest, done, f, c');
  }

  lemma {:induction false} FeedAll(c: Cluster, b: NodeId, term: nat, log: Log, rest: set<NodeId>, done: set<NodeId>,
                                   d: Discipline)
    returns (steps: seq<Step>, c': Cluster)
    requires Safe(c, d) && !d.Unrestricted? && Feeding(c, b, term, log, rest, done)
    ensures LeadsTo(c, steps, d, c') && Feeding(c', b, term, log, {}, rest + done) && c'.nodes.Keys == c.nodes.Keys
    decreases rest
  {
    if rest == {} {
      steps, c' := [], c;
      assert rest + done == done;
    } else {
      var f :| f in rest;
      var s1, c1 := FeedOne(c, b, term, log, rest, done, f, d);
      LeadsSafe(c, s1, d, c1);
      var s2, c2 := FeedAll(c1, b, term, log, rest - {f}, done + {f}, d);
      LeadsJoin(c, s1, d, c1, s2, c2);
      assert rest - {f} + (done + {f}) == rest + done;
      steps, c' := s1 + s2, c2;
    }
  }

  // ----- spreading the word --------------------------------------------------------------------------

  /** f holds the leader's log and knows all of it to be committed. */
  ghost predicate Told(c: Cluster, b: NodeId, f: NodeId) {
    && f in c.nodes && b in c.nodes && c.nodes[f].log == c.nodes[b].log
    && c.nodes[f].commitIndex >= |c.nodes[b].log|
  }

  /** The heartbeat raises the commit index over the sender's entries only. */
  lemma BeatAgrees(c: Cluster, b: NodeId, f: NodeId)
    requires LogInv(c) && b in c.nodes && HasNew(c.nodes[b]) && Fed(c, b, f)
    ensures var beat, c1 := Heartbeat(c.nodes[b], b), Handle(c, b, Beat(f));
            && c1.nodes == c.nodes && AppendCall(f, beat) in c1.net && f in c1.nodes
            && NotStale(c1, f, TakeAppend(beat)) && CommitAgrees(c1, f, TakeAppend(beat))
  {
    assert GoodLog(c.hist, c.nodes[b]) && GoodLog(c.hist, c.nodes[f]);
    RaiseWithinLog(c.nodes[f], Heartbeat(c.nodes[b], b));
  }

  lemma BeatLeads(c: Cluster, b: NodeId, f: NodeId, d: Discipline)
    requires LogInv(c) && b in c.nodes && HasNew(c.nodes[b]) && Fed(c, b, f)
    ensures var beat, c1 := Heartbeat(c.nodes[b], b), Handle(c, b, Beat(f));
            && f in c1.nodes && c1.nodes == c.nodes
            && LeadsTo(c, [Run(b, Beat(f)), Run(f, TakeAppend(beat))], d, Handle(c1, f, TakeAppend(beat)))
  {
    var beat, c1 := Heartbeat(c.nodes[b], b), Handle(c, b, Beat(f));
    var c2 := Handle(c1, f, TakeAppend(beat));
    BeatAgrees(c, b, f);
    assert Goes(c, Run(b, Beat(f)), d, c1);
    assert Goes(c1, Run(f, TakeAppend(beat)), d, c2);
    LeadsOnce(c, Run(b, Beat(f)), d, c1);
    LeadsOnce(c1, Run(f, TakeAppend(beat)), d, c2);
    LeadsJoin(c, [Run(b, Beat(f))], d, c1, [Run(f, TakeAppend(beat))], c2);
    assert [Run(b, Beat(f))] + [Run(f, TakeAppend(beat))] == [Run(b, Beat(f)), Run(f, TakeAppend(beat))];
  }

  /** A heartbeat tells a follower that holds the leader's log what is committed. */
  lemma BeatTells(s: NodeState, b: NodeId, t: NodeState)
    requires Plain(t) && t.log == s.log && t.currentTerm <= s.currentTerm && s.commitIndex >= |s.log|
    ensures var t' := HandleAppendEntries(t, Heartbeat(s, b)).0;
            t'.log == t.log && t'.commitIndex >= |s.log|
  {
  }

  lemma Tell(c: Cluster, b: NodeId, f: NodeId, d: Discipline) returns (steps: seq<Step>, c': Cluster)
    requires Safe(c, d) && b in c.nodes && HasNew(c.nodes[b]) && Fed(c, b, f)
    requires c.nodes[b].commitIndex >= |c.nodes[b].log|
    ensures LeadsTo(c, steps, d, c') && c'.nodes.Keys == c.nodes.Keys && Told(c', b, f)
    ensures forall k :: k in c.nodes && k != f ==> c'.nodes[k] == c.nodes[k]
  {
    assert LogInv(c) by { assert Asked(0); }
    assert Plain(c.nodes[f]) by { assert GoodLog(c.hist, c.nodes[f]); }
    BeatLeads(c, b, f, d);
    BeatTells(c.nodes[b], b, c.nodes[f]);
    var beat, c1 := Heartbeat(c.nodes[b], b), Handle(c, b, Beat(f));
    steps, c' := [Run(b, Beat(f)), Run(f, TakeAppend(beat))], Handle(c1, f, TakeAppend(beat));
  }

  /** Of b's peers, `done` have been told and `rest` not yet; closed until asked for. */
  ghost predicate Telling(c: Cluster, b: NodeId, term: nat, log: Log, rest: set<NodeId>, done: set<NodeId>) {
    forall k: nat :: Asked(k) ==>
      && Serves(c, b, term, log) && c.nodes[b].commitIndex >= |log| && rest !! done
      && (forall f :: f in rest ==> Fed(c, b, f))
      && (forall f :: f in done ==> f != b && Told(c, b, f))
  }

  lemma ToldAlso(c: Cluster, b: NodeId, term: nat, log: Log, rest: set<NodeId>, done: set<NodeId>,
                 f: NodeId, c': Cluster)
    requires Telling(c, b, term, log, rest, done) && f in rest && f != b && Told(c', b, f)
    requires c'.nodes.Keys == c.nodes.Keys && forall k :: k in c.nodes && k != f ==> c'.nodes[k] == c.nodes[k]
    ensures Telling(c', b, term, log, rest - {f}, done + {f})
  {
    assert Asked(0);
  }

  lemma TellOne(c: Cluster, b: NodeId, term: nat, log: Log, rest: set<NodeId>, done: set<NodeId>,
                f: NodeId, d: Discipline)
    returns (steps: seq<Step>, c': Cluster)
    requires Safe(c, d) && Telling(c, b, term, log, rest, done) && f in rest
    ensures LeadsTo(c, steps, d, c') && c'.nodes.Keys == c.nodes.Keys
    ensures Telling(c', b, term, log, rest - {f}, done + {f})
  {
    assert Serves(c, b, term, log) && c.nodes[b].commitIndex >= |log| && Fed(c, b, f) by { assert Asked(0); }
    steps, c' := Tell(c, b, f, d);
    ToldAlso(c, b, term, log, rest, done, f, c');
  }

  lemma {:induction false} TellAll(c: Cluster, b: NodeId, term: nat, log: Log, rest: set<NodeId>, done: set<NodeId>,
                                   d: Discipline)
    returns (steps: seq<Step>, c': Cluster)
    requires Safe(c, d) && !d.Unrestricted? && Telling(c, b, term, log, rest, done)
    ensures LeadsTo(c, steps, d, c') && Telling(c', b, term, log, {}, rest + done) && c'.nodes.Keys == c.nodes.Keys
    decreases rest
  {
    if rest == {} {
      steps, c' := [], c;
      assert rest + done == done;
    } else {
      var f :| f in rest;
      var s1, c1 := TellOne(c, b, term, log, rest, done, f, d);
      LeadsSafe(c, s1, d, c1);
      var s2, c2 := TellAll(c1, b, term, log, rest - {f}, done + {f}, d);
      LeadsJoin(c, s1, d, c1, s2, c2);
      assert rest - {f} + (done + {f}) == rest + done;
      steps, c' := s1 + s2, c2;
    }
  }

  // ----- from an election to a commit ----------------------------------------------------------------

  lemma QuorumHolds(s: NodeState, b: NodeId, nodes: set<NodeId>, group: set<NodeId>)
    requires b in group && group <= nodes && 2 * |group| > |nodes| && s.matchIndex.Keys == nodes - {b}
    requires forall f :: f in group - {b} ==> s.matchIndex[f] == |s.log|
    ensures HeldBy(s.matchIndex, |s.log|, |s.log|) >= CommitQuorum(|s.matchIndex| + 1)
  {
    SubsetSize(group - {b}, Holders(s.matchIndex, |s.log|));
    assert |s.matchIndex| == |s.matchIndex.Keys| == |nodes| - 1;
    assert |group - {b}| == |group| - 1;
  }

  /** b's log with the command at its end. */
  function Extended(s: NodeState, term: nat, command: Command): Log {
    s.log + [LogEntry(term, |s.log| + 1, command)]
  }

  lemma ProposalServes(c: Cluster, b: NodeId, group: set<NodeId>, command: Command)
    requires LogInv(c) && Seated(c, b) && b in group && group <= c.nodes.Keys
    requires forall v :: v in group ==> c.nodes[v].currentTerm <= c.nodes[b].currentTerm
    ensures var c', s := Handle(c, b, Propose(command)), c.nodes[b];
            && c'.nodes == c.nodes[b := s.AppendEntry(command)]
            && Feeding(c', b, s.currentTerm, Extended(s, s.currentTerm, command), group - {b}, {})
  {
    assert GoodLog(c.hist, c.nodes[b]);
  }

  lemma Proposes(c: Cluster, b: NodeId, group: set<NodeId>, command: Command, d: Discipline) returns (c': Cluster)
    requires Safe(c, d) && Seated(c, b) && b in group && group <= c.nodes.Keys
    requires forall v :: v in group ==> c.nodes[v].currentTerm <= c.nodes[b].currentTerm
    ensures LeadsTo(c, [Run(b, Propose(command))], d, c') && c'.nodes.Keys == c.nodes.Keys && |c'.nodes| == |c.nodes|
    ensures var s := c.nodes[b];
            Feeding(c', b, s.currentTerm, Extended(s, s.currentTerm, command), group - {b}, {})
  {
    assert LogInv(c) by { assert Asked(0); }
    ProposalServes(c, b, group, command);
    Proceed(c, d, b, Propose(command));
    c' := Handle(c, b, Propose(command));
    assert |c'.nodes| == |c'.nodes.Keys| == |c.nodes.Keys| == |c.nodes|;
  }

  lemma FedCommits(c: Cluster, b: NodeId, term: nat, log: Log, group: set<NodeId>)
    requires Feeding(c, b, term, log, {}, group - {b}) && b in group && group <= c.nodes.Keys
    requires 2 * |group| > |c.nodes| > 1
    ensures Telling(c, b, term, log, group - {b}, {})
  {
    assert Asked(0);
    assert |group - {b}| == |group| - 1;
    QuorumHolds(c.nodes[b], b, c.nodes.Keys, group);
  }

  /** Every member of the group has this log, and knows it to be committed. */
  ghost predicate AllCommitted(c: Cluster, b: NodeId, term: nat, log: Log, group: set<NodeId>) {
    && b in group && group <= c.nodes.Keys && c.nodes[b].role == Leader && c.nodes[b].currentTerm == term
    && forall v :: v in group ==> c.nodes[v].log == log && c.nodes[v].commitIndex >= |log|
  }

  lemma ToldAll(c: Cluster, b: NodeId, term: nat, log: Log, group: set<NodeId>)
    requires Telling(c, b, term, log, {}, group - {b}) && b in group && group <= c.nodes.Keys
    ensures AllCommitted(c, b, term, log, group)
  {
    assert Asked(0);
    forall v | v in group ensures c.nodes[v].log == log && c.nodes[v].commitIndex >= |log| {
      assert v != b ==> v in group - {b} && Told(c, b, v);
    }
  }

  lemma CommitsFed(c: Cluster, b: NodeId, term: nat, log: Log, group: set<NodeId>, d: Discipline)
    returns (steps: seq<Step>, c': Cluster)
    requires Safe(c, d) && !d.Unrestricted? && Feeding(c, b, term, log, group - {b}, {})
    requires b in group && group <= c.nodes.Keys && 2 * |group| > |c.nodes| > 1
    ensures LeadsTo(c, steps, d, c') && AllCommitted(c', b, term, log, group)
  {
    var rest := group - {b};
    assert rest + {} == rest;
    var s1, c1 := FeedAll(c, b, term, log, rest, {}, d);
    assert |c1.nodes| == |c1.nodes.Keys| == |c.nodes.Keys| == |c.nodes|;
    FedCommits(c1, b, term, log, group);
    LeadsSafe(c, s1, d, c1);
    var s2, c2 := TellAll(c1, b, term, log, rest, {}, d);
    ToldAll(c2, b, term, log, group);
    LeadsJoin(c, s1, d, c1, s2, c2);
    steps, c' := s1 + s2, c2;
  }

  /** Once b leads, the group commits what b proposes. */
  lemma Commits(c: Cluster, b: NodeId, group: set<NodeId>, command: Command, d: Discipline)
    returns (steps: seq<Step>, c': Cluster)
    requires Safe(c, d) && !d.Unrestricted? && Seated(c, b) && b in group && group <= c.nodes.Keys
    requires 2 * |group| > |c.nodes| > 1
    requires forall v :: v in group ==> c.nodes[v].currentTerm <= c.nodes[b].currentTerm
    ensures LeadsTo(c, steps, d, c')
    ensures AllCommitted(c', b, c.nodes[b].currentTerm, Extended(c.nodes[b], c.nodes[b].currentTerm, command), group)
  {
    var c1 := Proposes(c, b, group, command, d);
    var term := c.nodes[b].currentTerm;
    var log := Extended(c.nodes[b], term, command);
    LeadsSafe(c, [Run(b, Propose(command))], d, c1);
    var s2, c2 := CommitsFed(c1, b, term, log, group, d);
    LeadsJoin(c, [Run(b, Propose(command))], d, c1, s2, c2);
    steps, c' := [Run(b, Propose(command))] + s2, c2;
  }

  /** From a safe state. */
  lemma CommitsSoon(c: Cluster, group: set<NodeId>, command: Command, d: Discipline)
    returns (steps: seq<Step>, c': Cluster, b: NodeId, term: nat)
    requires Safe(c, d) && !d.Unrestricted? && group <= c.nodes.Keys && 2 * |group| > |c.nodes| > 1
    ensures LeadsTo(c, steps, d, c') && b in group
    ensures AllCommitted(c', b, term, Extended(c.nodes[b], term, command), group)
    ensures forall v :: v in group ==> c.nodes[v].currentTerm < term
  {
    var s1, c1;
    s1, c1, b := Electable(c, group, d);
    term := c1.nodes[b].currentTerm;
    LeadsSafe(c, s1, d, c1);
    assert |c1.nodes| == |c1.nodes.Keys| == |c.nodes.Keys| == |c.nodes|;
    var s2, c2 := Commits(c1, b, group, command, d);
    LeadsJoin(c, s1, d, c1, s2, c2);
    steps, c' := s1 + s2, c2;
  }

  /** Whatever a run has done, and whatever it has to observe, in a cluster of more than one node
      any majority can go on to commit any command: one of its members leads, in a new term, and
      all of them hold and know committed that member's log with the command at its end. */
  lemma Committable(run: seq<Cluster>, steps: seq<Step>, d: Discipline, group: set<NodeId>, command: Command)
    returns (run': seq<Cluster>, steps': seq<Step>, b: NodeId, term: nat)
    requires IsRun(run, steps, d) && !d.Unrestricted?
    requires group <= run[|run| - 1].nodes.Keys && 2 * |group| > |run[|run| - 1].nodes| > 1
    ensures IsRun(run', steps', d) && run <= run' && steps <= steps' && b in group
    ensures AllCommitted(run'[|run'| - 1], b, term, Extended(run[|run| - 1].nodes[b], term, command), group)
    ensures forall v :: v in group ==> run[|run| - 1].nodes[v].currentTerm < term
  {
    var more, c';
    SafeRun(run, steps, d, |run| - 1);
    more, c', b, term := CommitsSoon(run[|run| - 1], group, command, d);
    run' := RunOn(run, steps, d, more, c');
    steps' := steps + more;
    assert IsRun(run', steps', d) by { assert Asked(0); }
  }

  // ----- a cluster of one ----------------------------------------------------------------------------

  /** n is alone, nobody has asked it to store anything, and nothing is committed. */
  ghost predicate Alone(c: Cluster, n: NodeId) {
    && c.nodes.Keys == {n} && c.nodes[n].commitIndex == 0
    && forall m :: m in c.net ==> !m.AppendCall? && !m.AppendReply?
  }

  lemma AloneStep(c: Cluster, n: NodeId, step: Step, d: Discipline)
    requires Alone(c, n) && Allowed(c, step, d)
    ensures Alone(Do(c, step), n)
  {
  }

  /** A cluster of one node elects its leader and takes commands, and commits none of them. */
  lemma {:induction false} LoneNodeNeverCommits(run: seq<Cluster>, steps: seq<Step>, d: Discipline, n: NodeId, i: nat)
    requires IsRun(run, steps, d) && run[0].nodes.Keys == {n} && i < |run|
    ensures Alone(run[i], n)
    decreases i
  {
    if i == 0 {
      var ids :| run[0] == Init(ids);
    } else {
      LoneNodeNeverCommits(run, steps, d, n, i - 1);
      assert IsNext(run, steps, d, i - 1);
      AloneStep(run[i - 1], n, steps[i - 1], d);
    }
  }
}
