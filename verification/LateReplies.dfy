/** A reply that was true of the leader that asked, counted by the same node when it leads
    a later term: the count is wrong although no request was stale and no reply lied. */
module LateReplies {
  import opened Types
  import opened RaftSpec
  import opened CommitRule
  import opened Cluster
  import opened Logs
  import opened Necessity
  import Acknowledgements
  import Elections
  import RaftSafety

  const ALL: set<NodeId> := {1, 2, 3, 4, 5}
  const A1 := LogEntry(1, 1, Noop)
  const A2 := LogEntry(1, 2, Noop)
  const B := LogEntry(2, 1, Noop)
  const C := LogEntry(3, 2, Noop)

  /** An uncompacted node that has committed nothing. */
  ghost predicate Node(s: NodeState, role: Role, term: nat, log: Log) {
    && s.role == role && s.currentTerm == term && s.log == log
    && s.logOffset == 0 && s.snapshot.None? && s.commitIndex == 0
  }

  /** A node without a log, at most in the given term. */
  ghost predicate Idle(s: NodeState, term: nat) {
    s.currentTerm <= term && s.log == [] && s.logOffset == 0 && s.snapshot.None?
  }

  ghost predicate Grew(c: Cluster, c': Cluster) {
    c.net <= c'.net && c.acks <= c'.acks
  }

  // ----- elections ---------------------------------------------------------------------------------

  lemma IdleGrants(s: NodeState, vote: VoteRequest)
    requires vote.term > 0 && Idle(s, vote.term - 1)
    ensures HandleRequestVote(s, vote).1 == VoteResponse(vote.term, true)
    ensures Idle(HandleRequestVote(s, vote).0, vote.term)
  {
  }

  lemma QuorumOfFive(c: Cluster, n: NodeId, vote: VoteRequest, voterLogs: map<NodeId, Log>)
    requires c.nodes.Keys == ALL && n in c.nodes && n != 4 && n != 5
    requires voterLogs == map[n := c.nodes[n].log, 4 := [], 5 := []] && vote.candidateId == n && VoteCall(vote) in c.net
    requires VoteReply(n, vote, VoteResponse(vote.term, true), c.nodes[n].log) in c.net
    requires VoteReply(4, vote, VoteResponse(vote.term, true), []) in c.net
    requires VoteReply(5, vote, VoteResponse(vote.term, true), []) in c.net
    ensures HasQuorum(c, n, vote, voterLogs) && |voterLogs.Keys| == 3
  {
    SizeOfFive();
    assert |c.nodes| == |c.nodes.Keys|;
    assert voterLogs.Keys == {n, 4, 5};
    assert |{n, 4, 5}| == 3;
    forall v | v in voterLogs ensures VoteReply(v, vote, VoteResponse(vote.term, true), voterLogs[v]) in c.net {
      assert v == n || v == 4 || v == 5;
    }
  }

  lemma SizeOfFive()
    ensures |ALL| == 5
  {
    assert ALL == {1, 2, 3} + {4, 5};
  }

  /** Node n is a candidate and has asked everybody for their votes. */
  ghost predicate Asks(c: Cluster, n: NodeId, vote: VoteRequest) {
    && c.nodes.Keys == ALL && n in c.nodes && n != 4 && n != 5
    && c.nodes[n].role == Candidate && c.nodes[n].currentTerm == vote.term && vote.candidateId == n
    && VoteCall(vote) in c.net && VoteReply(n, vote, VoteResponse(vote.term, true), c.nodes[n].log) in c.net
  }

  /** Nodes 4 and 5 vote for node n, which wins. */
  lemma Elects(run: seq<Cluster>, steps: seq<Step>, d: Discipline, n: NodeId, vote: VoteRequest)
    returns (run': seq<Cluster>, steps': seq<Step>)
    requires Grown(run, steps, d) && Asks(run[|run| - 1], n, vote) && vote.term > 0
    requires Idle(run[|run| - 1].nodes[4], vote.term - 1) && Idle(run[|run| - 1].nodes[5], vote.term - 1)
    ensures Grown(run', steps', d)
    ensures var c, c' := run[|run| - 1], run'[|run'| - 1];
            && Grew(c, c') && c'.nodes.Keys == ALL
            && (forall p :: p in ALL && p != n && p != 4 && p != 5 ==> c'.nodes[p] == c.nodes[p])
            && Idle(c'.nodes[4], vote.term) && Idle(c'.nodes[5], vote.term)
            && c'.nodes[n] == c.nodes[n].(votesReceived := 3).BecomeLeader(n, ALL - {n})
  {
    var c := run[|run| - 1];
    IdleGrants(c.nodes[4], vote);
    IdleGrants(c.nodes[5], vote);
    run', steps' := Votes(run, steps, d, 4, vote);
    run', steps' := Votes(run', steps', d, 5, vote);
    run', steps' := Prevails(run', steps', d, n, vote);
  }

  lemma Prevails(run: seq<Cluster>, steps: seq<Step>, d: Discipline, n: NodeId, vote: VoteRequest)
    returns (run': seq<Cluster>, steps': seq<Step>)
    requires Grown(run, steps, d) && Asks(run[|run| - 1], n, vote)
    requires VoteReply(4, vote, VoteResponse(vote.term, true), []) in run[|run| - 1].net
    requires VoteReply(5, vote, VoteResponse(vote.term, true), []) in run[|run| - 1].net
    ensures var s' := run[|run| - 1].nodes[n].(votesReceived := 3).BecomeLeader(n, ALL - {n});
            After(run, steps, d, n, s', {}, run', steps')
  {
    var c := run[|run| - 1];
    var voterLogs := map[n := c.nodes[n].log, 4 := [], 5 := []];
    QuorumOfFive(c, n, vote, voterLogs);
    Elections.ElectedShape(c, n, vote, voterLogs);
    run', steps' := Then(run, steps, d, n, Win(vote, voterLogs));
  }

  lemma StartFive(d: Discipline) returns (run: seq<Cluster>, steps: seq<Step>)
    ensures Grown(run, steps, d) && |run| == 1
    ensures run[0].nodes.Keys == ALL && forall n :: n in ALL ==> run[0].nodes[n] == FRESH
  {
    run, steps := [Init(ALL)], [];
  }

  // ----- requests -----------------------------------------------------------------------------------

  /** The leader sends and the follower will accept and report the leader's last index. */
  ghost predicate CanDeliver(c: Cluster, l: NodeId, f: NodeId, req: AppendRequest) {
    && l in c.nodes && f in c.nodes && l != f && c.nodes[l].role == Leader && Offers(c.nodes[l], l, f, req)
    && HandleAppendEntries(c.nodes[f], req).1 == AppendResponse(req.term, true, |c.nodes[l].log|)
  }

  ghost function Delivered(c: Cluster, l: NodeId, f: NodeId, req: AppendRequest): Cluster
    requires l in c.nodes && f in c.nodes
  {
    Handle(Handle(c, l, Replicate(f)), f, TakeAppend(req))
  }

  lemma SendPermitted(c: Cluster, l: NodeId, f: NodeId)
    requires l in c.nodes && f in c.nodes && l != f && c.nodes[l].role == Leader
    requires Replication(c.nodes[l], l, f).SendAppend?
    ensures Permitted(c, l, Replicate(f), Dated)
  {
  }

  lemma TakePermitted(c: Cluster, f: NodeId, req: AppendRequest)
    requires f in c.nodes && AppendCall(f, req) in c.net && !IsStale(c, c.nodes[f], req)
    ensures Permitted(c, f, TakeAppend(req), Dated)
  {
  }

  lemma DeliveryPermitted(c: Cluster, l: NodeId, f: NodeId, req: AppendRequest)
    requires LogInv(c) && CanDeliver(c, l, f, req)
    ensures Permitted(c, l, Replicate(f), Dated)
    ensures Permitted(Handle(c, l, Replicate(f)), f, TakeAppend(req), Dated)
  {
    var c1 := Handle(c, l, Replicate(f));
    assert Replication(c.nodes[l], l, f) == SendAppend(req) by { assert Asked(0); }
    SendPermitted(c, l, f);
    assert f in c1.nodes && AppendCall(f, req) in c1.net && !IsStale(c1, c1.nodes[f], req) by {
      RaftSafety.Sent(c, l, f, req);
      RaftSafety.FreshNotStale(c, c1, l, f, req);
    }
    TakePermitted(c1, f, req);
  }

  lemma DeliveryAcked(c: Cluster, l: NodeId, f: NodeId, req: AppendRequest)
    requires LogInv(c) && CanDeliver(c, l, f, req)
    ensures var c', n := Delivered(c, l, f, req), |c.nodes[l].log|;
            && Grew(c, c') && c'.nodes == c.nodes[f := HandleAppendEntries(c.nodes[f], req).0]
            && AppendReply(f, req, AppendResponse(req.term, true, n)) in c'.net && Acked(c', f, req.term, n)
  {
    assert Replication(c.nodes[l], l, f) == SendAppend(req) by { assert Asked(0); }
    RaftSafety.Sent(c, l, f, req);
    RaftSafety.AcceptedCovers(c, l, f, req);
    Acknowledgements.Taken(Handle(c, l, Replicate(f)), f, req);
    var a := Ack(f, req.term, |c.nodes[l].log|);
    assert a in Delivered(c, l, f, req).acks;
  }

  /** The leader sends to the follower, which accepts at once. */
  lemma Delivers(run: seq<Cluster>, steps: seq<Step>, l: NodeId, f: NodeId, req: AppendRequest)
    returns (run': seq<Cluster>, steps': seq<Step>)
    requires Grown(run, steps, Dated) && CanDeliver(run[|run| - 1], l, f, req)
    ensures Grown(run', steps', Dated)
    ensures var c, c' := run[|run| - 1], run'[|run'| - 1];
            var n := |c.nodes[l].log|;
            && Grew(c, c') && c'.nodes == c.nodes[f := HandleAppendEntries(c.nodes[f], req).0]
            && AppendReply(f, req, AppendResponse(req.term, true, n)) in c'.net && Acked(c', f, req.term, n)
  {
    var c := run[|run| - 1];
    assert LogInv(c) by {
      assert Asked(0);
      RaftSafety.InvRun(run, steps, Dated, |run| - 1);
    }
    DeliveryPermitted(c, l, f, req);
    DeliveryAcked(c, l, f, req);
    run', steps' := ThenPermitted(run, steps, Dated, l, Replicate(f));
    run', steps' := ThenPermitted(run', steps', Dated, f, TakeAppend(req));
  }

  /** Entries from the beginning replace whatever log there is. */
  lemma StartOver(s: NodeState, req: AppendRequest)
    requires s.logOffset == 0 && s.snapshot.None? && s.commitIndex == 0 == req.leaderCommit
    requires req.prevLogIndex == 0 && req.entries != [] && req.term >= s.currentTerm
    ensures var (s', r) := HandleAppendEntries(s, req);
            && Node(s', Role.Follower, req.term, req.entries)
            && r == AppendResponse(req.term, true, req.entries[|req.entries| - 1].index)
  {
    ReplacedLog(Acknowledge(s, req), req);
  }

  lemma ReplacedLog(s: NodeState, req: AppendRequest)
    requires s.logOffset == 0 && req.prevLogIndex == 0 && req.entries != []
    ensures StoreEntries(s, req) == s.(log := req.entries)
  {
    assert s.log[..0] + req.entries == req.entries && [] + req.entries == req.entries;
  }

  // ----- the first term: node 2 stores two entries and says so; the reply is late -------------------

  const OLD := AppendRequest(1, 1, 0, 0, [A1, A2], 0)
  const LATE := AppendResponse(1, true, 2)

  /** The late reply, and the record that it was true. */
  ghost predicate Delayed(c: Cluster) {
    AppendReply(2, OLD, LATE) in c.net && Acked(c, 2, 1, 2)
  }

  lemma DelayedStays(c: Cluster, c': Cluster)
    requires Delayed(c) && Grew(c, c')
    ensures Delayed(c')
  {
    var a :| a in c.acks && a.node == 2 && a.term == 1 && a.upTo >= 2;
    assert a in c'.acks;
  }

  lemma FirstLeads() returns (run: seq<Cluster>, steps: seq<Step>)
    ensures Grown(run, steps, Dated)
    ensures var c := run[|run| - 1];
            && c.nodes.Keys == ALL && c.nodes[2] == FRESH && c.nodes[3] == FRESH
            && Idle(c.nodes[4], 1) && Idle(c.nodes[5], 1)
            && Node(c.nodes[1], Leader, 1, []) && c.nodes[1].NextIndexOf(2) == 1
  {
    run, steps := StartFive(Dated);
    run, steps := TimesOut(run, steps, Dated, 1);
    run, steps := Elects(run, steps, Dated, 1, VoteRequest(1, 1, 0, 0));
  }

  lemma TwoEntries(s: NodeState)
    requires Node(s, Leader, 1, [])
    ensures s.AppendEntry(Noop).AppendEntry(Noop).log == [A1, A2]
  {
    FirstEntry(s, Noop);
    assert [A1] + [A2] == [A1, A2];
  }

  lemma BothStoredLate() returns (run: seq<Cluster>, steps: seq<Step>)
    ensures Grown(run, steps, Dated)
    ensures var c := run[|run| - 1];
            && c.nodes.Keys == ALL && c.nodes[3] == FRESH && Idle(c.nodes[4], 1) && Idle(c.nodes[5], 1)
            && Node(c.nodes[1], Leader, 1, [A1, A2]) && Node(c.nodes[2], Role.Follower, 1, [A1, A2]) && Delayed(c)
  {
    run, steps := FirstLeads();
    TwoEntries(run[|run| - 1].nodes[1]);
    run, steps := Proposes(run, steps, Dated, 1, Noop);
    run, steps := Proposes(run, steps, Dated, 1, Noop);
    WholeLogSent(run[|run| - 1].nodes[1], 1, 2);
    StartOver(run[|run| - 1].nodes[2], OLD);
    run, steps := Delivers(run, steps, 1, 2, OLD);
  }

  // ----- the second term: node 3 leads and overwrites node 1 -----------------------------------------

  const NEW := AppendRequest(2, 3, 0, 0, [B], 0)

  lemma ThirdLeads() returns (run: seq<Cluster>, steps: seq<Step>)
    ensures Grown(run, steps, Dated)
    ensures var c := run[|run| - 1];
            && c.nodes.Keys == ALL && Idle(c.nodes[4], 2) && Idle(c.nodes[5], 2) && Delayed(c)
            && Node(c.nodes[1], Leader, 1, [A1, A2]) && Node(c.nodes[2], Role.Follower, 1, [A1, A2])
            && Node(c.nodes[3], Leader, 2, []) && c.nodes[3].NextIndexOf(1) == 1
  {
    run, steps := BothStoredLate();
    var c := run[|run| - 1];
    run, steps := TimesOut(run, steps, Dated, 3);
    run, steps := TimesOut(run, steps, Dated, 3);
    run, steps := Elects(run, steps, Dated, 3, VoteRequest(2, 3, 0, 0));
    DelayedStays(c, run[|run| - 1]);
  }

  lemma Overwritten() returns (run: seq<Cluster>, steps: seq<Step>)
    ensures Grown(run, steps, Dated)
    ensures var c := run[|run| - 1];
            && c.nodes.Keys == ALL && Idle(c.nodes[4], 2) && Idle(c.nodes[5], 2) && Delayed(c)
            && Node(c.nodes[1], Role.Follower, 2, [B]) && Node(c.nodes[2], Role.Follower, 1, [A1, A2])
            && Node(c.nodes[3], Leader, 2, [B])
  {
    run, steps := ThirdLeads();
    var c := run[|run| - 1];
    FirstEntry(c.nodes[3], Noop);
    run, steps := Proposes(run, steps, Dated, 3, Noop);
    WholeLogSent(run[|run| - 1].nodes[3], 3, 1);
    StartOver(run[|run| - 1].nodes[1], NEW);
    run, steps := Delivers(run, steps, 3, 1, NEW);
    DelayedStays(c, run[|run| - 1]);
  }

  // ----- the third term: node 1 leads again and counts the late reply -----------------------------------

  /** The leader's tables: everybody is believed to lack the second entry. */
  ghost predicate Unmatched(s: NodeState) {
    && s.nextIndex.Keys == {2, 3, 4, 5} && s.matchIndex.Keys == {2, 3, 4, 5}
    && forall p :: p in s.nextIndex ==> s.nextIndex[p] == 2 && s.matchIndex[p] == 0
  }

  lemma FirstLeadsAgain() returns (run: seq<Cluster>, steps: seq<Step>)
    ensures Grown(run, steps, Dated)
    ensures var c := run[|run| - 1];
            && c.nodes.Keys == ALL && Idle(c.nodes[4], 3) && Idle(c.nodes[5], 3) && Delayed(c)
            && Node(c.nodes[1], Leader, 3, [B]) && Unmatched(c.nodes[1])
            && Node(c.nodes[2], Role.Follower, 1, [A1, A2]) && Node(c.nodes[3], Leader, 2, [B])
  {
    run, steps := Overwritten();
    var c := run[|run| - 1];
    run, steps := TimesOut(run, steps, Dated, 1);
    run, steps := Elects(run, steps, Dated, 1, VoteRequest(3, 1, 1, 2));
    DelayedStays(c, run[|run| - 1]);
    assert ALL - {1} == {2, 3, 4, 5};
  }

  lemma SecondEntry(s: NodeState)
    requires Node(s, Leader, 3, [B])
    ensures s.AppendEntry(Noop).log == [B, C]
  {
    assert [B] + [C] == [B, C];
  }

  lemma PointOfFive(m: map<NodeId, nat>, x: nat)
    requires m.Keys == {2, 3, 4, 5} && m[2] == 2 && m[3] == x && m[4] == 0 && m[5] == 0 && (x == 0 || x == 2)
    ensures CommitPoint(m, 2) == x
  {
    assert |m| == |m.Keys| == 4;
    assert Holders(m, x) == if x == 0 then {2, 3, 4, 5} else {2, 3};
    forall j: nat | j > x
      ensures HeldBy(m, 2, j) < CommitQuorum(5)
    {
      assert Holders(m, j) == if j <= 2 then {2} else {};
    }
    CommitPointUnique(m, 2, x);
  }

  /** The late reply fills a place in the table, which does not yet suffice. */
  lemma LateCounted(s: NodeState)
    requires Node(s, Leader, 3, [B, C]) && Unmatched(s)
    ensures HandleAppendReply(s, 2, LATE) == RecordMatch(s, 2, 2)
  {
    PointOfFive(RecordMatch(s, 2, 2).matchIndex, 0);
  }

  lemma LateReplyCounted() returns (run: seq<Cluster>, steps: seq<Step>)
    ensures Grown(run, steps, Dated)
    ensures var c := run[|run| - 1];
            && c.nodes.Keys == ALL && Idle(c.nodes[4], 3) && Idle(c.nodes[5], 3)
            && Node(c.nodes[1], Leader, 3, [B, C]) && c.nodes[1].NextIndexOf(3) == 2
            && c.nodes[1].matchIndex.Keys == {2, 3, 4, 5} && c.nodes[1].matchIndex[2] == 2
            && (forall p :: p in {3, 4, 5} ==> c.nodes[1].matchIndex[p] == 0)
            && Node(c.nodes[2], Role.Follower, 1, [A1, A2]) && Node(c.nodes[3], Leader, 2, [B])
  {
    run, steps := FirstLeadsAgain();
    var c := run[|run| - 1];
    SecondEntry(c.nodes[1]);
    run, steps := Proposes(run, steps, Dated, 1, Noop);
    DelayedStays(c, run[|run| - 1]);
    LateCounted(run[|run| - 1].nodes[1]);
    run, steps := Counts(run, steps, Dated, 1, 2, OLD, LATE);
  }

  const LAST := AppendRequest(3, 1, 1, 2, [C], 0)

  lemma LastSent(s: NodeState)
    requires Node(s, Leader, 3, [B, C]) && s.NextIndexOf(3) == 2
    ensures Offers(s, 1, 3, LAST)
  {
    assert s.GetEntriesFrom(2) == [C];
    assert s.TermAt(1) == 2;
  }

  lemma LastStored(s: NodeState)
    requires Node(s, Leader, 2, [B])
    ensures HandleAppendEntries(s, LAST).1 == AppendResponse(3, true, 2)
  {
    var s1 := Acknowledge(s, LAST);
    assert CheckPrev(s1, LAST).Accept?;
    assert [B] + [C] == [B, C];
    assert StoreEntries(s1, LAST).log == [B, C];
  }

  /** One true reply and the late one: enough for the leader. */
  lemma Miscounted(s: NodeState)
    requires Node(s, Leader, 3, [B, C]) && s.matchIndex.Keys == {2, 3, 4, 5} && s.matchIndex[2] == 2
    requires forall p :: p in {3, 4, 5} ==> s.matchIndex[p] == 0
    ensures HandleAppendReply(s, 3, AppendResponse(3, true, 2)) == RecordMatch(s, 3, 2).(commitIndex := 2)
  {
    var s' := RecordMatch(s, 3, 2);
    PointOfFive(s'.matchIndex, 2);
    assert s'.GetEntry(2) == Some(C);
    PointReached(s', 2);
  }

  lemma WrongCommit() returns (run: seq<Cluster>, steps: seq<Step>)
    ensures Grown(run, steps, Dated)
    ensures var c := run[|run| - 1];
            && c.nodes.Keys == ALL && Idle(c.nodes[4], 3) && Idle(c.nodes[5], 3)
            && c.nodes[1].currentTerm == 3 && c.nodes[1].log == [B, C] && c.nodes[1].commitIndex == 2
            && Node(c.nodes[2], Role.Follower, 1, [A1, A2])
  {
    run, steps := LateReplyCounted();
    LastSent(run[|run| - 1].nodes[1]);
    LastStored(run[|run| - 1].nodes[3]);
    run, steps := Delivers(run, steps, 1, 3, LAST);
    Miscounted(run[|run| - 1].nodes[1]);
    run, steps := Counts(run, steps, Dated, 1, 3, LAST, AppendResponse(3, true, 2));
  }

  /** Node 2 leads term 4 without an entry that node 1 committed in term 3, although no request
      was stale and every counted reply was true of the leader that had asked for it. */
  lemma RecountedReply() returns (run: seq<Cluster>, steps: seq<Step>)
    ensures IsRun(run, steps, Dated)
    ensures var c := run[|run| - 1];
            && 1 in c.nodes && 2 in c.nodes
            && c.nodes[2].role == Leader && c.nodes[2].currentTerm > c.nodes[1].currentTerm
            && c.nodes[1].commitIndex <= |c.nodes[1].log|
            && !(c.nodes[1].log[..c.nodes[1].commitIndex] <= c.nodes[2].log)
  {
    run, steps := WrongCommit();
    run, steps := TimesOut(run, steps, Dated, 2);
    run, steps := TimesOut(run, steps, Dated, 2);
    run, steps := TimesOut(run, steps, Dated, 2);
    run, steps := Elects(run, steps, Dated, 2, VoteRequest(4, 2, 2, 1));
    assert A1 != B;
    assert Asked(0);
  }
}
