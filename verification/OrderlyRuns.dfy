/** Runs in which a request, its handling and the reply follow on one another.  What they
    must observe can be read off the nodes and the network: no history is consulted. */
module OrderlyRuns {
  import opened Types
  import opened RaftSpec
  import opened Cluster
  import opened Logs
  import opened Acknowledgements
  import opened Commits
  import opened RaftSafety

  datatype Turn =
    | Solo(node: NodeId, event: Event)
    | Heard(node: NodeId, beat: AppendRequest)
    | Exchange(leader: NodeId, follower: NodeId, req: AppendRequest)
    | Unanswered(leader: NodeId, follower: NodeId, req: AppendRequest)
    | Fall(step: Step)

  predicate IsSolo(e: Event) {
    e.Timeout? || e.AnswerVote? || e.Win? || e.StepDown? || e.Propose? || e.Beat?
  }

  /** The leader has something to send, and if it is accepted, the answer names the last
      index of the leader's log. */
  ghost predicate CanSend(c: Cluster, l: NodeId, f: NodeId, req: AppendRequest) {
    && l in c.nodes && f in c.nodes && l != f && c.nodes[l].role == Leader
    && Replication(c.nodes[l], l, f) == SendAppend(req)
    && var r := HandleAppendEntries(c.nodes[f], req).1;
       r.success ==> r.matchIndex == |c.nodes[l].log|
  }

  ghost predicate CanTake(c: Cluster, t: Turn) {
    match t
    case Solo(n, e) => IsSolo(e) && Enabled(c, n, e) && Monotone(c, n, e)
    case Heard(n, beat) => beat.entries == [] && Enabled(c, n, TakeAppend(beat))
    case Exchange(l, f, req) => CanSend(c, l, f, req)
    case Unanswered(l, f, req) => CanSend(c, l, f, req)
    case Fall(step) =>
      && step.Crash? && Enabled(c, step.node, step.event) && Steady(c, step)
      && step.keeps <= c.nodes[step.node].commitIndex
  }

  ghost function Handled(c: Cluster, l: NodeId, f: NodeId, req: AppendRequest): Cluster
    requires l in c.nodes && f in c.nodes
  {
    Handle(Handle(c, l, Replicate(f)), f, TakeAppend(req))
  }

  ghost function Take(c: Cluster, t: Turn): Cluster
    requires CanTake(c, t)
  {
    match t
    case Solo(n, e) => Handle(c, n, e)
    case Heard(n, beat) => Handle(c, n, TakeAppend(beat))
    case Exchange(l, f, req) =>
      Handle(Handled(c, l, f, req), l, Reply(c, f, req))
    case Unanswered(l, f, req) => Handled(c, l, f, req)
    case Fall(step) => Do(c, step)
  }

  // ----- every turn keeps the invariant ------------------------------------------------------------

  /** Safe, and what c has on record c' has; closed until asked for. */
  ghost predicate Goes(c: Cluster, c': Cluster) {
    forall k: nat :: Asked(k) ==> Inv(c', InOrder) && Extends(c, c')
  }

  lemma StepGoes(c: Cluster, step: Step)
    requires Inv(c, InOrder) && Allowed(c, step, InOrder)
    ensures Goes(c, Do(c, step))
  {
    InvStep(c, step, InOrder);
    StepExtends(c, step, InOrder);
  }

  /** Allowed, closed until asked for. */
  ghost predicate Permits(c: Cluster, n: NodeId, e: Event) {
    forall k: nat :: Asked(k) ==> Allowed(c, Run(n, e), InOrder)
  }

  lemma GoesOn(a: Cluster, b: Cluster, n: NodeId, e: Event)
    requires Goes(a, b) && n in b.nodes && Permits(b, n, e)
    ensures Goes(a, Handle(b, n, e))
  {
    assert Asked(0);
    StepGoes(b, Run(n, e));
    ExtendsTrans(a, b, Handle(b, n, e));
  }

  lemma SoloAllowed(c: Cluster, n: NodeId, e: Event)
    requires IsSolo(e) && Enabled(c, n, e) && Monotone(c, n, e)
    ensures Allowed(c, Run(n, e), InOrder)
  {
  }

  lemma HeardAllowed(c: Cluster, n: NodeId, beat: AppendRequest)
    requires beat.entries == [] && Enabled(c, n, TakeAppend(beat))
    ensures Allowed(c, Run(n, TakeAppend(beat)), InOrder)
  {
  }

  ghost function Reply(c: Cluster, f: NodeId, req: AppendRequest): Event
    requires f in c.nodes
  {
    TakeReply(f, req, HandleAppendEntries(c.nodes[f], req).1)
  }

  lemma ExchangePermits(c: Cluster, l: NodeId, f: NodeId, req: AppendRequest)
    requires Inv(c, InOrder) && CanSend(c, l, f, req)
    ensures Permits(c, l, Replicate(f)) && Permits(Handle(c, l, Replicate(f)), f, TakeAppend(req))
    ensures Permits(Handled(c, l, f, req), l, Reply(c, f, req))
  {
    ExchangeInOrder(c, l, f, req);
  }

  lemma HandledNodes(c: Cluster, l: NodeId, f: NodeId, req: AppendRequest)
    requires CanSend(c, l, f, req)
    ensures Handled(c, l, f, req).nodes == c.nodes[f := HandleAppendEntries(c.nodes[f], req).0]
  {
    Sent(c, l, f, req);
    Taken(Handle(c, l, Replicate(f)), f, req);
  }

  lemma HandledGoes(c: Cluster, l: NodeId, f: NodeId, req: AppendRequest)
    requires Inv(c, InOrder) && CanSend(c, l, f, req)
    ensures Goes(c, Handled(c, l, f, req))
  {
    ExchangePermits(c, l, f, req);
    assert Goes(c, Handle(c, l, Replicate(f))) by {
      assert Asked(0);
      StepGoes(c, Run(l, Replicate(f)));
    }
    GoesOn(c, Handle(c, l, Replicate(f)), f, TakeAppend(req));
  }

  lemma ExchangeGoes(c: Cluster, l: NodeId, f: NodeId, req: AppendRequest)
    requires Inv(c, InOrder) && CanSend(c, l, f, req)
    ensures Goes(c, Handle(Handled(c, l, f, req), l, Reply(c, f, req)))
  {
    HandledGoes(c, l, f, req);
    ExchangePermits(c, l, f, req);
    HandledNodes(c, l, f, req);
    GoesOn(c, Handled(c, l, f, req), l, Reply(c, f, req));
  }

  lemma TurnGoes(c: Cluster, t: Turn)
    requires Safe(c, InOrder) && CanTake(c, t)
    ensures Goes(c, Take(c, t))
  {
    IsSafe(c, InOrder);
    match t
    case Solo(n, e) =>
      SoloAllowed(c, n, e);
      StepGoes(c, Run(n, e));
    case Heard(n, beat) =>
      HeardAllowed(c, n, beat);
      StepGoes(c, Run(n, TakeAppend(beat)));
    case Exchange(l, f, req) => ExchangeGoes(c, l, f, req);
    case Unanswered(l, f, req) => HandledGoes(c, l, f, req);
    case Fall(step) => StepGoes(c, step);
  }

  // ----- runs ----------------------------------------------------------------------------------------

  ghost predicate IsNextTurn(run: seq<Cluster>, turns: seq<Turn>, i: nat)
    requires i + 1 < |run| && i < |turns|
  {
    CanTake(run[i], turns[i]) && run[i + 1] == Take(run[i], turns[i])
  }

  ghost predicate IsOrderlyRun(run: seq<Cluster>, turns: seq<Turn>) {
    && |run| == |turns| + 1
    && (exists ids :: run[0] == Init(ids))
    && forall i: nat :: i < |turns| ==> IsNextTurn(run, turns, i)
  }

  lemma OrderlyStart(run: seq<Cluster>, turns: seq<Turn>)
    requires IsOrderlyRun(run, turns)
    ensures Safe(run[0], InOrder)
  {
    var ids :| run[0] == Init(ids);
    InvInit(ids, InOrder);
  }

  lemma OrderlyNext(run: seq<Cluster>, turns: seq<Turn>, i: nat)
    requires IsOrderlyRun(run, turns) && 0 < i < |run| && Safe(run[i - 1], InOrder)
    ensures Safe(run[i], InOrder) && Extends(run[i - 1], run[i])
  {
    assert IsNextTurn(run, turns, i - 1);
    TurnGoes(run[i - 1], turns[i - 1]);
    assert Asked(0);
  }

  lemma {:induction false} OrderlySafe(run: seq<Cluster>, turns: seq<Turn>, i: nat)
    requires IsOrderlyRun(run, turns) && i < |run|
    ensures Safe(run[i], InOrder)
    decreases i
  {
    if i == 0 {
      OrderlyStart(run, turns);
    } else {
      OrderlySafe(run, turns, i - 1);
      OrderlyNext(run, turns, i);
    }
  }

  lemma {:induction false} OrderlyExtends(run: seq<Cluster>, turns: seq<Turn>, i: nat, j: nat)
    requires IsOrderlyRun(run, turns) && i <= j < |run|
    ensures Extends(run[i], run[j])
    decreases j
  {
    if i < j {
      OrderlyExtends(run, turns, i, j - 1);
      OrderlySafe(run, turns, j - 1);
      OrderlyNext(run, turns, j);
      ExtendsTrans(run[i], run[j - 1], run[j]);
    }
  }

  lemma SafeParts(c: Cluster)
    requires Safe(c, InOrder)
    ensures LogInv(c) && Complete(c)
  {
    IsSafe(c, InOrder);
    CommitsComplete(c);
  }

  lemma OrderlyLater(run: seq<Cluster>, turns: seq<Turn>, i: nat, j: nat)
    requires IsOrderlyRun(run, turns) && i <= j < |run|
    ensures Later(run[i], run[j])
  {
    OrderlySafe(run, turns, i);
    OrderlySafe(run, turns, j);
    OrderlyExtends(run, turns, i, j);
    assert LogInv(run[i]) by { SafeParts(run[i]); }
    assert LogInv(run[j]) && Complete(run[j]) by { SafeParts(run[j]); }
  }

  lemma HandleNode(c: Cluster, n: NodeId, e: Event)
    requires n in c.nodes
    ensures Handle(c, n, e).nodes[n] == React(c, n, e)
  {
  }

  lemma ReplyRecorded(c: Cluster, l: NodeId, e: Event, before: nat)
    requires LogInv(c) && l in c.nodes && e.TakeReply? && c.nodes[l].commitIndex == before
    requires Handle(c, l, e).nodes[l].commitIndex > before
    ensures RecordedBy(Handle(c, l, e), l)
  {
    HandleNode(c, l, e);
    CommitRecorded(c, l, e);
  }

  lemma HandledLogs(c: Cluster, l: NodeId, f: NodeId, req: AppendRequest)
    requires Safe(c, InOrder) && CanSend(c, l, f, req)
    ensures LogInv(Handled(c, l, f, req))
  {
    IsSafe(c, InOrder);
    HandledGoes(c, l, f, req);
    assert Asked(0);
  }

  lemma ExchangeRecorded(c: Cluster, c': Cluster, l: NodeId, f: NodeId, req: AppendRequest)
    requires Safe(c, InOrder) && CanSend(c, l, f, req)
    requires c' == Handle(Handled(c, l, f, req), l, Reply(c, f, req))
    requires l in c'.nodes && c'.nodes[l].commitIndex > c.nodes[l].commitIndex
    ensures RecordedBy(c', l)
  {
    HandledLogs(c, l, f, req);
    HandledNodes(c, l, f, req);
    ReplyRecorded(Handled(c, l, f, req), l, Reply(c, f, req), c.nodes[l].commitIndex);
  }

  lemma TurnRecorded(run: seq<Cluster>, turns: seq<Turn>, i: nat, l: NodeId, f: NodeId, req: AppendRequest)
    requires IsOrderlyRun(run, turns) && i < |turns| && turns[i] == Exchange(l, f, req)
    requires l in run[i].nodes && l in run[i + 1].nodes && run[i + 1].nodes[l].commitIndex > run[i].nodes[l].commitIndex
    ensures RecordedBy(run[i + 1], l)
  {
    OrderlySafe(run, turns, i);
    assert IsNextTurn(run, turns, i);
    ExchangeRecorded(run[i], run[i + 1], l, f, req);
  }

  /** Leader Completeness of orderly runs: what a leader commits in an exchange is in the log
      of every leader of a later term from then on. */
  lemma OrderlyCompleteness(run: seq<Cluster>, turns: seq<Turn>, i: nat, l: NodeId, f: NodeId, req: AppendRequest,
                            j: nat, n: NodeId)
    requires IsOrderlyRun(run, turns) && i < j < |run| && turns[i] == Exchange(l, f, req)
    requires l in run[i].nodes && l in run[i + 1].nodes && run[i + 1].nodes[l].commitIndex > run[i].nodes[l].commitIndex
    requires n in run[j].nodes && run[j].nodes[n].role == Leader
    requires run[j].nodes[n].currentTerm > run[i + 1].nodes[l].currentTerm
    ensures var s := run[i + 1].nodes[l];
            s.commitIndex <= |s.log| && s.log[..s.commitIndex] <= run[j].nodes[n].log
  {
    TurnRecorded(run, turns, i, l, f, req);
    OrderlyLater(run, turns, i + 1, j);
    CommitCarried(run[i + 1], run[j], l, n);
  }
}
