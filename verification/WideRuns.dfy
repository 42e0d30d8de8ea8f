/** Election Safety for whole nodes: between the steps of the protocol they also apply
    and compact their logs and install snapshots, and a crash may tear any of it. */
module WideRuns {
  import opened Types
  import opened RaftSpec
  import opened Cluster
  import opened Elections

  /** What a node does outside the exchange of votes and entries. */
  datatype Act =
    | Install(install: InstallRequest)
    | InstallAnswer(peer: NodeId, term: nat, sent: nat)
    | Compact(threshold: nat, jobs: seq<SnapshotJob>, workers: seq<NodeId>)
    | Apply

  /** Any snapshot, and any answer to one, may arrive at any time.  A crash lets the first
      `writes` of term and vote reach the disk and leaves there whatever it leaves of
      log, offset and snapshot. */
  datatype Deed =
    | Protocol(step: Step)
    | Local(node: NodeId, act: Act)
    | TornLocal(node: NodeId, act: Act, writes: nat, left: Persisted)

  function Perform(s: NodeState, a: Act): NodeState {
    match a
    case Install(install) => HandleInstallSnapshot(s, install)
    case InstallAnswer(peer, term, sent) => HandleInstallReply(s, peer, term, sent)
    case Compact(threshold, jobs, workers) => MaybeCompact(s, threshold, jobs, workers)
    case Apply => TakeCommitted(s).0
  }

  predicate MayLeave(before: NodeState, after: NodeState, writes: nat, left: Persisted) {
    && left.currentTerm == (if writes >= 1 then after else before).currentTerm
    && left.votedFor == (if writes >= 2 then after else before).votedFor
  }

  ghost predicate Possible(c: Cluster, deed: Deed) {
    match deed
    case Protocol(step) => Allowed(c, step, Monotonic)
    case Local(n, _) => n in c.nodes
    case TornLocal(n, a, writes, left) => n in c.nodes && MayLeave(c.nodes[n], Perform(c.nodes[n], a), writes, left)
  }

  ghost function Advance(c: Cluster, deed: Deed): Cluster
    requires Possible(c, deed)
  {
    match deed
    case Protocol(step) => Do(c, step)
    case Local(n, a) => c.(nodes := c.nodes[n := Perform(c.nodes[n], a)])
    case TornLocal(n, _, _, left) => c.(nodes := c.nodes[n := Restore(left)])
  }

  ghost predicate IsNextDeed(run: seq<Cluster>, deeds: seq<Deed>, i: nat)
    requires i + 1 < |run| && i < |deeds|
  {
    Possible(run[i], deeds[i]) && run[i + 1] == Advance(run[i], deeds[i])
  }

  ghost predicate IsWideRun(run: seq<Cluster>, deeds: seq<Deed>) {
    && |run| == |deeds| + 1
    && (exists ids :: run[0] == Init(ids))
    && forall i: nat :: i < |deeds| ==> IsNextDeed(run, deeds, i)
  }

  // ----- every deed keeps the election invariant --------------------------------------------

  lemma PerformBallot(c: Cluster, n: NodeId, s: NodeState, a: Act)
    requires s.role != Follower ==> s.votedFor == Some(n)
    ensures Ballot(c, n, s, Perform(s, a))
    ensures Perform(s, a).role == Leader ==> s.role == Leader
  {
  }

  lemma LocalBallotStep(c: Cluster, n: NodeId, s': NodeState)
    requires n in c.nodes && Ballot(c, n, c.nodes[n], s') && (s'.role == Leader ==> c.nodes[n].role == Leader)
    ensures BallotStep(c, c.(nodes := c.nodes[n := s']), n)
  {
  }

  lemma DeedKeeps(c: Cluster, deed: Deed)
    requires ElectionInv(c) && Possible(c, deed)
    ensures ElectionInv(Advance(c, deed)) && ElectionsKept(c, Advance(c, deed))
  {
    match deed
    case Protocol(step) =>
      StepIsBallotStep(c, step);
      ElectionsStable(c, Do(c, step), step.node);
      ElectionInvStep(c, step);
    case Local(n, a) =>
      PerformBallot(c, n, c.nodes[n], a);
      LocalBallotStep(c, n, Perform(c.nodes[n], a));
      ElectionInvKept(c, Advance(c, deed), n);
    case TornLocal(n, a, writes, left) =>
      PerformBallot(c, n, c.nodes[n], a);
      LeftBallot(c, n, c.nodes[n], Perform(c.nodes[n], a), writes, left);
      LocalBallotStep(c, n, Restore(left));
      ElectionInvKept(c, Advance(c, deed), n);
  }

  lemma LeftBallot(c: Cluster, n: NodeId, s: NodeState, s': NodeState, writes: nat, left: Persisted)
    requires Ballot(c, n, s, s') && MayLeave(s, s', writes, left)
    ensures Ballot(c, n, s, Restore(left))
  {
  }

  // ----- runs ---------------------------------------------------------------------------------

  /** Closed until asked for. */
  ghost predicate Lawful(c: Cluster) {
    forall k: nat :: Asked(k) ==> ElectionInv(c)
  }

  lemma SoundStart(run: seq<Cluster>, deeds: seq<Deed>)
    requires IsWideRun(run, deeds)
    ensures Lawful(run[0])
  {
    var ids :| run[0] == Init(ids);
    ElectionInvInit(ids);
  }

  lemma SoundNext(run: seq<Cluster>, deeds: seq<Deed>, i: nat)
    requires IsWideRun(run, deeds) && 0 < i < |run| && Lawful(run[i - 1])
    ensures Lawful(run[i]) && ElectionsKept(run[i - 1], run[i])
  {
    assert Asked(0);
    assert IsNextDeed(run, deeds, i - 1);
    DeedKeeps(run[i - 1], deeds[i - 1]);
  }

  lemma {:induction false} SoundRun(run: seq<Cluster>, deeds: seq<Deed>, i: nat)
    requires IsWideRun(run, deeds) && i < |run|
    ensures Lawful(run[i])
    decreases i
  {
    if i == 0 {
      SoundStart(run, deeds);
    } else {
      SoundRun(run, deeds, i - 1);
      SoundNext(run, deeds, i);
    }
  }

  lemma {:induction false} KeptRun(run: seq<Cluster>, deeds: seq<Deed>, i: nat, j: nat)
    requires IsWideRun(run, deeds) && i <= j < |run|
    ensures ElectionsKept(run[i], run[j])
    decreases j
  {
    if i < j {
      KeptRun(run, deeds, i, j - 1);
      SoundRun(run, deeds, j - 1);
      SoundNext(run, deeds, j);
    }
  }

  lemma OneLeader(c: Cluster, c': Cluster, a: NodeId, b: NodeId)
    requires ElectionInv(c) && ElectionInv(c') && ElectionsKept(c, c')
    requires a in c.nodes && c.nodes[a].role == Leader && b in c'.nodes && c'.nodes[b].role == Leader
    requires c.nodes[a].currentTerm == c'.nodes[b].currentTerm
    ensures a == b
  {
  }

  /** Election Safety: leaders of one term, at any two moments, are one node. */
  lemma ElectionSafety(run: seq<Cluster>, deeds: seq<Deed>, i: nat, j: nat, a: NodeId, b: NodeId)
    requires IsWideRun(run, deeds) && i <= j < |run|
    requires a in run[i].nodes && run[i].nodes[a].role == Leader
    requires b in run[j].nodes && run[j].nodes[b].role == Leader
    requires run[i].nodes[a].currentTerm == run[j].nodes[b].currentTerm
    ensures a == b
  {
    SoundRun(run, deeds, i);
    SoundRun(run, deeds, j);
    assert ElectionInv(run[i]) && ElectionInv(run[j]) by { assert Asked(0); }
    KeptRun(run, deeds, i, j);
    OneLeader(run[i], run[j], a, b);
  }

  // ----- the runs of the protocol alone are among these ------------------------------------------

  lemma ProtocolRunIsWide(run: seq<Cluster>, steps: seq<Step>, d: Discipline)
    requires IsRun(run, steps, d) && !d.Unrestricted?
    ensures IsWideRun(run, seq(|steps|, i requires 0 <= i < |steps| => Protocol(steps[i])))
  {
    var deeds := seq(|steps|, i requires 0 <= i < |steps| => Protocol(steps[i]));
    forall i: nat | i < |deeds| ensures IsNextDeed(run, deeds, i) {
      assert IsNext(run, steps, d, i);
    }
  }
}
