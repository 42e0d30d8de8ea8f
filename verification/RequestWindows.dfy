/** A leader has a next index for every peer, in every run, so that the one window it cuts
    its requests from serves them all. */
module RequestWindows {
  import opened Types
  import opened RaftSpec
  import opened Cluster
  import opened RaftStateObject
  import WideRuns
  import CompactedCluster

  ghost predicate Tabled(nodes: map<NodeId, NodeState>) {
    forall n :: n in nodes && nodes[n].role == Leader ==> nodes.Keys - {n} <= nodes[n].nextIndex.Keys
  }

  lemma TabledChange(nodes: map<NodeId, NodeState>, n: NodeId, s: NodeState)
    requires Tabled(nodes) && n in nodes && (s.role == Leader ==> nodes.Keys - {n} <= s.nextIndex.Keys)
    ensures Tabled(nodes[n := s])
  {
    assert nodes[n := s].Keys == nodes.Keys;
  }

  /** Winning fills the table; afterwards keys are only added while the node leads. */
  lemma ReactTabled(c: Cluster, n: NodeId, e: Event)
    requires Tabled(c.nodes) && n in c.nodes
    ensures React(c, n, e).role == Leader ==> c.nodes.Keys - {n} <= React(c, n, e).nextIndex.Keys
  {
    var s := c.nodes[n];
    match e
    case TakeAppend(append) => AppendTabled(s, append);
    case TakeReply(follower, _, result) => ReplyTabled(s, follower, result);
    case _ =>
  }

  lemma AppendTabled(s: NodeState, append: AppendRequest)
    ensures var s' := HandleAppendEntries(s, append).0;
            s'.nextIndex == s.nextIndex && (s'.role == Leader ==> s.role == Leader)
  {
  }

  lemma ReplyTabled(s: NodeState, follower: NodeId, result: AppendResponse)
    ensures var s' := HandleAppendReply(s, follower, result);
            s.nextIndex.Keys <= s'.nextIndex.Keys && (s'.role == Leader ==> s.role == Leader)
  {
  }

  lemma StepTabled(c: Cluster, step: Step)
    requires Tabled(c.nodes) && step.node in c.nodes
    ensures Tabled(Do(c, step).nodes)
  {
    match step
    case Run(n, e) =>
      ReactTabled(c, n, e);
      TabledChange(c.nodes, n, React(c, n, e));
    case Crash(n, e, writes, keeps) =>
      TabledChange(c.nodes, n, Do(c, step).nodes[n]);
  }

  lemma DeedTabled(c: Cluster, deed: WideRuns.Deed)
    requires Tabled(c.nodes) && WideRuns.Possible(c, deed)
    ensures Tabled(WideRuns.Advance(c, deed).nodes)
  {
    match deed
    case Protocol(step) => StepTabled(c, step);
    case Local(n, a) => TabledChange(c.nodes, n, WideRuns.Perform(c.nodes[n], a));
    case TornLocal(n, _, _, left) => TabledChange(c.nodes, n, Restore(left));
  }

  lemma MoveTabled(k: CompactedCluster.System, v: CompactedCluster.Move)
    requires Tabled(k.nodes) && v.node in k.nodes
    ensures Tabled(CompactedCluster.Moved(k, v).nodes)
  {
    if v.Protocol? {
      ReactTabled(CompactedCluster.Seen(k), v.node, v.event);
    }
    TabledChange(k.nodes, v.node, CompactedCluster.Moved(k, v).nodes[v.node]);
  }

  // ----- runs -----------------------------------------------------------------------------------

  lemma {:induction false} TabledRun(run: seq<Cluster>, steps: seq<Step>, d: Discipline, i: nat)
    requires IsRun(run, steps, d) && i < |run|
    ensures Tabled(run[i].nodes)
    decreases i
  {
    if i > 0 {
      TabledRun(run, steps, d, i - 1);
      assert IsNext(run, steps, d, i - 1);
      StepTabled(run[i - 1], steps[i - 1]);
    }
  }

  lemma {:induction false} TabledWide(run: seq<Cluster>, deeds: seq<WideRuns.Deed>, i: nat)
    requires WideRuns.IsWideRun(run, deeds) && i < |run|
    ensures Tabled(run[i].nodes)
    decreases i
  {
    if i > 0 {
      TabledWide(run, deeds, i - 1);
      assert WideRuns.IsNextDeed(run, deeds, i - 1);
      DeedTabled(run[i - 1], deeds[i - 1]);
    }
  }

  lemma {:induction false} TabledCompacted(ks: seq<CompactedCluster.System>, cs: seq<Cluster>,
                                           vs: seq<CompactedCluster.Move>, i: nat)
    requires CompactedCluster.IsCompactedRun(ks, cs, vs) && i < |ks|
    ensures Tabled(ks[i].nodes)
    decreases i
  {
    if i > 0 {
      TabledCompacted(ks, cs, vs, i - 1);
      assert CompactedCluster.IsNextMove(ks, cs, vs, i - 1);
      MoveTabled(ks[i - 1], vs[i - 1]);
    }
  }

  // ----- what a round sends -----------------------------------------------------------------------

  /** The start of the window that the smallest next index gives. */
  ghost predicate IsStart(s: NodeState, start: nat) {
    exists least: nat ::
      IsLeastNext(s.nextIndex, least) && start == Max(if least == 0 then 0 else least - 1, s.logOffset + 1)
  }

  lemma WindowServes(nodes: map<NodeId, NodeState>, n: NodeId, peer: NodeId, start: nat)
    requires Tabled(nodes) && n in nodes && nodes[n].role == Leader && peer in nodes && peer != n
    requires Contiguous(nodes[n]) && IsStart(nodes[n], start)
    ensures Windowed(nodes[n], n, peer, start) == Replication(nodes[n], n, peer)
  {
    var least: nat :|
                 && IsLeastNext(nodes[n].nextIndex, least)
                 && start == Max(if least == 0 then 0 else least - 1, nodes[n].logOffset + 1);
    WindowedExact(nodes[n], n, peer, least, start);
  }

  /** At every moment of every run, whatever it observes and whatever its nodes install, what a
      leader with a contiguous log cuts from its window for a peer is what the whole log gives. */
  lemma WindowAlwaysServes(run: seq<Cluster>, deeds: seq<WideRuns.Deed>, i: nat, n: NodeId, peer: NodeId, start: nat)
    requires WideRuns.IsWideRun(run, deeds) && i < |run| && n in run[i].nodes && peer in run[i].nodes && peer != n
    requires run[i].nodes[n].role == Leader && Contiguous(run[i].nodes[n]) && IsStart(run[i].nodes[n], start)
    ensures Windowed(run[i].nodes[n], n, peer, start) == Replication(run[i].nodes[n], n, peer)
  {
    TabledWide(run, deeds, i);
    WindowServes(run[i].nodes, n, peer, start);
  }

  lemma BesideIsContiguous(s: NodeState, u: NodeState)
    requires CompactedCluster.Beside(s, u)
    ensures Contiguous(s)
  {
  }

  /** Where nodes compact but install nothing, logs are contiguous. */
  lemma CompactedWindowServes(ks: seq<CompactedCluster.System>, cs: seq<Cluster>, vs: seq<CompactedCluster.Move>,
                              i: nat, n: NodeId, peer: NodeId, start: nat)
    requires CompactedCluster.IsCompactedRun(ks, cs, vs) && i < |ks|
    requires n in ks[i].nodes && peer in ks[i].nodes && peer != n
    requires ks[i].nodes[n].role == Leader && IsStart(ks[i].nodes[n], start)
    ensures Windowed(ks[i].nodes[n], n, peer, start) == Replication(ks[i].nodes[n], n, peer)
  {
    assert Contiguous(ks[i].nodes[n]) by {
      CompactedCluster.BesideRun(ks, cs, vs, i, n);
      BesideIsContiguous(ks[i].nodes[n], cs[i].nodes[n]);
    }
    TabledCompacted(ks, cs, vs, i);
    WindowServes(ks[i].nodes, n, peer, start);
  }
}
