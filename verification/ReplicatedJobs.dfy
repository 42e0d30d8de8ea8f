/** From agreement on the log to agreement on the jobs: nodes that run the job state machine on
    what they commit, compact it into snapshots and restart from them. */
module ReplicatedJobs {
  import opened Types
  import RaftSpec
  import opened Cluster
  import opened Logs
  import opened Jobs
  import opened JobSnapshots
  import opened JobFolds
  import CompactedCluster
  import Wire
  import WireFields

  // ----- runs of nodes with their machines -----------------------------------------------------------

  /** What a move does to the machine of the node that makes it: a committed batch is applied, with
      the clock readings of the moment; a restart rebuilds it from the node's snapshot; and
      whoever compacts hands over a listing of its own jobs, and its workers. */
  ghost predicate Drives(k: CompactedCluster.System, v: CompactedCluster.Move, k': CompactedCluster.System,
                         m: Machine, m': Machine, capacity: nat)
    requires v.node in k.nodes && v.node in k'.nodes
  {
    match v
    case Protocol(_, _) => m' == m
    case Fail(n, _, _) => m' == RebuiltFrom(k'.nodes[n], capacity)
    case Apply(n) =>
      var batch := RaftSpec.TakeCommitted(k.nodes[n]).1;
      exists clock: seq<Time> :: |batch| <= |clock| && m' == ApplyAll(m, Stamp(batch, clock))
    case Compact(n, threshold, jobs, workers) =>
      m' == m && (RaftSpec.MaybeCompact(k.nodes[n], threshold, jobs, workers) != k.nodes[n] ==> Lists(m, jobs, workers))
  }

  ghost predicate Driven(ks: seq<CompactedCluster.System>, vs: seq<CompactedCluster.Move>,
                         ms: seq<map<NodeId, Machine>>, capacity: nat, i: nat)
    requires i < |vs| && i + 1 < |ks| == |ms|
  {
    var n := vs[i].node;
    && n in ks[i].nodes && n in ks[i + 1].nodes && n in ms[i] && n in ms[i + 1]
    && Drives(ks[i], vs[i], ks[i + 1], ms[i][n], ms[i + 1][n], capacity)
    && ms[i + 1] == ms[i][n := ms[i + 1][n]]
  }

  ghost predicate IsReplicatedRun(ks: seq<CompactedCluster.System>, cs: seq<Cluster>, vs: seq<CompactedCluster.Move>,
                                  ms: seq<map<NodeId, Machine>>, capacity: nat)
  {
    && CompactedCluster.IsCompactedRun(ks, cs, vs) && |ms| == |ks|
    && ms[0].Keys == ks[0].nodes.Keys && (forall n :: n in ms[0] ==> ms[0][n] == Empty(capacity))
    && forall i: nat :: i < |vs| ==> Driven(ks, vs, ms, capacity, i)
  }

  // ----- every node stays faithful -------------------------------------------------------------------

  /** Faithful, closed until asked for. */
  ghost predicate Trusty(m: Machine, s: RaftSpec.NodeState, u: RaftSpec.NodeState, capacity: nat) {
    forall a: nat :: Asked(a) ==> Faithful(m, s, u, capacity)
  }

  ghost predicate Held(k: CompactedCluster.System, c: Cluster, m: map<NodeId, Machine>, capacity: nat) {
    && m.Keys == k.nodes.Keys
    && forall n :: n in k.nodes ==> n in c.nodes && Trusty(m[n], k.nodes[n], c.nodes[n], capacity)
  }

  lemma FreshFaithful(s: RaftSpec.NodeState, u: RaftSpec.NodeState, capacity: nat)
    requires s.snapshot.None? && s.logOffset == 0 && s.lastApplied == 0
    ensures Faithful(Empty(capacity), s, u, capacity)
  {
    EmptyFold(capacity);
    assert u.log[..0] == [];
  }

  lemma HeldStart(ks: seq<CompactedCluster.System>, cs: seq<Cluster>, vs: seq<CompactedCluster.Move>,
                  ms: seq<map<NodeId, Machine>>, capacity: nat)
    requires IsReplicatedRun(ks, cs, vs, ms, capacity)
    ensures Held(ks[0], cs[0], ms[0], capacity)
  {
    var ids :| ks[0] == CompactedCluster.System(Uniform(ids, RaftSpec.FRESH), {}) && cs[0] == Init(ids);
    forall n | n in ks[0].nodes ensures n in cs[0].nodes && Trusty(ms[0][n], ks[0].nodes[n], cs[0].nodes[n], capacity) {
      FreshFaithful(ks[0].nodes[n], cs[0].nodes[n], capacity);
    }
  }

  lemma HandlerKeeps(k: CompactedCluster.System, n: NodeId, e: Event)
    requires n in k.nodes
    ensures var s, s' := k.nodes[n], React(CompactedCluster.Seen(k), n, e);
            s'.snapshot == s.snapshot && s'.logOffset == s.logOffset && s'.lastApplied == s.lastApplied
  {
    match e
    case TakeAppend(append) => AppendKeeps(k.nodes[n], append);
    case _ =>
  }

  lemma AppendKeeps(s: RaftSpec.NodeState, req: AppendRequest)
    ensures var s' := RaftSpec.HandleAppendEntries(s, req).0;
            s'.snapshot == s.snapshot && s'.logOffset == s.logOffset && s'.lastApplied == s.lastApplied
  {
  }

  lemma TornKeeps(s: RaftSpec.NodeState, s1: RaftSpec.NodeState, u: RaftSpec.NodeState, u1: RaftSpec.NodeState,
                  writes: nat, keeps: nat)
    requires CompactedCluster.Beside(s, u)
    ensures var s', u' := Torn(s, s1, writes), Torn(u, u1, writes).(commitIndex := keeps, lastApplied := keeps);
            s'.snapshot == s.snapshot && s'.logOffset == s.logOffset == s'.lastApplied && u'.log == u.log
  {
  }

  /** The moved node, one kind of move at a time. */
  lemma ProtocolHolds(ks: seq<CompactedCluster.System>, cs: seq<Cluster>, vs: seq<CompactedCluster.Move>,
                      i: nat, m: Machine, capacity: nat)
    requires CompactedCluster.IsCompactedRun(ks, cs, vs) && i < |vs| && vs[i].Protocol?
    requires var n := vs[i].node; n in ks[i].nodes && n in cs[i].nodes && n in ks[i + 1].nodes && n in cs[i + 1].nodes
    requires Faithful(m, ks[i].nodes[vs[i].node], cs[i].nodes[vs[i].node], capacity)
    ensures Faithful(m, ks[i + 1].nodes[vs[i].node], cs[i + 1].nodes[vs[i].node], capacity)
  {
    var n := vs[i].node;
    assert ks[i + 1].nodes[n] == React(CompactedCluster.Seen(ks[i]), n, vs[i].event) by {
      assert CompactedCluster.IsNextMove(ks, cs, vs, i);
    }
    HandlerKeeps(ks[i], n, vs[i].event);
    PrefixStays(ks, cs, vs, i, n);
    QuietFaithful(m, ks[i].nodes[n], cs[i].nodes[n], ks[i + 1].nodes[n], cs[i + 1].nodes[n], capacity);
  }

  lemma PrefixStays(ks: seq<CompactedCluster.System>, cs: seq<Cluster>, vs: seq<CompactedCluster.Move>,
                    i: nat, n: NodeId)
    requires CompactedCluster.IsCompactedRun(ks, cs, vs) && i < |vs| && n in ks[i].nodes && n in ks[i + 1].nodes
    requires ks[i + 1].nodes[n].lastApplied == ks[i].nodes[n].lastApplied
    ensures n in cs[i].nodes && n in cs[i + 1].nodes
    ensures Agree(cs[i].nodes[n].log, cs[i + 1].nodes[n].log, ks[i].nodes[n].lastApplied)
  {
    CompactedCluster.IndexChain(ks, cs, vs, i, n);
    CompactedCluster.IndexChain(ks, cs, vs, i + 1, n);
    CompactedCluster.CommittedAlike(ks, cs, vs, i, i + 1, n, n, ks[i].nodes[n].lastApplied);
  }

  lemma FailHolds(ks: seq<CompactedCluster.System>, cs: seq<Cluster>, vs: seq<CompactedCluster.Move>,
                  i: nat, m: Machine, capacity: nat)
    requires CompactedCluster.IsCompactedRun(ks, cs, vs) && i < |vs| && vs[i].Fail?
    requires var n := vs[i].node; n in ks[i].nodes && n in cs[i].nodes && n in ks[i + 1].nodes && n in cs[i + 1].nodes
    requires Faithful(m, ks[i].nodes[vs[i].node], cs[i].nodes[vs[i].node], capacity)
    ensures Faithful(RebuiltFrom(ks[i + 1].nodes[vs[i].node], capacity),
                     ks[i + 1].nodes[vs[i].node], cs[i + 1].nodes[vs[i].node], capacity)
  {
    var v, k, c := vs[i], ks[i], cs[i];
    var n, e := v.node, v.event;
    CompactedCluster.BesideRun(ks, cs, vs, i, n);
    assert CompactedCluster.IsNextMove(ks, cs, vs, i);
    TornKeeps(k.nodes[n], React(CompactedCluster.Seen(k), n, e), c.nodes[n], React(c, n, CompactedCluster.Lift(c, e)),
              v.writes, k.nodes[n].logOffset);
    RestartFaithful(m, k.nodes[n], c.nodes[n], ks[i + 1].nodes[n], cs[i + 1].nodes[n], capacity);
  }

  lemma LocalHolds(ks: seq<CompactedCluster.System>, cs: seq<Cluster>, vs: seq<CompactedCluster.Move>,
                   i: nat, m: Machine, m': Machine, capacity: nat)
    requires CompactedCluster.IsCompactedRun(ks, cs, vs) && i < |vs| && (vs[i].Apply? || vs[i].Compact?)
    requires var n := vs[i].node; n in ks[i].nodes && n in cs[i].nodes && n in ks[i + 1].nodes && n in cs[i + 1].nodes
    requires Faithful(m, ks[i].nodes[vs[i].node], cs[i].nodes[vs[i].node], capacity)
    requires Drives(ks[i], vs[i], ks[i + 1], m, m', capacity)
    ensures Faithful(m', ks[i + 1].nodes[vs[i].node], cs[i + 1].nodes[vs[i].node], capacity)
  {
    var n := vs[i].node;
    var s, u := ks[i].nodes[n], cs[i].nodes[n];
    CompactedCluster.BesideRun(ks, cs, vs, i, n);
    assert CompactedCluster.IsNextMove(ks, cs, vs, i);
    if vs[i].Apply? {
      var batch := RaftSpec.TakeCommitted(s).1;
      var clock: seq<Time> :| |batch| <= |clock| && m' == ApplyAll(m, Stamp(batch, clock));
      ApplyFaithful(m, s, u, clock, capacity);
    } else {
      CompactFaithful(m, s, u, vs[i].threshold, vs[i].jobs, vs[i].workers, capacity);
    }
  }

  lemma MoverHolds(ks: seq<CompactedCluster.System>, cs: seq<Cluster>, vs: seq<CompactedCluster.Move>,
                   i: nat, m: Machine, m': Machine, capacity: nat)
    requires CompactedCluster.IsCompactedRun(ks, cs, vs) && i < |vs|
    requires var n := vs[i].node; n in ks[i].nodes && n in cs[i].nodes && n in ks[i + 1].nodes && n in cs[i + 1].nodes
    requires Faithful(m, ks[i].nodes[vs[i].node], cs[i].nodes[vs[i].node], capacity)
    requires Drives(ks[i], vs[i], ks[i + 1], m, m', capacity)
    ensures Faithful(m', ks[i + 1].nodes[vs[i].node], cs[i + 1].nodes[vs[i].node], capacity)
  {
    match vs[i]
    case Protocol(_, _) => ProtocolHolds(ks, cs, vs, i, m, capacity);
    case Fail(_, _, _) => FailHolds(ks, cs, vs, i, m, capacity);
    case _ => LocalHolds(ks, cs, vs, i, m, m', capacity);
  }

  lemma OthersStay(ks: seq<CompactedCluster.System>, cs: seq<Cluster>, vs: seq<CompactedCluster.Move>, i: nat)
    requires CompactedCluster.IsCompactedRun(ks, cs, vs) && i < |vs|
    ensures ks[i + 1].nodes.Keys == ks[i].nodes.Keys
    ensures forall k :: k in ks[i].nodes && k != vs[i].node ==> ks[i + 1].nodes[k] == ks[i].nodes[k]
    ensures forall k :: k in cs[i].nodes && k != vs[i].node ==>
              k in cs[i + 1].nodes && cs[i + 1].nodes[k] == cs[i].nodes[k]
  {
    assert CompactedCluster.IsNextMove(ks, cs, vs, i);
  }

  /** A replicated run, closed until asked for. */
  ghost predicate Replicated(ks: seq<CompactedCluster.System>, cs: seq<Cluster>, vs: seq<CompactedCluster.Move>,
                             ms: seq<map<NodeId, Machine>>, capacity: nat)
  {
    && |ks| == |cs| == |ms| == |vs| + 1
    && forall a: nat :: Asked(a) ==> IsReplicatedRun(ks, cs, vs, ms, capacity)
  }

  /** Machines of the nodes that do not move, and the nodes themselves, stay as they are. */
  ghost predicate Stays(k: CompactedCluster.System, c: Cluster, m: map<NodeId, Machine>,
                        k': CompactedCluster.System, c': Cluster, m': map<NodeId, Machine>, n: NodeId)
  {
    && n in k'.nodes && k'.nodes.Keys == k.nodes.Keys && m'.Keys == m.Keys + {n}
    && forall j :: j in k.nodes && j != n && j in c.nodes && j in m ==>
         && k'.nodes[j] == k.nodes[j] && j in m' && m'[j] == m[j] && j in c'.nodes && c'.nodes[j] == c.nodes[j]
  }

  lemma HeldOn(k: CompactedCluster.System, c: Cluster, m: map<NodeId, Machine>,
               k': CompactedCluster.System, c': Cluster, m': map<NodeId, Machine>, n: NodeId, capacity: nat)
    requires Held(k, c, m, capacity) && Stays(k, c, m, k', c', m', n)
    requires n in c'.nodes && Trusty(m'[n], k'.nodes[n], c'.nodes[n], capacity)
    ensures Held(k', c', m', capacity)
  {
    forall j | j in k'.nodes ensures j in c'.nodes && Trusty(m'[j], k'.nodes[j], c'.nodes[j], capacity) {
      if j != n {
        assert j in k.nodes && Trusty(m[j], k.nodes[j], c.nodes[j], capacity);
      }
    }
  }

  lemma NextStays(ks: seq<CompactedCluster.System>, cs: seq<Cluster>, vs: seq<CompactedCluster.Move>,
                  ms: seq<map<NodeId, Machine>>, capacity: nat, i: nat)
    requires Replicated(ks, cs, vs, ms, capacity) && i < |vs|
    ensures Stays(ks[i], cs[i], ms[i], ks[i + 1], cs[i + 1], ms[i + 1], vs[i].node)
  {
    assert Asked(0);
    assert Driven(ks, vs, ms, capacity, i);
    OthersStay(ks, cs, vs, i);
  }

  /** The node whose move it is, and its machine before and after; closed until asked for. */
  ghost predicate Moves(ks: seq<CompactedCluster.System>, cs: seq<Cluster>, vs: seq<CompactedCluster.Move>,
                        ms: seq<map<NodeId, Machine>>, capacity: nat, i: nat)
    requires i < |vs| && |ks| == |cs| == |ms| == |vs| + 1
  {
    var n := vs[i].node;
    && n in ks[i].nodes && n in ks[i + 1].nodes && n in cs[i].nodes && n in cs[i + 1].nodes
    && n in ms[i] && n in ms[i + 1]
    && forall a: nat :: Asked(a) ==>
         && CompactedCluster.IsCompactedRun(ks, cs, vs)
         && Drives(ks[i], vs[i], ks[i + 1], ms[i][n], ms[i + 1][n], capacity)
  }

  lemma NextMoves(ks: seq<CompactedCluster.System>, cs: seq<Cluster>, vs: seq<CompactedCluster.Move>,
                  ms: seq<map<NodeId, Machine>>, capacity: nat, i: nat)
    requires Replicated(ks, cs, vs, ms, capacity) && i < |vs|
    ensures Moves(ks, cs, vs, ms, capacity, i)
  {
    assert Asked(0);
    assert Driven(ks, vs, ms, capacity, i);
    CompactedCluster.BesideRun(ks, cs, vs, i, vs[i].node);
    CompactedCluster.BesideRun(ks, cs, vs, i + 1, vs[i].node);
  }

  lemma MoverTrusty(ks: seq<CompactedCluster.System>, cs: seq<Cluster>, vs: seq<CompactedCluster.Move>,
                    ms: seq<map<NodeId, Machine>>, capacity: nat, i: nat)
    requires i < |vs| && |ks| == |cs| == |ms| == |vs| + 1 && Moves(ks, cs, vs, ms, capacity, i)
    requires var n := vs[i].node; Trusty(ms[i][n], ks[i].nodes[n], cs[i].nodes[n], capacity)
    ensures var n := vs[i].node; Trusty(ms[i + 1][n], ks[i + 1].nodes[n], cs[i + 1].nodes[n], capacity)
  {
    var n := vs[i].node;
    assert Asked(0);
    MoverHolds(ks, cs, vs, i, ms[i][n], ms[i + 1][n], capacity);
  }

  lemma HeldNext(ks: seq<CompactedCluster.System>, cs: seq<Cluster>, vs: seq<CompactedCluster.Move>,
                 ms: seq<map<NodeId, Machine>>, capacity: nat, i: nat)
    requires Replicated(ks, cs, vs, ms, capacity) && i < |vs| && Held(ks[i], cs[i], ms[i], capacity)
    ensures Held(ks[i + 1], cs[i + 1], ms[i + 1], capacity)
  {
    NextStays(ks, cs, vs, ms, capacity, i);
    NextMoves(ks, cs, vs, ms, capacity, i);
    MoverTrusty(ks, cs, vs, ms, capacity, i);
    HeldOn(ks[i], cs[i], ms[i], ks[i + 1], cs[i + 1], ms[i + 1], vs[i].node, capacity);
  }

  lemma {:induction false} HeldAlong(ks: seq<CompactedCluster.System>, cs: seq<Cluster>, vs: seq<CompactedCluster.Move>,
                                     ms: seq<map<NodeId, Machine>>, capacity: nat, i: nat)
    requires Replicated(ks, cs, vs, ms, capacity) && i < |ks| && Held(ks[0], cs[0], ms[0], capacity)
    ensures Held(ks[i], cs[i], ms[i], capacity)
    decreases i
  {
    if i > 0 {
      HeldAlong(ks, cs, vs, ms, capacity, i - 1);
      HeldNext(ks, cs, vs, ms, capacity, i - 1);
    }
  }

  lemma HeldRun(ks: seq<CompactedCluster.System>, cs: seq<Cluster>, vs: seq<CompactedCluster.Move>,
                ms: seq<map<NodeId, Machine>>, capacity: nat, i: nat)
    requires IsReplicatedRun(ks, cs, vs, ms, capacity) && i < |ks|
    ensures Held(ks[i], cs[i], ms[i], capacity)
  {
    HeldStart(ks, cs, vs, ms, capacity);
    HeldAlong(ks, cs, vs, ms, capacity, i);
  }

  // ----- the theorems --------------------------------------------------------------------------------

  /** Over every run, the snapshot a node keeps, sends and saves restores what the entries it
      stands for come to, and its machine is what the entries it has applied come to. */
  lemma SnapshotHoldsJobs(ks: seq<CompactedCluster.System>, cs: seq<Cluster>, vs: seq<CompactedCluster.Move>,
                          ms: seq<map<NodeId, Machine>>, capacity: nat, i: nat, n: NodeId)
    requires IsReplicatedRun(ks, cs, vs, ms, capacity) && i < |ks| && n in ks[i].nodes
    ensures n in cs[i].nodes && n in ms[i]
    ensures ks[i].nodes[n].logOffset <= ks[i].nodes[n].lastApplied <= |cs[i].nodes[n].log|
    ensures IsFold(RebuiltFrom(ks[i].nodes[n], capacity), cs[i].nodes[n].log[..ks[i].nodes[n].logOffset], capacity)
    ensures IsFold(ms[i][n], cs[i].nodes[n].log[..ks[i].nodes[n].lastApplied], capacity)
  {
    HeldRun(ks, cs, vs, ms, capacity, i);
    assert Asked(0);
  }

  /** The node rebuilt from its own snapshot and fed what its log holds up to x. */
  function Fed(s: RaftSpec.NodeState, x: nat, clock: seq<Time>, capacity: nat): Machine
    requires s.logOffset <= x <= s.logOffset + |s.log| && x - s.logOffset <= |clock|
  {
    ApplyAll(RebuiltFrom(s, capacity), Stamp(s.log[..x - s.logOffset], clock))
  }

  lemma HeldPart(s: RaftSpec.NodeState, u: RaftSpec.NodeState, x: nat)
    requires CompactedCluster.Beside(s, u) && s.logOffset <= x <= s.commitIndex
    ensures x - s.logOffset <= |s.log| && x <= |u.log| && s.log[..x - s.logOffset] == u.log[s.logOffset..x]
  {
    CompactedCluster.BesideEnds(s, u);
  }

  lemma FedIsFold(s: RaftSpec.NodeState, u: RaftSpec.NodeState, x: nat, clock: seq<Time>, capacity: nat)
    requires s.logOffset <= x <= |u.log| && x - s.logOffset <= |s.log| && x - s.logOffset <= |clock|
    requires s.log[..x - s.logOffset] == u.log[s.logOffset..x]
    requires IsFold(RebuiltFrom(s, capacity), u.log[..s.logOffset], capacity)
    ensures IsFold(Fed(s, x, clock, capacity), u.log[..x], capacity)
  {
    FoldReaches(RebuiltFrom(s, capacity), u.log, s.logOffset, x, clock, capacity);
  }

  lemma FedInRun(ks: seq<CompactedCluster.System>, cs: seq<Cluster>, vs: seq<CompactedCluster.Move>,
                 ms: seq<map<NodeId, Machine>>, capacity: nat, i: nat, n: NodeId, x: nat, clock: seq<Time>)
    requires IsReplicatedRun(ks, cs, vs, ms, capacity) && i < |ks| && n in ks[i].nodes
    requires ks[i].nodes[n].logOffset <= x <= ks[i].nodes[n].commitIndex && x - ks[i].nodes[n].logOffset <= |clock|
    ensures n in cs[i].nodes && x - ks[i].nodes[n].logOffset <= |ks[i].nodes[n].log| && x <= |cs[i].nodes[n].log|
    ensures IsFold(Fed(ks[i].nodes[n], x, clock, capacity), cs[i].nodes[n].log[..x], capacity)
  {
    SnapshotHoldsJobs(ks, cs, vs, ms, capacity, i, n);
    CompactedCluster.BesideRun(ks, cs, vs, i, n);
    HeldPart(ks[i].nodes[n], cs[i].nodes[n], x);
    FedIsFold(ks[i].nodes[n], cs[i].nodes[n], x, clock, capacity);
  }

  lemma SamePrefix(ks: seq<CompactedCluster.System>, cs: seq<Cluster>, vs: seq<CompactedCluster.Move>,
                   i: nat, j: nat, a: NodeId, b: NodeId, x: nat)
    requires CompactedCluster.IsCompactedRun(ks, cs, vs) && i <= j < |ks| && a in ks[i].nodes && b in ks[j].nodes
    requires x <= ks[i].nodes[a].commitIndex && x <= ks[j].nodes[b].commitIndex
    ensures a in cs[i].nodes && b in cs[j].nodes && Agree(cs[i].nodes[a].log, cs[j].nodes[b].log, x)
    ensures cs[i].nodes[a].log[..x] == cs[j].nodes[b].log[..x]
  {
    CompactedCluster.CommittedAlike(ks, cs, vs, i, j, a, b, x);
  }

  /** Any two nodes of a compacting cluster, at any two moments, each rebuilt from the snapshot it
      keeps and fed what its log still holds of the first x committed entries, have the same
      jobs, up to the time a cancellation was seen, and the same workers. */
  lemma ReplicasAgree(ks: seq<CompactedCluster.System>, cs: seq<Cluster>, vs: seq<CompactedCluster.Move>,
                      ms: seq<map<NodeId, Machine>>, capacity: nat, i: nat, j: nat, a: NodeId, b: NodeId, x: nat,
                      clock: seq<Time>, clock': seq<Time>)
    requires IsReplicatedRun(ks, cs, vs, ms, capacity) && i <= j < |ks| && a in ks[i].nodes && b in ks[j].nodes
    requires ks[i].nodes[a].logOffset <= x <= ks[i].nodes[a].commitIndex && x - ks[i].nodes[a].logOffset <= |clock|
    requires ks[j].nodes[b].logOffset <= x <= ks[j].nodes[b].commitIndex && x - ks[j].nodes[b].logOffset <= |clock'|
    ensures x - ks[i].nodes[a].logOffset <= |ks[i].nodes[a].log| && x - ks[j].nodes[b].logOffset <= |ks[j].nodes[b].log|
    ensures Alike(Fed(ks[i].nodes[a], x, clock, capacity), Fed(ks[j].nodes[b], x, clock', capacity))
  {
    FedInRun(ks, cs, vs, ms, capacity, i, a, x, clock);
    FedInRun(ks, cs, vs, ms, capacity, j, b, x, clock');
    SamePrefix(ks, cs, vs, i, j, a, b, x);
    FoldsAlike(Fed(ks[i].nodes[a], x, clock, capacity), Fed(ks[j].nodes[b], x, clock', capacity),
               cs[i].nodes[a].log[..x], capacity);
  }

  /** Machines that have applied as many entries agree, whatever their nodes went through. */
  lemma MachinesAgree(ks: seq<CompactedCluster.System>, cs: seq<Cluster>, vs: seq<CompactedCluster.Move>,
                      ms: seq<map<NodeId, Machine>>, capacity: nat, i: nat, j: nat, a: NodeId, b: NodeId)
    requires IsReplicatedRun(ks, cs, vs, ms, capacity) && i <= j < |ks| && a in ks[i].nodes && b in ks[j].nodes
    requires ks[i].nodes[a].lastApplied == ks[j].nodes[b].lastApplied
    ensures a in ms[i] && b in ms[j] && Alike(ms[i][a], ms[j][b])
  {
    SnapshotHoldsJobs(ks, cs, vs, ms, capacity, i, a);
    SnapshotHoldsJobs(ks, cs, vs, ms, capacity, j, b);
    CompactedCluster.IndexChain(ks, cs, vs, i, a);
    CompactedCluster.IndexChain(ks, cs, vs, j, b);
    SamePrefix(ks, cs, vs, i, j, a, b, ks[i].nodes[a].lastApplied);
    FoldsAlike(ms[i][a], ms[j][b], cs[i].nodes[a].log[..ks[i].nodes[a].lastApplied], capacity);
  }

  // ----- snapshots sent to others --------------------------------------------------------------------

  lemma InstalledSnapshot(s: RaftSpec.NodeState, req: InstallRequest)
    requires req.term >= s.currentTerm && req.snapshot.lastIncludedIndex > s.logOffset
    ensures RaftSpec.HandleInstallSnapshot(s, req).snapshot == Some(req.snapshot)
    ensures RaftSpec.HandleInstallSnapshot(s, req).logOffset == req.snapshot.lastIncludedIndex
  {
  }

  /** A node that installs the snapshot its leader sends is rebuilt to what the leader's own
      entries up to the offset come to. */
  lemma InstalledHoldsJobs(ks: seq<CompactedCluster.System>, cs: seq<Cluster>, vs: seq<CompactedCluster.Move>,
                           ms: seq<map<NodeId, Machine>>, capacity: nat, i: nat, l: NodeId, f: NodeId,
                           req: InstallRequest, t: RaftSpec.NodeState)
    requires IsReplicatedRun(ks, cs, vs, ms, capacity) && i < |ks| && l in ks[i].nodes
    requires RaftSpec.Replication(ks[i].nodes[l], l, f) == RaftSpec.SendSnapshot(req)
    requires req.term >= t.currentTerm && req.snapshot.lastIncludedIndex > t.logOffset
    ensures var t' := RaftSpec.HandleInstallSnapshot(t, req);
            && l in cs[i].nodes && t'.logOffset == ks[i].nodes[l].logOffset <= |cs[i].nodes[l].log|
            && RebuiltFrom(t', capacity) == RebuiltFrom(ks[i].nodes[l], capacity)
            && IsFold(RebuiltFrom(t', capacity), cs[i].nodes[l].log[..t'.logOffset], capacity)
  {
    SnapshotHoldsJobs(ks, cs, vs, ms, capacity, i, l);
    InstalledSnapshot(t, req);
    CompactedCluster.BesideRun(ks, cs, vs, i, l);
  }

  /** The same job but for its times, cut to the millisecond, and an empty image. */
  ghost predicate Near(sent: Job, got: Job) {
    && got.id == sent.id && got.command == sent.command && got.status == sent.status
    && got.assignedWorker == sent.assignedWorker && got.executedBy == sent.executedBy && got.exitCode == sent.exitCode
    && WireFields.CutToMillis(sent.createdAt, got.createdAt)
    && WireFields.SameOrCut(sent.completedAt, got.completedAt) && WireFields.SameImage(sent.image, got.image)
  }

  ghost predicate NearQueues(sent: Queue, got: Queue) {
    && got.maxJobs == sent.maxJobs && got.jobs.Keys == sent.jobs.Keys
    && forall id :: id in sent.jobs ==> Near(sent.jobs[id], got.jobs[id])
  }

  lemma NearAdds(q: Queue, q': Queue, job: Job, job': Job)
    requires NearQueues(q, q') && Near(job, job')
    ensures NearQueues(q.AddJob(job), q'.AddJob(job'))
  {
    assert q.ActiveIds() == q'.ActiveIds();
  }

  lemma {:induction false} RebuiltNear(sent: seq<SnapshotJob>, got: seq<SnapshotJob>, capacity: nat)
    requires |got| == |sent| && forall i :: 0 <= i < |sent| ==> WireFields.SameSnapshotJob(sent[i], got[i])
    ensures NearQueues(Rebuild(sent, capacity), Rebuild(got, capacity))
  {
    if sent != [] {
      var n := |sent| - 1;
      RebuiltNear(sent[..n], got[..n], capacity);
      NearAdds(Rebuild(sent[..n], capacity), Rebuild(got[..n], capacity), FromSnapshot(sent[n]), FromSnapshot(got[n]));
    }
  }

  /** Through the wire, too: every job of the sender's snapshot, with its times cut. */
  lemma InstalledOverWire(c: Wire.Codec, s: RaftSpec.NodeState, id: NodeId, f: NodeId, req: InstallRequest,
                          t: RaftSpec.NodeState, capacity: nat)
    requires c.Valid() && RaftSpec.Replication(s, id, f) == RaftSpec.SendSnapshot(req)
    requires forall i :: 0 <= i < |req.snapshot.jobs| ==> Wire.JobFits(c, req.snapshot.jobs[i])
    requires req.term >= t.currentTerm && req.snapshot.lastIncludedIndex > t.logOffset
    ensures var t' := RaftSpec.HandleInstallSnapshot(t, Wire.DecodeInstall(c, Wire.EncodeInstall(c, req)));
            && NearQueues(RebuiltFrom(s, capacity).queue, RebuiltFrom(t', capacity).queue)
            && RebuiltFrom(t', capacity).workers == RebuiltFrom(s, capacity).workers
  {
    WireFields.SnapshotArrives(c, req);
    InstalledSnapshot(t, Wire.DecodeInstall(c, Wire.EncodeInstall(c, req)));
    RebuiltNear(req.snapshot.jobs, Wire.DecodeInstall(c, Wire.EncodeInstall(c, req)).snapshot.jobs, capacity);
  }
}
