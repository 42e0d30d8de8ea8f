/** The commit rule of the leader, stated without sorting: the largest index
    that at least n - n/2 of the n nodes are known to hold. */
module CommitRule {
  import opened Types

  /** Peers whose recorded match index reaches k. */
  ghost function Holders(matches: map<NodeId, nat>, k: nat): set<NodeId> {
    set p | p in matches && matches[p] >= k
  }

  /** Number of nodes, the leader included, that reach index k. */
  ghost function HeldBy(matches: map<NodeId, nat>, own: nat, k: nat): nat {
    |Holders(matches, k)| + if own >= k then 1 else 0
  }

  /** Size of the set of nodes that the sorted pick guarantees. */
  function CommitQuorum(n: nat): nat { n - n / 2 }

  function VoteQuorum(n: nat): nat { n / 2 + 1 }

  ghost predicate IsCommitPoint(matches: map<NodeId, nat>, own: nat, k: nat) {
    && HeldBy(matches, own, k) >= CommitQuorum(|matches| + 1)
    && forall j: nat :: j > k ==> HeldBy(matches, own, j) < CommitQuorum(|matches| + 1)
  }

  ghost function CommitPoint(matches: map<NodeId, nat>, own: nat): nat {
    if exists k: nat :: IsCommitPoint(matches, own, k) then
      var k: nat :| IsCommitPoint(matches, own, k); k
    else 0
  }

  lemma CommitPointUnique(matches: map<NodeId, nat>, own: nat, k: nat)
    requires IsCommitPoint(matches, own, k)
    ensures CommitPoint(matches, own) == k
  {
    var p := CommitPoint(matches, own);
    assert IsCommitPoint(matches, own, p);
  }

  // ----- the rule as the code computes it ------------------------------------------

  function CountAtLeast(values: seq<nat>, k: nat): (c: nat)
    ensures c <= |values|
  {
    if values == [] then 0
    else CountAtLeast(values[1..], k) + if values[0] >= k then 1 else 0
  }

  predicate Ascending(values: seq<nat>) {
    forall i, j :: 0 <= i < j < |values| ==> values[i] <= values[j]
  }

  function Insert(values: seq<nat>, x: nat): (r: seq<nat>)
    ensures |r| == |values| + 1
    ensures forall y :: y in r ==> y == x || y in values
  {
    if values == [] || x <= values[0] then [x] + values
    else [values[0]] + Insert(values[1..], x)
  }

  lemma {:induction false} InsertKeepsOrder(values: seq<nat>, x: nat)
    requires Ascending(values)
    ensures Ascending(Insert(values, x))
  {
    if values != [] && x > values[0] {
      InsertKeepsOrder(values[1..], x);
      var rest := Insert(values[1..], x);
      forall i | 0 <= i < |rest|
        ensures values[0] <= rest[i]
      {
        assert rest[i] in rest;
      }
    }
  }

  lemma {:induction false} InsertCounts(values: seq<nat>, x: nat, k: nat)
    ensures CountAtLeast(Insert(values, x), k) == CountAtLeast(values, k) + if x >= k then 1 else 0
  {
    if values != [] && x > values[0] {
      InsertCounts(values[1..], x, k);
      assert Insert(values, x)[1..] == Insert(values[1..], x);
    } else {
      assert Insert(values, x)[1..] == values;
    }
  }

  lemma {:induction false} CountSplit(values: seq<nat>, i: nat, k: nat)
    requires i <= |values|
    ensures CountAtLeast(values, k) == CountAtLeast(values[..i], k) + CountAtLeast(values[i..], k)
  {
    if i == 0 {
      assert values[0..] == values;
    } else {
      CountSplit(values[1..], i - 1, k);
      assert values[..i][1..] == values[1..][..i - 1] && values[1..][i - 1..] == values[i..];
    }
  }

  lemma {:induction false} CountAll(values: seq<nat>, k: nat)
    requires forall i :: 0 <= i < |values| ==> values[i] >= k
    ensures CountAtLeast(values, k) == |values|
  {
    if values != [] {
      CountAll(values[1..], k);
    }
  }

  lemma {:induction false} CountNone(values: seq<nat>, k: nat)
    requires forall i :: 0 <= i < |values| ==> values[i] < k
    ensures CountAtLeast(values, k) == 0
  {
    if values != [] {
      CountNone(values[1..], k);
    }
  }

  /** The middle of the sorted list is the order statistic of the rule. */
  lemma MiddleCounts(sorted: seq<nat>, k: nat)
    requires Ascending(sorted) && sorted != []
    ensures CountAtLeast(sorted, sorted[|sorted| / 2]) >= CommitQuorum(|sorted|)
    ensures k > sorted[|sorted| / 2] ==> CountAtLeast(sorted, k) < CommitQuorum(|sorted|)
  {
    var m := |sorted| / 2;
    CountSplit(sorted, m, sorted[m]);
    CountAll(sorted[m..], sorted[m]);
    if k > sorted[m] {
      CountSplit(sorted, m + 1, k);
      CountNone(sorted[..m + 1], k);
    }
  }

  lemma OneMoreHolder(matches: map<NodeId, nat>, done: set<NodeId>, p: NodeId, values: seq<nat>, k: nat)
    requires p in matches && p !in done && CountAtLeast(values, k) == |HoldersIn(matches, done, k)|
    ensures CountAtLeast([matches[p]] + values, k) == |HoldersIn(matches, done + {p}, k)|
  {
    assert ([matches[p]] + values)[1..] == values;
    assert HoldersIn(matches, done + {p}, k) == HoldersIn(matches, done, k) + if matches[p] >= k then {p} else {};
  }

  /** The recorded match indices, in the order the map happens to yield them. */
  method MatchValues(matches: map<NodeId, nat>) returns (values: seq<nat>)
    ensures |values| == |matches|
    ensures forall k: nat :: CountAtLeast(values, k) == |Holders(matches, k)|
  {
    values := [];
    var rest := matches.Keys;
    ghost var done: set<NodeId> := {};
    assert forall k: nat :: HoldersIn(matches, done, k) == {};
    while rest != {}
      invariant done !! rest && done + rest == matches.Keys && |values| == |done|
      invariant forall k: nat :: CountAtLeast(values, k) == |HoldersIn(matches, done, k)|
      decreases rest
    {
      var p :| p in rest;
      forall k: nat
        ensures CountAtLeast([matches[p]] + values, k) == |HoldersIn(matches, done + {p}, k)|
      {
        OneMoreHolder(matches, done, p, values, k);
      }
      values := [matches[p]] + values;
      rest, done := rest - {p}, done + {p};
    }
    assert |matches| == |matches.Keys|;
    forall k: nat
      ensures CountAtLeast(values, k) == |Holders(matches, k)|
    {
      assert HoldersIn(matches, done, k) == Holders(matches, k);
    }
  }

  ghost function HoldersIn(matches: map<NodeId, nat>, among: set<NodeId>, k: nat): set<NodeId> {
    set p | p in matches && p in among && matches[p] >= k
  }

  method SortAscending(values: seq<nat>) returns (sorted: seq<nat>)
    ensures |sorted| == |values| && Ascending(sorted)
    ensures forall k: nat :: CountAtLeast(sorted, k) == CountAtLeast(values, k)
  {
    sorted := [];
    for i := 0 to |values|
      invariant |sorted| == i && Ascending(sorted)
      invariant forall k: nat :: CountAtLeast(sorted, k) == CountAtLeast(values[..i], k)
    {
      InsertKeepsOrder(sorted, values[i]);
      forall k: nat
        ensures CountAtLeast(Insert(sorted, values[i]), k) == CountAtLeast(values[..i + 1], k)
      {
        InsertCounts(sorted, values[i], k);
        CountSplit(values[..i + 1], i, k);
        assert values[..i + 1][..i] == values[..i] && values[..i + 1][i..] == [values[i]];
      }
      sorted := Insert(sorted, values[i]);
    }
    assert values[..|values|] == values;
  }

  /** Collect the match indices and the leader's own last index, sort, take the
      middle: the result is the largest index that CommitQuorum(n) nodes reach. */
  method PickCommit(matches: map<NodeId, nat>, own: nat) returns (k: nat)
    ensures IsCommitPoint(matches, own, k) && k == CommitPoint(matches, own)
  {
    var values := MatchValues(matches);
    var all := values + [own];
    var sorted := SortAscending(all);
    k := sorted[|sorted| / 2];
    forall j: nat
      ensures CountAtLeast(sorted, j) == HeldBy(matches, own, j)
    {
      CountSplit(all, |values|, j);
      assert all[..|values|] == values && all[|values|..] == [own];
    }
    forall j: nat
      ensures j > k ==> HeldBy(matches, own, j) < CommitQuorum(|matches| + 1)
    {
      MiddleCounts(sorted, j);
      assert CountAtLeast(sorted, j) == HeldBy(matches, own, j);
    }
    MiddleCounts(sorted, k);
    assert CountAtLeast(sorted, k) == HeldBy(matches, own, k);
    CommitPointUnique(matches, own, k);
  }

  // ----- which quorums meet ----------------------------------------------------------------

  /** Two sets of nodes that together outnumber the cluster share a node. */
  lemma QuorumsMeet(all: set<NodeId>, a: set<NodeId>, b: set<NodeId>) returns (v: NodeId)
    requires a <= all && b <= all && |a| + |b| > |all|
    ensures v in a && v in b
  {
    SubsetSize(a + b, all);
    assert |a + b| == |a| + |b| - |a * b|;
    v :| v in a * b;
  }

  /** A set of commit holders and a set of voters always share a node. */
  lemma CommitMeetsVote(all: set<NodeId>, holders: set<NodeId>, voters: set<NodeId>)
    requires holders <= all && |holders| >= CommitQuorum(|all|)
    requires voters <= all && |voters| >= VoteQuorum(|all|)
    ensures exists v :: v in holders && v in voters
  {
    var v := QuorumsMeet(all, holders, voters);
  }

  /** What the rule counts is a strict majority exactly in clusters of odd size. */
  lemma MajorityIffOdd(n: nat)
    ensures 2 * CommitQuorum(n) > n <==> n % 2 == 1
  {
  }
}
