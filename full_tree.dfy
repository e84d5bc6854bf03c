/**
 A complete merge history: n samples joined by n - 1 merges into one tree.
 The last merge then holds every sample.
 */
module FullTree {
  import opened MergeTree

  /** Number of child slots among the first k merges that hold `id`. */
  function Uses(children: seq<Merge>, k: nat, id: int): (r: nat)
    requires k <= |children|
    ensures r <= 2 * k
  {
    if k == 0 then 0
    else
      Uses(children, k - 1, id)
      + (if children[k - 1].left == id then 1 else 0)
      + (if children[k - 1].right == id then 1 else 0)
  }

  /** The merges form one agglomerative tree over n samples: n - 1 merges in
      construction order, ids non-negative, and every node but the last merge
      joined exactly once. */
  predicate IsFullTree(children: seq<Merge>, n: nat)
  {
    && n >= 2
    && |children| == n - 1
    && WellFormed(children, n)
    && (forall i :: 0 <= i < |children| ==> 0 <= children[i].left && 0 <= children[i].right)
    && (forall id :: 0 <= id < n + |children| - 1 ==> Uses(children, |children|, id) == 1)
  }

  /** Total size of the nodes with id below m that none of the first k merges
      has joined: the roots of the forest built so far. */
  function RootSum(children: seq<Merge>, n: nat, k: nat, m: nat): int
    requires WellFormed(children, n) && k <= |children| && m <= n + |children|
  {
    if m == 0 then 0
    else
      RootSum(children, n, k, m - 1)
      + (if Uses(children, k, m - 1) == 0 then Size(children, n, m - 1) else 0)
  }

  /** Before any merge, the roots are the n samples. */
  lemma {:induction false} RootSumOfLeaves(children: seq<Merge>, n: nat, m: nat)
    requires WellFormed(children, n) && m <= n
    ensures RootSum(children, n, 0, m) == m
  {
    if m > 0 {
      RootSumOfLeaves(children, n, m - 1);
    }
  }

  /** No merge among the first k joins an id at or above n + k - 1. */
  lemma {:induction false} UnusedAbove(children: seq<Merge>, n: nat, k: nat, id: int)
    requires WellFormed(children, n) && k <= |children| && n + k - 1 <= id
    ensures Uses(children, k, id) == 0
  {
    if k > 0 {
      UnusedAbove(children, n, k - 1, id);
    }
  }

  /** Uses only grow with the number of merges looked at. */
  lemma {:induction false} UsesMonotone(children: seq<Merge>, k: nat, id: int)
    requires k <= |children|
    ensures Uses(children, k, id) <= Uses(children, |children|, id)
    decreases |children| - k
  {
    if k < |children| {
      UsesMonotone(children, k + 1, id);
    }
  }

  /** Merge k takes its two children out of the forest's roots. */
  lemma {:induction false} RootSumJoin(children: seq<Merge>, n: nat, k: nat, m: nat)
    requires WellFormed(children, n) && k < |children| && m <= n + |children|
    requires children[k].left != children[k].right
    requires Uses(children, k, children[k].left) == 0 && Uses(children, k, children[k].right) == 0
    requires 0 <= children[k].left && 0 <= children[k].right
    ensures var a, b := children[k].left, children[k].right;
      RootSum(children, n, k + 1, m)
      + (if a < m then Size(children, n, a) else 0)
      + (if b < m then Size(children, n, b) else 0)
      == RootSum(children, n, k, m)
  {
    if m > 0 {
      RootSumJoin(children, n, k, m - 1);
    }
  }

  /** Once every node below m has been joined, no root is left below m. */
  lemma {:induction false} RootSumAllJoined(children: seq<Merge>, n: nat, m: nat)
    requires WellFormed(children, n) && m <= n + |children|
    requires forall id :: 0 <= id < m ==> Uses(children, |children|, id) >= 1
    ensures RootSum(children, n, |children|, m) == 0
  {
    if m > 0 {
      RootSumAllJoined(children, n, m - 1);
    }
  }

  /** After k merges of a full tree the roots still hold all n samples. */
  lemma {:induction false} RootSumInvariant(children: seq<Merge>, n: nat, k: nat)
    requires IsFullTree(children, n) && k <= |children|
    ensures RootSum(children, n, k, n + k) == n
  {
    if k == 0 {
      RootSumOfLeaves(children, n, n);
    } else {
      var j := k - 1;
      RootSumInvariant(children, n, j);
      var a, b := children[j].left, children[j].right;
      UsesMonotone(children, k, a);
      UsesMonotone(children, k, b);
      assert Uses(children, j, a) == 0 && Uses(children, j, b) == 0 && a != b;
      RootSumJoin(children, n, j, n + j);
      UnusedAbove(children, n, k, n + j);
    }
  }

  /** The last merge of a full tree counts every one of the n samples. */
  lemma RootHoldsAllSamples(children: seq<Merge>, n: nat)
    requires IsFullTree(children, n)
    ensures Size(children, n, n + |children| - 1) == n
  {
    var last := n + |children| - 1;
    RootSumInvariant(children, n, |children|);
    RootSumAllJoined(children, n, last);
    UnusedAbove(children, n, |children|, last);
  }

  /** The counts pass gives the last merge of a full tree the count n. */
  lemma RootCountIsSampleCount(children: seq<Merge>, n: nat)
    requires IsFullTree(children, n)
    ensures Accumulate(children, n)[|children| - 1] == n
  {
    RootHoldsAllSamples(children, n);
    AccumulateIsSize(children, n, |children| - 1);
  }
}
