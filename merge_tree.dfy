/**
 The merge history of an agglomerative clustering (one pair of child ids per
 merge) and the number of original samples under each merge.

 Node ids follow the clustering model's convention: with n samples, an id
 below n is an original sample (a leaf) and an id c >= n is the cluster made
 by merge c - n.
 */
module MergeTree {

  /** One row of the merge list: the ids of the two clusters joined. */
  datatype Merge = Merge(left: int, right: int) {
    /** The k-th id of the row, in the order the row lists them. */
    function Child(k: nat): int
      requires k < 2
    {
      if k == 0 then left else right
    }
  }

  /** Every internal child id names an entry of the counts array; a larger id
      makes the counts loop read past its end. */
  predicate InRange(children: seq<Merge>, n: nat)
  {
    forall i :: 0 <= i < |children| ==>
      children[i].left < n + |children| && children[i].right < n + |children|
  }

  /** Merges are listed in construction order: an internal child of merge i
      is a merge made before it. */
  predicate WellFormed(children: seq<Merge>, n: nat)
  {
    forall i :: 0 <= i < |children| ==>
      children[i].left < n + i && children[i].right < n + i
  }

  /** Number of original samples under node `id`: one for a leaf, the sizes
      of both children added for a merge. A merge holds at least two. */
  function Size(children: seq<Merge>, n: nat, id: int): (r: nat)
    requires WellFormed(children, n) && id < n + |children|
    ensures r >= 1
    ensures id < n <==> r == 1
    decreases if id < n then 0 else id - n + 1
  {
    if id < n then 1
    else
      var m := children[id - n];
      Size(children, n, m.left) + Size(children, n, m.right)
  }

  /** What child id `c` adds to a merge's count while `done` holds the counts
      of the merges already processed; the entries after them are still zero. */
  function ChildCount(c: int, n: nat, done: seq<int>): int
  {
    if c < n then 1
    else if c - n < |done| then done[c - n]
    else 0
  }

  /** The count one merge row receives, both children added up. */
  function MergeCount(m: Merge, n: nat, done: seq<int>): int
  {
    ChildCount(m.left, n, done) + ChildCount(m.right, n, done)
  }

  /** The counts array as the construction-order pass leaves it: one entry per
      merge, each computed from the entries before it. */
  function Accumulate(children: seq<Merge>, n: nat): (counts: seq<int>)
    ensures |counts| == |children|
  {
    if children == [] then []
    else
      var done := Accumulate(children[..|children| - 1], n);
      done + [MergeCount(children[|children| - 1], n, done)]
  }

  /** Processing later merges never changes the count of an earlier one. */
  lemma {:induction false} AccumulatePrefix(children: seq<Merge>, n: nat, k: nat)
    requires k <= |children|
    ensures Accumulate(children[..k], n) == Accumulate(children, n)[..k]
    decreases |children|
  {
    if k < |children| {
      var init := children[..|children| - 1];
      assert init[..k] == children[..k];
      AccumulatePrefix(init, n, k);
    } else {
      assert children[..k] == children;
    }
  }

  /** Entry i is merge i's count computed from the entries before it. */
  lemma AccumulateAt(children: seq<Merge>, n: nat, i: nat)
    requires i < |children|
    ensures var counts := Accumulate(children, n);
      counts[i] == MergeCount(children[i], n, counts[..i])
  {
    AccumulatePrefix(children, n, i + 1);
    AccumulatePrefix(children, n, i);
    var upto := children[..i + 1];
    assert upto[..|upto| - 1] == children[..i];
  }

  /** The cases of one merge's count: two leaves give 2, a leaf and an
      earlier merge give 1 plus that merge's count, two earlier merges give the
      sum of their counts. An id naming this merge or a later one (still inside
      the array) reads a zero entry, so it adds nothing to the other child's
      contribution. */
  lemma MergeCountCases(children: seq<Merge>, n: nat, i: nat)
    requires InRange(children, n) && i < |children|
    ensures var m, counts := children[i], Accumulate(children, n);
      && (m.left < n && m.right < n ==> counts[i] == 2)
      && (m.left < n && n <= m.right < n + i ==> counts[i] == 1 + counts[m.right - n])
      && (n <= m.left < n + i && m.right < n ==> counts[i] == counts[m.left - n] + 1)
      && (n <= m.left < n + i && n <= m.right < n + i ==>
            counts[i] == counts[m.left - n] + counts[m.right - n])
      && (m.left < n && n + i <= m.right ==> counts[i] == 1)
      && (n + i <= m.left && m.right < n ==> counts[i] == 1)
      && (n <= m.left < n + i && n + i <= m.right ==> counts[i] == counts[m.left - n])
      && (n + i <= m.left && n <= m.right < n + i ==> counts[i] == counts[m.right - n])
      && (n + i <= m.left && n + i <= m.right ==> counts[i] == 0)
  {
    AccumulateAt(children, n, i);
  }

  /** In construction order, every count is the number of samples under its
      merge. */
  lemma {:induction false} AccumulateIsSize(children: seq<Merge>, n: nat, i: nat)
    requires WellFormed(children, n) && i < |children|
    ensures Accumulate(children, n)[i] == Size(children, n, n + i)
    decreases i
  {
    AccumulateAt(children, n, i);
    var m := children[i];
    if n <= m.left {
      AccumulateIsSize(children, n, m.left - n);
    }
    if n <= m.right {
      AccumulateIsSize(children, n, m.right - n);
    }
  }

  /** In construction order, every merge counts at least two samples. */
  lemma CountsAtLeastTwo(children: seq<Merge>, n: nat, i: nat)
    requires WellFormed(children, n) && i < |children|
    ensures Accumulate(children, n)[i] >= 2
  {
    AccumulateIsSize(children, n, i);
  }
}
