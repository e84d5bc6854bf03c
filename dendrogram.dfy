/**
 The dendrogram's input: the per-merge sample counts, filled in place in
 construction order, and the four-column linkage matrix (two child ids, the
 merge distance, the sample count) handed to the dendrogram drawing routine.
 */
module Dendrogram {
  import opened MergeTree

  /** Fills one count per merge, starting from zeros and visiting the merges in
      construction order; each merge adds one per leaf child and the stored
      count of each internal child. In construction order every entry is the
      number of samples under its merge. */
  method SampleCounts(children: seq<Merge>, n: nat) returns (counts: array<int>)
    requires InRange(children, n)
    ensures fresh(counts)
    ensures counts.Length == |children|
    ensures counts[..] == Accumulate(children, n)
    ensures WellFormed(children, n) ==>
      forall i :: 0 <= i < counts.Length ==> counts[i] == Size(children, n, n + i) && counts[i] >= 2
  {
    counts := new int[|children|](_ => 0);
    for i := 0 to |children|
      invariant counts[..i] == Accumulate(children[..i], n)
      invariant forall k :: i <= k < counts.Length ==> counts[k] == 0
    {
      ghost var done := counts[..i];
      var merge := children[i];
      var current := 0;
      for j := 0 to 2
        invariant current == if j == 0 then 0 else if j == 1 then ChildCount(merge.left, n, done)
                             else MergeCount(merge, n, done)
      {
        var child := merge.Child(j);
        if child < n {
          current := current + 1;
        } else {
          current := current + counts[child - n];
        }
      }
      counts[i] := current;
      var upto := children[..i + 1];
      assert upto[..|upto| - 1] == children[..i];
      assert counts[..i + 1] == done + [current];
    }
    assert children[..|children|] == children;
    assert counts[..] == counts[..|children|];
    if WellFormed(children, n) {
      forall i | 0 <= i < counts.Length
        ensures counts[i] == Size(children, n, n + i)
      {
        AccumulateIsSize(children, n, i);
      }
    }
  }

  /** One row of the linkage matrix. The distance type is left abstract. */
  datatype LinkageRow<D> = LinkageRow(left: int, right: int, distance: D, count: int)

  /** Column-wise assembly of the linkage matrix: row i joins merge i's two
      child ids, its distance and its count. */
  function ColumnStack<D>(children: seq<Merge>, distances: seq<D>, counts: seq<int>): (rows: seq<LinkageRow<D>>)
    requires |distances| == |children| && |counts| == |children|
    ensures |rows| == |children|
    ensures forall i :: 0 <= i < |rows| ==>
      rows[i] == LinkageRow(children[i].left, children[i].right, distances[i], counts[i])
  {
    seq(|children|, i requires 0 <= i < |children| =>
      LinkageRow(children[i].left, children[i].right, distances[i], counts[i]))
  }

  /** The merge list read back from the first two columns. */
  function ChildColumns<D>(rows: seq<LinkageRow<D>>): seq<Merge>
  {
    seq(|rows|, i requires 0 <= i < |rows| => Merge(rows[i].left, rows[i].right))
  }

  /** The distances read back from the third column. */
  function DistanceColumn<D>(rows: seq<LinkageRow<D>>): seq<D>
  {
    seq(|rows|, i requires 0 <= i < |rows| => rows[i].distance)
  }

  /** The counts read back from the fourth column. */
  function CountColumn<D>(rows: seq<LinkageRow<D>>): seq<int>
  {
    seq(|rows|, i requires 0 <= i < |rows| => rows[i].count)
  }

  /** The matrix loses nothing: each column gives back what was stacked. */
  lemma ColumnStackRoundTrip<D>(children: seq<Merge>, distances: seq<D>, counts: seq<int>)
    requires |distances| == |children| && |counts| == |children|
    ensures var rows := ColumnStack(children, distances, counts);
      ChildColumns(rows) == children && DistanceColumn(rows) == distances && CountColumn(rows) == counts
  {
    var rows := ColumnStack(children, distances, counts);
    assert forall i :: 0 <= i < |rows| ==> ChildColumns(rows)[i] == children[i];
  }

  /** The matrix the dendrogram is drawn from: the counts pass followed by the
      column-wise assembly. Its fourth column is the number of samples under
      each merge whenever the merges are in construction order. */
  method LinkageMatrix<D>(children: seq<Merge>, distances: seq<D>, n: nat) returns (rows: seq<LinkageRow<D>>)
    requires InRange(children, n)
    requires |distances| == |children|
    ensures rows == ColumnStack(children, distances, Accumulate(children, n))
    ensures WellFormed(children, n) ==>
      forall i :: 0 <= i < |rows| ==> rows[i].count == Size(children, n, n + i)
  {
    var counts := SampleCounts(children, n);
    rows := ColumnStack(children, distances, counts[..]);
  }

  /** Four samples: (0, 1) and (2, 3) each hold two samples and the merge of
      those two clusters (ids 4 and 5) holds all four. */
  lemma FourSampleExample()
    ensures Accumulate([Merge(0, 1), Merge(2, 3), Merge(4, 5)], 4) == [2, 2, 4]
  {
    var children := [Merge(0, 1), Merge(2, 3), Merge(4, 5)];
    assert children[..2][..1] == [Merge(0, 1)];
    assert children[..2] == [Merge(0, 1), Merge(2, 3)];
  }
}
