/**
 Labels for the segments of a stacked bar chart: each segment is labelled
 with its height, and a segment whose height is not strictly positive gets
 an empty label.
 */
module StackedBarLabels {

  /** A segment's label: empty, or the segment's height. */
  datatype Label = Blank | Height(value: real)

  /** The labels for one container, one per segment and in the segments'
      order. */
  function ContainerLabels(heights: seq<real>): (labels: seq<Label>)
    ensures |labels| == |heights|
    ensures forall i :: 0 <= i < |heights| ==>
      (labels[i] == Blank <==> heights[i] <= 0.0) &&
      (labels[i] == Height(heights[i]) <==> heights[i] > 0.0)
  {
    seq(|heights|, i requires 0 <= i < |heights| =>
      if heights[i] > 0.0 then Height(heights[i]) else Blank)
  }

  /** The heights that are shown, in order. */
  function Shown(labels: seq<Label>): seq<real>
  {
    if labels == [] then []
    else (if labels[0].Height? then [labels[0].value] else []) + Shown(labels[1..])
  }

  /** The strictly positive heights, in order. */
  function Positive(heights: seq<real>): seq<real>
  {
    if heights == [] then []
    else (if heights[0] > 0.0 then [heights[0]] else []) + Positive(heights[1..])
  }

  /** Exactly the strictly positive heights are shown, in the segments' order. */
  lemma {:induction false} ShownArePositive(heights: seq<real>)
    ensures Shown(ContainerLabels(heights)) == Positive(heights)
  {
    if heights != [] {
      var labels := ContainerLabels(heights);
      assert labels[1..] == ContainerLabels(heights[1..]);
      ShownArePositive(heights[1..]);
    }
  }

  /** The labelling pass over an axis: for each container, in order, the
      labels passed to the routine that writes them centred in the segments. */
  method LabelStackedBarChart(containers: seq<seq<real>>) returns (calls: seq<seq<Label>>)
    ensures |calls| == |containers|
    ensures forall k :: 0 <= k < |containers| ==> calls[k] == ContainerLabels(containers[k])
  {
    calls := [];
    for c := 0 to |containers|
      invariant |calls| == c
      invariant forall k :: 0 <= k < c ==> calls[k] == ContainerLabels(containers[k])
    {
      var labels := ContainerLabels(containers[c]);
      calls := calls + [labels];
    }
  }
}
