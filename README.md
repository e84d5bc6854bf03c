# Dendrogram sample counts and stacked-bar labels

A Dafny model of the logic in `helper_functions.py`, a set of plotting
helpers for a hierarchical-clustering analysis:

- `plot_dendrogram` turns the merge history of an agglomerative clustering
  into a linkage matrix. It takes the merge list (one pair of child ids per
  merge), the merge distances and the number of samples `n`. A child id below
  `n` is an original sample; an id `c >= n` is the cluster made by merge
  `c - n`. It fills one count per merge in construction order. Each merge adds
  one per leaf child and the stored count of each internal child. It then
  stacks the child ids, distances and counts into a four-column matrix, the
  linkage format of SciPy's `scipy.cluster.hierarchy`.
- `add_label_stacked_bar_chart` labels each segment of every container of a
  stacked bar chart with its height. A segment whose height is not strictly
  positive gets an empty label.

Files:

- `merge_tree.dfy` (module `MergeTree`): the merge rows, two predicates and
  two specifications. `InRange` says every id fits the counts array.
  `WellFormed` says merges are listed in construction order. `Size` is the
  number of samples under a node, defined recursively. `Accumulate` is the
  counts array as the construction-order pass leaves it.
- `full_tree.dfy` (module `FullTree`): a complete tree of `n - 1` merges gives
  its last merge the count `n`.
- `dendrogram.dfy` (module `Dendrogram`): the in-place counts loop on an
  array, and the linkage-matrix assembly.
- `stacked_bar.dfy` (module `StackedBarLabels`): the segment label rule.

A merge row that names itself or a later merge (`n + i <= c < n + M`, with
`M` merges) does not raise at helper_functions.py:83. It reads that entry,
which is still the zero from `np.zeros` at line 75. `Accumulate` and
`Dendrogram.SampleCounts` follow the code and need only `InRange`, and
`MergeCountCases` states the zero read. The equality with the recursive `Size`
is proved under `WellFormed`.

## Model

| member | source | states |
|---|---|---|
| `MergeTree.Size` | helper_functions.py:74-84 | a leaf counts one sample; a merge counts at least two (a node has size 1 exactly when it is a leaf) |
| `MergeTree.Accumulate` | helper_functions.py:75-84 | the counts pass yields exactly one entry per merge |
| `MergeTree.AccumulatePrefix` | helper_functions.py:77-84 | processing later merges never changes an earlier merge's count |
| `MergeTree.AccumulateAt` | helper_functions.py:79-84 | count i is the sum of its two children's contributions, reading only the entries before i |
| `MergeTree.MergeCountCases` | helper_functions.py:79-84 | two leaves give 2; a leaf and earlier merge c give 1 + counts[c - n]; two earlier merges give the sum of their counts; an id naming this or a later merge (inside the array) adds zero, so the count is the other child's contribution alone |
| `MergeTree.AccumulateIsSize` | helper_functions.py:74-84 | in construction order, count i equals the number of samples in merge i's subtree |
| `MergeTree.CountsAtLeastTwo` | helper_functions.py:74-84 | in construction order, every count is at least 2 |
| `FullTree.RootHoldsAllSamples` | helper_functions.py:74-84 | in a full tree (n - 1 merges, every other node joined once), the last merge's subtree holds n samples |
| `FullTree.RootCountIsSampleCount` | helper_functions.py:74-84 | for a full tree, the counts pass gives the last merge the count n |
| `Dendrogram.SampleCounts` | helper_functions.py:75-84 | the in-place loop over a new zero-initialised array yields one entry per merge, equal to the construction-order counts; in construction order each entry is the subtree's sample count and at least 2 |
| `Dendrogram.ColumnStack` | helper_functions.py:86-88 | one row per merge; row i is (left child id, right child id, distance i, count i) |
| `Dendrogram.ColumnStackRoundTrip` | helper_functions.py:86-88 | each matrix column gives back the stacked input: the merge list, the distances, the counts |
| `Dendrogram.LinkageMatrix` | helper_functions.py:74-88 | the matrix is the column stack of the merges, the distances and the counts; in construction order its fourth column is each merge's subtree size |
| `Dendrogram.FourSampleExample` | helper_functions.py:74-88 | four samples merged as (0,1), (2,3), (4,5) get counts 2, 2, 4 |
| `StackedBarLabels.ContainerLabels` | helper_functions.py:33 | one label per segment, in order; the label is the height exactly when the height is > 0, and empty exactly when it is <= 0 |
| `StackedBarLabels.ShownArePositive` | helper_functions.py:33 | the heights that are shown are exactly the strictly positive heights, in segment order |
| `StackedBarLabels.LabelStackedBarChart` | helper_functions.py:30-36 | one labelling call per container, in order, each with that container's label list |

## Left out

- `add_labels_top_of_barchart` (helper_functions.py:3-18): rounding floats to two decimals and drawing text through the plotting library. This is floating-point formatting and a foreign call.
- The plotting calls themselves: writing labels into the chart (helper_functions.py:36) and drawing the dendrogram (helper_functions.py:91). `LabelStackedBarChart` returns the label lists it would pass, in order, instead of drawing them.
- The clustering model object, the `labels` argument and the extra display options (helper_functions.py:43). The merge list, the distances and the sample count `n` are explicit parameters.
- The `.astype(float)` conversion (helper_functions.py:88) and the float storage of the counts array. Distances are an abstract type `D`. Counts are unbounded integers, which float64 holds exactly below 2^53.
- `Dendrogram.SampleCounts`: a child id at or beyond `n + M` makes the source raise an index error. The model excludes it with the `InRange` precondition rather than modelling the error. `MergeTree.MergeCountCases` carries the same precondition.
- `Dendrogram.LinkageMatrix`: distances of a different length than the merge list make the column stacking raise. The model excludes it with a precondition.
- Segment heights are reals. NaN heights are not modelled; the source gives them an empty label, because NaN > 0 is false.
