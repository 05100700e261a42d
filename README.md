# Two-column layout classifier

A Dafny model of the page-layout classifier in `visualizer-test.py`. The classifier takes one
layout region of a scanned page: the layout's bounding box and the bounding boxes of the text
lines inside it. It decides whether the text is set in two columns. It works in five steps:

1. It rejects layouts that are missing data or are smaller than 200 x 300 px.
2. It drops "spanning" boxes such as titles and full-width headers.
3. It sorts the remaining boxes by horizontal centre.
4. It looks for the widest jump between consecutive centres inside the central half of the layout (the gutter).
5. It splits the boxes there and checks that the two groups look like real typeset columns. The right group's median start may reach at most 20 px left of the left group's median end. Each group must be tall enough, and the two must overlap vertically.

The model also covers the legacy same-row heuristic that ships beside the classifier. That is
`in_same_level` and `find_min_width`.

Modules, in dependency order:

- `Wrappers`: `Option`.
- `Thresholds`: the named constants of lines 10-30 and the literal 200 px minimum width of line 79.
- `Geometry`: the box, the layout (`None` for a missing or null key), widths, heights, centres, `Min`, `Max`, `Abs`, and the ratio-to-cross-multiplication lemmas.
- `Stats`: min, max, an integer sort and the median, as numpy's `median` computes it.
- `Spanning`: `_is_likely_spanning_box`, the order-preserving filter and the loop that builds `non_spanning_boxes`.
- `Gutters`: the centred boxes and their loop, Python's stable sort by centre, the gutter candidates and their loop, and the first-maximum choice made by `max(key=...)`.
- `Columns`: the validation tail of lines 138-177.
- `TwoColumn`:
  - `FindSplit`, the specification function of the whole pipeline up to the split;
  - `IsTwoColumn`, the verdict;
  - the method `DetectTwoColumns`, which runs the three accumulation loops as the source does and is proved equal to `IsTwoColumn`;
  - the properties of the pipeline.
- `SameLevel`: `in_same_level` and the pair loop of `find_min_width`.
- `Scenarios`: concrete 1000 x 800 pages worked through the whole pipeline:
  - two columns of two boxes each, with one parameter, the vertical shift of the right column;
  - a page with two equally wide gaps whose mirror image gets the opposite verdict, with `MirrorBox` and `MirrorLayout` reflecting a page about its vertical centre line.

Arithmetic is exact. Centres, gutter midpoints and medians are `real`. The threshold tests
are written as the source writes them. The tests at lines 47 and 174 are divisions. The search
band at lines 113-114 and the height test at lines 163-164 are products. Lemmas show that each
test equals an integer comparison, e.g. `10 * box_width > 7 * layout_width`.

For a zero-width layout, lines 43-44 return `False` before either rule is applied, so the
700 px rule is skipped too. The model does the same.

Mirroring a page about its vertical centre line need not keep the verdict. When several gaps
tie for the widest, the first one wins (line 128). Mirroring turns the leftmost such gap into
the rightmost. `Scenarios.MirrorChangesVerdict` gives a page that is two-column while its
mirror image is not.

## Model

| member | source | states |
|---|---|---|
| Geometry.Width | visualizer-test.py:40-41 | a box's x_end - x_start, as the spanning test and the layout checks compute it |
| Geometry.Height | visualizer-test.py:77 | a box's y_end - y_start |
| Geometry.XCenter | visualizer-test.py:96 | the exact horizontal centre (x_start + x_end) / 2 |
| Geometry.YCenter | visualizer-test.py:187-188 | the exact vertical centre (y_start + y_end) / 2 |
| Geometry.Min | visualizer-test.py:168-169 | Python's two-argument `min` on integers |
| Geometry.Max | visualizer-test.py:168 | Python's two-argument `max` on integers |
| Geometry.Abs | visualizer-test.py:189 | Python's `abs`, here of the difference of the two y-centres |
| Spanning.IsSpanning | visualizer-test.py:33-54 | false when the layout width is 0; for a positive layout width, true exactly when 10 * box width > 7 * layout width or the box is wider than 700 px; for a negative layout width the ratio test turns around (10 * box width < 7 * layout width) |
| Spanning.SpanningRatio | visualizer-test.py:47 | the ratio test box width / layout width > 0.7 is 10 * box width > 7 * layout width over a positive width and 10 * box width < 7 * layout width over a negative one |
| Spanning.SpanningReadsOnlyX | visualizer-test.py:37-41 | the verdict depends only on the x-coordinates of the box and of the layout |
| Spanning.NonSpanning | visualizer-test.py:83-86 | the text boxes that are not spanning, in input order; its properties are the lemmas below |
| Spanning.NonSpanningAppend | visualizer-test.py:83-86 | filtering a concatenation is the concatenation of the filtered parts |
| Spanning.NonSpanningCounts | visualizer-test.py:83-86 | every non-spanning box keeps its number of occurrences; every spanning box has none |
| Spanning.NonSpanningMembers | visualizer-test.py:83-86 | every kept box comes from the input and is not spanning |
| Spanning.NonSpanningKeepsAll | visualizer-test.py:83-86 | when no box is spanning the filter returns its input unchanged |
| Spanning.RemoveSpanningBox | visualizer-test.py:83-86 | deleting a spanning box from the input leaves the filtered list unchanged |
| Spanning.CollectNonSpanning | visualizer-test.py:83-86 | the append loop yields exactly the order-preserving filter of the input |
| Gutters.Centres | visualizer-test.py:94-97 | each box paired with its exact centre (x_start + x_end) / 2, in input order |
| Gutters.Boxes | visualizer-test.py:134-135 | the boxes of a list of centred boxes, in order |
| Gutters.CollectCentres | visualizer-test.py:94-97 | one entry per box, in order, carrying the box and its centre (x_start + x_end) / 2 |
| Gutters.BoxesOfCentres | visualizer-test.py:94-97 | dropping the centres gives back the boxes |
| Gutters.CentresStayLabelled | visualizer-test.py:96-100 | in any rearrangement of the centred boxes, the sorted list included, every entry's centre is its own box's centre |
| Gutters.InsertByCx | visualizer-test.py:100 | insertion of one entry before the first entry whose centre is not smaller, so equal centres keep their input order |
| Gutters.SortByCx | visualizer-test.py:100 | Python's stable sort by centre, as an insertion sort |
| Gutters.InsertByCxSorted | visualizer-test.py:100 | inserting into a sequence sorted by centre keeps it sorted and adds exactly the new entry |
| Gutters.SortByCxSorted | visualizer-test.py:100 | the sort by centre is non-decreasing in centre and a permutation of its input |
| Gutters.InsertByCxStable | visualizer-test.py:100 | insertion keeps, for every centre value, the relative order of the entries with that centre |
| Gutters.SortByCxStable | visualizer-test.py:100 | the sort is stable: entries with equal centres keep their input order |
| Gutters.GapAt | visualizer-test.py:106-110 | the gap after index i: the midpoint of the two centres, their difference, and i as the split index |
| Gutters.InSearchBand | visualizer-test.py:113-116 | the midpoint lies in [x_start + 0.25 * W, x_start + 0.75 * W], both ends included |
| Gutters.IsCandidate | visualizer-test.py:116 | the midpoint is in the band and the width is positive |
| Gutters.Candidates | visualizer-test.py:102-121 | the candidate gaps among all adjacent pairs, in index order |
| Gutters.CandidatesUpTo | visualizer-test.py:105-121 | every gutter found before index n is a candidate: its midpoint is in the central band and its width is positive; the splits strictly increase |
| Gutters.CandidatesUpToComplete | visualizer-test.py:105-121 | every candidate index before n is in the list |
| Gutters.CandidatesExact | visualizer-test.py:105-121 | an adjacent gap is a candidate if and only if it is in the gutter list |
| Gutters.CollectGutters | visualizer-test.py:102-121 | the scan loop yields exactly the candidates, in index order |
| Gutters.FirstMaxIndex | visualizer-test.py:128 | the chosen gutter is at least as wide as every candidate and strictly wider than every earlier one |
| Gutters.BestGutterIsFirstWidest | visualizer-test.py:126-130 | the chosen gutter is a candidate gap of the sorted boxes, maximal in width among all candidates, and the first such |
| Gutters.SplitSeparates | visualizer-test.py:134-135 | with a positive gap at the split, every box before it has a strictly smaller centre than every box after it |
| Gutters.SplitBoxesSeparate | visualizer-test.py:134-135 | with a positive gap at the split, every left box's own centre is strictly less than every right box's own centre |
| Stats.MinOf | visualizer-test.py:154-159 | the minimum is an element and a lower bound |
| Stats.MaxOf | visualizer-test.py:155-160 | the maximum is an element and an upper bound |
| Stats.Insert | visualizer-test.py:143-144 | the insertion step of the integer sort: the value goes before the first element that is not smaller |
| Stats.SortInts | visualizer-test.py:143-144 | the integer sort under the median, as an insertion sort |
| Stats.SortIntsAscending | visualizer-test.py:143-144 | the sort under the median is ascending and a permutation |
| Stats.AscendingUnique | visualizer-test.py:143-144 | two ascending sequences with the same elements are equal |
| Stats.Median | visualizer-test.py:143-144 | the median lies between the minimum and the maximum |
| Stats.MedianOfAscending | visualizer-test.py:143-144 | on sorted input: the middle element for an odd count, the mean of the two middle elements for an even count |
| Stats.MedianIgnoresOrder | visualizer-test.py:143-144 | the median depends only on the multiset of values |
| Columns.XStarts | visualizer-test.py:144 | the x_start of every box of a group, in order |
| Columns.XEnds | visualizer-test.py:143 | the x_end of every box of a group, in order |
| Columns.YStarts | visualizer-test.py:154 | the y_start of every box of a group, in order |
| Columns.YEnds | visualizer-test.py:155 | the y_end of every box of a group, in order |
| Columns.Top | visualizer-test.py:154 | the least y_start of a group |
| Columns.Bottom | visualizer-test.py:155 | the greatest y_end of a group |
| Columns.SpanHeight | visualizer-test.py:154-156 | a group's height, from its least y_start to its greatest y_end |
| Columns.VerticalOverlap | visualizer-test.py:168 | the overlap of the two groups' vertical extents, at least 0 |
| Columns.ShorterHeight | visualizer-test.py:169 | the smaller of the two groups' heights |
| Columns.ColumnsValid | visualizer-test.py:138-177 | the validator as written: the size check, the median check, the unreachable empty-group check, the height checks, and the overlap check with the zero-height branch returning overlap != 0 |
| Columns.OverlapWithinEachGroup | visualizer-test.py:168-169 | a positive vertical overlap is no taller than either group |
| Columns.ZeroHeightBranchRejects | visualizer-test.py:171-173 | when the shorter group has no height the overlap is 0, so that branch always rejects |
| Columns.OverlapCheckExact | visualizer-test.py:171-175 | the two-branch overlap test passes exactly when shorter > 0 and 5 * overlap >= 2 * shorter |
| Columns.ColumnsValidIsExact | visualizer-test.py:138-177 | validation passes exactly when: both groups have at least 2 boxes; the medians are at most 20 px into each other; 10 * each height >= 3 * layout height; the shorter height is positive; and 5 * overlap >= 2 * shorter |
| Columns.ColumnsValidSound | visualizer-test.py:138-177 | a passing validation means: at least 2 boxes per group; median separation >= -20; both heights >= 0.3 * layout height; and overlap / shorter >= 0.4 with shorter > 0 |
| Columns.HeightCheckExcludesZeroHeight | visualizer-test.py:163-171 | once the height checks pass on a layout at least 300 px tall, the shorter group is at least 90 px, so the zero-height branch is unreachable |
| TwoColumn.PassesEarlyChecks | visualizer-test.py:69-80 | both keys hold data, there is at least one text box, the layout is at least 300 px tall and 200 px wide |
| TwoColumn.SplitKept | visualizer-test.py:88-135 | from the kept boxes: `None` for fewer than 4 or no candidate, else the sort, the candidates, the first widest gutter and the two groups |
| TwoColumn.FindSplit | visualizer-test.py:69-135 | `None` where the source returns `False` before validating, else the split of the non-spanning boxes |
| TwoColumn.IsTwoColumn | visualizer-test.py:57-177 | a split exists and its groups pass the validator against the layout height |
| TwoColumn.DetectTwoColumns | visualizer-test.py:57-177 | the loop-based classifier returns exactly the verdict of the specification function `IsTwoColumn` |
| TwoColumn.VerdictOfSplit | visualizer-test.py:137-177 | once a split is found, the verdict is the validation of its two groups against the layout height |
| TwoColumn.EarlyRejects | visualizer-test.py:69-80 | a missing or null bounding box, missing, null or empty text boxes, height < 300 or width < 200 give `False` |
| TwoColumn.SpanningSeesPositiveWidth | visualizer-test.py:79-86 | after the early rejects the layout width is positive, so the spanning test is the plain ratio-or-700 px rule |
| TwoColumn.TooFewBoxesRejects | visualizer-test.py:88-89 | fewer than 4 non-spanning boxes give `False` |
| TwoColumn.NoGutterRejects | visualizer-test.py:123-124 | no gutter candidate gives `False` |
| TwoColumn.SplitSortsKeptBoxes | visualizer-test.py:83-100 | a split starts from the filtered boxes, at least 4 of them; sorts them by centre into a permutation; and the sort is stable |
| TwoColumn.SplitChoosesFirstWidestGutter | visualizer-test.py:102-130 | the split's gutter is the first widest of the non-empty candidate list |
| TwoColumn.SplitPartitionsSortedBoxes | visualizer-test.py:134-135 | left followed by right is the sorted list; left holds the first split + 1 boxes; every left centre is strictly less than every right centre, both as sort entries and as the boxes' own centres |
| TwoColumn.SplitExcludesSpanning | visualizer-test.py:83-135 | no box of either column group spans the layout |
| TwoColumn.TwoColumnSound | visualizer-test.py:138-177 | `True` implies a split whose groups pass every validation check, with the shorter group at least 90 px tall |
| TwoColumn.RemovingSpanningBoxKeepsVerdict | visualizer-test.py:83-86 | deleting a spanning box from the text boxes does not change the verdict |
| SameLevel.XOverlap | visualizer-test.py:193 | the horizontal overlap is never negative, and a positive overlap is no wider than either box |
| SameLevel.InSameLevel | visualizer-test.py:181-202 | true exactly when the doubled y-centres differ by at most 2 * margin and either a box has no width or twice the overlap is below the narrower width |
| SameLevel.InSameLevelSymmetric | visualizer-test.py:181-202 | the test is symmetric in its two boxes |
| SameLevel.InSameLevelCentres | visualizer-test.py:187-189 | a positive verdict puts the y-centres at most `margin` apart |
| SameLevel.PairGap | visualizer-test.py:218-225 | the gap from the box with the smaller centre to the other one; with equal centres, from the second to the first |
| SameLevel.Qualifies | visualizer-test.py:213-228 | a pair i < j that is at the same level and is separated by a positive gap |
| SameLevel.PairGapSymmetric | visualizer-test.py:218-225 | the left-to-right gap of a pair does not depend on the order of the pair, even with equal centres |
| SameLevel.FindMinWidth | visualizer-test.py:205-230 | the result is at most the start value and is the start value for absent or fewer than 2 text boxes; no qualifying pair has a smaller positive gap; a smaller result is the positive gap of some qualifying pair |
| Scenarios.PageSplit | visualizer-test.py:69-135 | on the sample page: all boxes are kept; they are sorted left column first; the single candidate gutter is between the columns; the split gives the two columns |
| Scenarios.MirrorChangesVerdict | visualizer-test.py:126-135 | for a page with centres 300, 300, 500, 700 the first widest gap gives two boxes a side and the verdict is `True`; in its mirror image the first widest gap leaves one box on the left and the verdict is `False` |
| Scenarios.ShiftedColumnsVerdict | visualizer-test.py:57-177 | the sample page is two-column exactly when the right column is shifted by at most 420 px vertically |

## Left out

- `visualize_page_layouts` (lines 233-342) is matplotlib drawing.
- The driver loop (lines 345-401) is left out: directory listing, the year filter, JSON loading, printing and saving figures. So is its choice to call the classifier only on layouts labelled `Text`.
- The `_is_two_column_debug` flag that the driver writes onto layouts (lines 374, 383) is a presentation side effect.
- Floating-point rounding is not modelled. This covers the halving in the centres, the ratio thresholds and numpy's `median`. The model computes exactly, so a float rounding that would flip a threshold comparison by one unit in the last place is not captured. numpy itself is not part of this model.
- Malformed input is not modelled: boxes of the wrong arity or with non-numeric fields cannot be expressed. A bounding box is a record of four integers, so Python's `not layout_bbox` on an empty list becomes "absent or null". Boxes with negative extent are allowed. Every function is total on them, so no well-formedness precondition is needed.
- SameLevel.FindMinWidth: when `bbox_text` is present but null, the source raises on `len(None)`. The model reads `None` as an absent key and returns the start value.
- The default start value 900 of `find_min_width` (line 205) is not modelled. Dafny has no default arguments, so the caller always passes the start value.
