/**
 * `detect_two_columns` (visualizer-test.py, lines 57-177): early rejects, the spanning
 * filter, the stable sort by centre, the gutter choice, the split and the validation.
 */
module TwoColumn {
  import opened Wrappers
  import opened Geometry
  import opened Thresholds
  import opened Spanning
  import opened Gutters
  import opened Columns
  import opened Stats

  /** Everything the pipeline derives on the way to the validator. */
  datatype Split = Split(
    kept: seq<Box>,             // non_spanning_boxes
    sorted: seq<Centered>,      // sorted_boxes_by_cx
    candidates: seq<Gutter>,    // potential_gutters
    best: Gutter,               // best_gutter_candidate
    left: seq<Box>,             // left_column_boxes
    right: seq<Box>)            // right_column_boxes

  /** Lines 69-80: a layout passes the early rejects when both keys hold data and it is at least 200 x 300 px. */
  predicate PassesEarlyChecks(layout: Layout) {
    layout.bbox.Some? && layout.text.Some? && layout.text.value != [] &&
    Height(layout.bbox.value) >= MinLayoutHeight && Width(layout.bbox.value) >= MinLayoutWidth
  }

  /** Lines 88-135, from the non-spanning boxes on: the split, or `None` where the source returns `False`. */
  function SplitKept(layoutBox: Box, kept: seq<Box>): Option<Split>
  {
    if |kept| < MinBoxesForColumnConsideration then None
    else
      var sorted := SortByCx(Centres(kept));
      var candidates := Candidates(sorted, layoutBox);
      if candidates == [] then None
      else
        var best := candidates[FirstMaxIndex(candidates)];
        Some(Split(kept, sorted, candidates, best,
                   Boxes(sorted[..best.split + 1]), Boxes(sorted[best.split + 1..])))
  }

  /** Lines 69-135: the split handed to the validator, or `None` wherever the source returns `False` before validating. */
  function FindSplit(layout: Layout): Option<Split>
  {
    if !PassesEarlyChecks(layout) then None
    else SplitKept(layout.bbox.value, NonSpanning(layout.text.value, layout.bbox.value))
  }

  /** The classifier's verdict: a split exists and it passes the validator. */
  function IsTwoColumn(layout: Layout): bool
  {
    match FindSplit(layout)
    case None => false
    case Some(sp) => ColumnsValid(sp.left, sp.right, Height(layout.bbox.value))
  }

  /** `detect_two_columns`, step by step: the three accumulation loops run as the source's loops do. */
  method DetectTwoColumns(layout: Layout) returns (isTwoColumn: bool)
    ensures isTwoColumn == IsTwoColumn(layout)
  {
    if layout.bbox.None? || layout.text.None? || layout.text.value == [] {
      return false;
    }
    var layoutBox := layout.bbox.value;
    var textBoxes := layout.text.value;
    var layoutWidth := layoutBox.xEnd - layoutBox.xStart;
    var layoutHeight := layoutBox.yEnd - layoutBox.yStart;
    if layoutHeight < MinLayoutHeight || layoutWidth < MinLayoutWidth {
      return false;
    }
    var kept := CollectNonSpanning(textBoxes, layoutBox);
    if |kept| < MinBoxesForColumnConsideration {
      assert FindSplit(layout) == None;
      return false;
    }
    var centred := CollectCentres(kept);
    var sorted := SortByCx(centred);
    var gutters := CollectGutters(sorted, layoutBox);
    if gutters == [] {
      assert FindSplit(layout) == None;
      return false;
    }
    var best := gutters[FirstMaxIndex(gutters)];
    var splitIndex := best.split;
    var left := Boxes(sorted[..splitIndex + 1]);
    var right := Boxes(sorted[splitIndex + 1..]);
    assert FindSplit(layout) == Some(Split(kept, sorted, gutters, best, left, right));
    isTwoColumn := ColumnsValid(left, right, layoutHeight);
  }

  // ---------------------------------------------------------------------------
  // Properties of the decision.

  /** Once the pipeline has produced a split, the verdict is the validator's verdict on its two groups. */
  lemma VerdictOfSplit(layout: Layout, sp: Split)
    requires FindSplit(layout) == Some(sp)
    ensures layout.bbox.Some?
    ensures IsTwoColumn(layout) == ColumnsValid(sp.left, sp.right, Height(layout.bbox.value))
  {
  }

  /** Lines 72-80: missing geometry or a layout under 200 x 300 px is never two-column. */
  lemma EarlyRejects(layout: Layout)
    requires layout.bbox.None? || layout.text.None? || layout.text.value == []
             || Height(layout.bbox.value) < MinLayoutHeight || Width(layout.bbox.value) < MinLayoutWidth
    ensures !IsTwoColumn(layout)
  {
  }

  /** Past the early rejects the layout has positive width, so the zero-width branch of the spanning test is never taken. */
  lemma SpanningSeesPositiveWidth(layout: Layout)
    requires PassesEarlyChecks(layout)
    ensures Width(layout.bbox.value) > 0
    ensures forall b :: IsSpanning(b, layout.bbox.value) <==>
      10 * Width(b) > 7 * Width(layout.bbox.value) || Width(b) > AbsoluteSpanningWidth
  {
  }

  /** Lines 88-89: fewer than four non-spanning boxes is never two-column. */
  lemma TooFewBoxesRejects(layout: Layout)
    requires PassesEarlyChecks(layout)
    requires |NonSpanning(layout.text.value, layout.bbox.value)| < MinBoxesForColumnConsideration
    ensures !IsTwoColumn(layout)
  {
  }

  /** Lines 123-124: when no gap qualifies as a gutter the layout is not two-column. */
  lemma NoGutterRejects(layout: Layout)
    requires PassesEarlyChecks(layout)
    requires Candidates(SortByCx(Centres(NonSpanning(layout.text.value, layout.bbox.value))), layout.bbox.value) == []
    ensures !IsTwoColumn(layout)
  {
  }

  /**
   * Lines 83-100: a split works on the non-spanning boxes, at least four of them, and its
   * sorted list is a permutation of them in ascending order of centre that keeps boxes with
   * equal centres in their input order.
   */
  lemma SplitSortsKeptBoxes(layout: Layout)
    requires FindSplit(layout).Some?
    ensures var sp := FindSplit(layout).value;
      PassesEarlyChecks(layout)
      && sp.kept == NonSpanning(layout.text.value, layout.bbox.value)
      && |sp.kept| >= MinBoxesForColumnConsideration
      && sp.sorted == SortByCx(Centres(sp.kept))
      && SortedByCx(sp.sorted)
      && multiset(sp.sorted) == multiset(Centres(sp.kept))
      && (forall k :: WithCx(sp.sorted, k) == WithCx(Centres(sp.kept), k))
  {
    var sp := FindSplit(layout).value;
    SortByCxSorted(Centres(sp.kept));
    forall k ensures WithCx(sp.sorted, k) == WithCx(Centres(sp.kept), k) {
      SortByCxStable(Centres(sp.kept), k);
    }
  }

  /**
   * Lines 102-130: the chosen gutter is a candidate gap of the sorted list with the
   * greatest width among all candidates, and every candidate to its left is narrower.
   */
  lemma SplitChoosesFirstWidestGutter(layout: Layout)
    requires FindSplit(layout).Some?
    ensures var sp := FindSplit(layout).value;
      var lb := layout.bbox.value;
      sp.candidates == Candidates(sp.sorted, lb) && sp.candidates != []
      && sp.best.split + 1 < |sp.sorted|
      && IsCandidate(sp.sorted, lb, sp.best.split)
      && sp.best == GapAt(sp.sorted, sp.best.split)
      && (forall i :: 0 <= i < |sp.sorted| - 1 && IsCandidate(sp.sorted, lb, i) ==>
            GapAt(sp.sorted, i).width <= sp.best.width)
      && (forall i :: 0 <= i < sp.best.split && IsCandidate(sp.sorted, lb, i) ==>
            GapAt(sp.sorted, i).width < sp.best.width)
  {
    var sp := FindSplit(layout).value;
    BestGutterIsFirstWidest(sp.sorted, layout.bbox.value);
  }

  /**
   * Lines 134-135: the left group followed by the right group is the sorted list, the
   * left group ends at the gutter, and every left centre is strictly below every right centre.
   */
  lemma SplitPartitionsSortedBoxes(layout: Layout)
    requires FindSplit(layout).Some?
    ensures var sp := FindSplit(layout).value;
      sp.best.split + 1 < |sp.sorted|
      && sp.left + sp.right == Boxes(sp.sorted)
      && |sp.left| == sp.best.split + 1
      && (forall i :: 0 <= i < |sp.left| ==> sp.left[i] == sp.sorted[i].bbox)
      && (forall i, j :: 0 <= i <= sp.best.split < j < |sp.sorted| ==> sp.sorted[i].cx < sp.sorted[j].cx)
      && (forall i, j :: 0 <= i < |sp.left| && 0 <= j < |sp.right| ==> XCenter(sp.left[i]) < XCenter(sp.right[j]))
  {
    var sp := FindSplit(layout).value;
    SplitSortsKeptBoxes(layout);
    SplitChoosesFirstWidestGutter(layout);
    var cut := sp.best.split + 1;
    BoxesAppend(sp.sorted[..cut], sp.sorted[cut..]);
    assert sp.sorted[..cut] + sp.sorted[cut..] == sp.sorted;
    SplitSeparates(sp.sorted, sp.best.split);
    CentresStayLabelled(sp.sorted, sp.kept);
    SplitBoxesSeparate(sp.sorted, sp.best.split);
  }

  /** Lines 83-135: no box of either column group spans the layout. */
  lemma SplitExcludesSpanning(layout: Layout)
    requires FindSplit(layout).Some?
    ensures var sp := FindSplit(layout).value;
      forall b :: b in sp.left + sp.right ==> !IsSpanning(b, layout.bbox.value)
  {
    var sp := FindSplit(layout).value;
    SplitSortsKeptBoxes(layout);
    SplitPartitionsSortedBoxes(layout);
    forall b | b in sp.left + sp.right
      ensures !IsSpanning(b, layout.bbox.value)
    {
      var k :| 0 <= k < |sp.left + sp.right| && (sp.left + sp.right)[k] == b;
      assert b == sp.sorted[k].bbox;
      assert sp.sorted[k] in multiset(Centres(sp.kept));
      assert sp.sorted[k] in Centres(sp.kept);
      assert b in sp.kept;
      NonSpanningMembers(layout.text.value, layout.bbox.value, b);
    }
  }

  /**
   * Lines 138-177: a `True` verdict means the validator's checks all held of the split,
   * and the shorter column has positive height, so the zero-height branch did not decide it.
   */
  lemma TwoColumnSound(layout: Layout)
    requires IsTwoColumn(layout)
    ensures FindSplit(layout).Some?
    ensures var sp := FindSplit(layout).value;
      var h := Height(layout.bbox.value);
      |sp.left| >= MinBoxesPerColumn && |sp.right| >= MinBoxesPerColumn
      && Median(XStarts(sp.right)) - Median(XEnds(sp.left)) >= -(AllowedInterColumnMedianOverlap as real)
      && SpanHeight(sp.left) as real >= h as real * MinColumnHeightRatio
      && SpanHeight(sp.right) as real >= h as real * MinColumnHeightRatio
      && ShorterHeight(sp.left, sp.right) >= 90
      && VerticalOverlap(sp.left, sp.right) as real / ShorterHeight(sp.left, sp.right) as real
         >= MinVerticalOverlapRatio
  {
    var sp := FindSplit(layout).value;
    ColumnsValidSound(sp.left, sp.right, Height(layout.bbox.value));
    HeightCheckExcludesZeroHeight(sp.left, sp.right, Height(layout.bbox.value));
  }

  /** Removing a spanning text box changes nothing about the verdict. */
  lemma RemovingSpanningBoxKeepsVerdict(layout: Layout, i: nat)
    requires layout.bbox.Some? && layout.text.Some?
    requires i < |layout.text.value| && IsSpanning(layout.text.value[i], layout.bbox.value)
    ensures var text := layout.text.value;
      IsTwoColumn(Layout(layout.bbox, Some(text[..i] + text[i + 1..]))) == IsTwoColumn(layout)
  {
    var text := layout.text.value;
    var lb := layout.bbox.value;
    var rest := text[..i] + text[i + 1..];
    var layout' := Layout(layout.bbox, Some(rest));
    RemoveSpanningBox(text, i, lb);
    if rest == [] {
      assert NonSpanning(text, lb) == [];
      assert FindSplit(layout) == None && FindSplit(layout') == None;
    } else {
      assert PassesEarlyChecks(layout') == PassesEarlyChecks(layout);
      assert FindSplit(layout') == FindSplit(layout);
    }
  }
}
