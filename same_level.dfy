/**
 * The legacy same-row heuristic, off the classification path: a pairwise "same level,
 * different columns" test and the smallest positive horizontal gap between such pairs
 * (visualizer-test.py, lines 181-230).
 */
module SameLevel {
  import opened Geometry

  /** Horizontal overlap of two boxes, zero when they are apart. */
  function XOverlap(a: Box, b: Box): (overlap: int)
    ensures overlap >= 0
    ensures overlap > 0 ==> overlap <= Width(a) && overlap <= Width(b)
  {
    Max(0, Min(a.xEnd, b.xEnd) - Max(a.xStart, b.xStart))
  }

  /**
   * `in_same_level`: the y-centres are at most `margin` apart, and either one box has no
   * width or the boxes overlap horizontally by less than half the narrower width.
   * Stated here in integer arithmetic, doubling the centres and the half.
   */
  function InSameLevel(a: Box, b: Box, margin: int): (same: bool)
    ensures same <==>
      -2 * margin <= (a.yStart + a.yEnd) - (b.yStart + b.yEnd) <= 2 * margin
      && (Min(Width(a), Width(b)) == 0 || 2 * XOverlap(a, b) < Min(Width(a), Width(b)))
  {
    var sameLevel := Abs(YCenter(a) - YCenter(b)) <= margin as real;
    var minWidth := Min(a.xEnd - a.xStart, b.xEnd - b.xStart);
    var differentColumns := if minWidth == 0 then true else XOverlap(a, b) as real < 0.5 * minWidth as real;
    sameLevel && differentColumns
  }

  /** The test does not depend on the order of its two boxes. */
  lemma InSameLevelSymmetric(a: Box, b: Box, margin: int)
    ensures InSameLevel(a, b, margin) == InSameLevel(b, a, margin)
  {
  }

  /** A positive verdict bounds the distance of the y-centres by the margin. */
  lemma InSameLevelCentres(a: Box, b: Box, margin: int)
    requires InSameLevel(a, b, margin)
    ensures Abs(YCenter(a) - YCenter(b)) <= margin as real
  {
  }

  /** Lines 218-225: the gap between the box whose centre is further left and the other one. */
  function PairGap(a: Box, b: Box): int
  {
    if XCenter(a) < XCenter(b) then b.xStart - a.xEnd else a.xStart - b.xEnd
  }

  /** The gap of a pair does not depend on the order the pair is listed in, even when the centres coincide. */
  lemma PairGapSymmetric(a: Box, b: Box)
    ensures PairGap(a, b) == PairGap(b, a)
  {
  }

  /** The pair at positions `i < j` is a same-level pair separated by a positive gap. */
  predicate Qualifies(boxes: seq<Box>, i: nat, j: nat, margin: int)
    requires i < j < |boxes|
  {
    InSameLevel(boxes[i], boxes[j], margin) && PairGap(boxes[i], boxes[j]) > 0
  }

  /**
   * `find_min_width`: the least of `startMinWidth` and the positive gaps of all same-level
   * pairs of text boxes, taken over `itertools.combinations(bbox_text, 2)`; `startMinWidth`
   * when the text boxes are absent or fewer than two.
   */
  method FindMinWidth(layout: Layout, heightMargin: int, startMinWidth: int) returns (minWidth: int)
    ensures minWidth <= startMinWidth
    ensures layout.text.None? || |layout.text.value| < 2 ==> minWidth == startMinWidth
    ensures layout.text.Some? ==>
      forall i, j :: 0 <= i < j < |layout.text.value| && Qualifies(layout.text.value, i, j, heightMargin) ==>
        minWidth <= PairGap(layout.text.value[i], layout.text.value[j])
    ensures minWidth < startMinWidth ==>
      layout.text.Some? &&
      exists i, j :: 0 <= i < j < |layout.text.value| && Qualifies(layout.text.value, i, j, heightMargin) &&
        minWidth == PairGap(layout.text.value[i], layout.text.value[j])
  {
    minWidth := startMinWidth;
    if layout.text.None? || |layout.text.value| < 2 {
      return startMinWidth;
    }
    var boxes := layout.text.value;
    var n := |boxes|;
    ghost var wi, wj := 0, 1;
    var i := 0;
    while i < n
      invariant 0 <= i <= n
      invariant minWidth <= startMinWidth
      invariant forall p, q :: 0 <= p < i && p < q < n && Qualifies(boxes, p, q, heightMargin) ==>
        minWidth <= PairGap(boxes[p], boxes[q])
      invariant minWidth < startMinWidth ==>
        0 <= wi < wj < n && Qualifies(boxes, wi, wj, heightMargin) && minWidth == PairGap(boxes[wi], boxes[wj])
    {
      var j := i + 1;
      while j < n
        invariant i + 1 <= j <= n
        invariant minWidth <= startMinWidth
        invariant forall p, q :: 0 <= p < i && p < q < n && Qualifies(boxes, p, q, heightMargin) ==>
          minWidth <= PairGap(boxes[p], boxes[q])
        invariant forall q :: i < q < j && Qualifies(boxes, i, q, heightMargin) ==>
          minWidth <= PairGap(boxes[i], boxes[q])
        invariant minWidth < startMinWidth ==>
          0 <= wi < wj < n && Qualifies(boxes, wi, wj, heightMargin) && minWidth == PairGap(boxes[wi], boxes[wj])
      {
        var box1, box2 := boxes[i], boxes[j];
        if InSameLevel(box1, box2, heightMargin) {
          var gap;
          if (box1.xStart + box1.xEnd) as real / 2.0 < (box2.xStart + box2.xEnd) as real / 2.0 {
            gap := box2.xStart - box1.xEnd;
          } else {
            gap := box1.xStart - box2.xEnd;
          }
          if gap > 0 {
            if gap < minWidth {
              minWidth, wi, wj := gap, i, j;
            }
          }
        }
        j := j + 1;
      }
      i := i + 1;
    }
  }
}
