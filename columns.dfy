/**
 * The column validator: the checks a left/right split must pass to count as two columns
 * (visualizer-test.py, lines 137-177).
 */
module Columns {
  import opened Geometry
  import opened Thresholds
  import opened Stats

  function XStarts(bs: seq<Box>): seq<int> { seq(|bs|, i requires 0 <= i < |bs| => bs[i].xStart) }

  function XEnds(bs: seq<Box>): seq<int> { seq(|bs|, i requires 0 <= i < |bs| => bs[i].xEnd) }

  function YStarts(bs: seq<Box>): seq<int> { seq(|bs|, i requires 0 <= i < |bs| => bs[i].yStart) }

  function YEnds(bs: seq<Box>): seq<int> { seq(|bs|, i requires 0 <= i < |bs| => bs[i].yEnd) }

  /** The topmost start of a group (`min(b[1] for b in group)`). */
  function Top(bs: seq<Box>): int requires |bs| > 0 { MinOf(YStarts(bs)) }

  /** The bottommost end of a group (`max(b[3] for b in group)`). */
  function Bottom(bs: seq<Box>): int requires |bs| > 0 { MaxOf(YEnds(bs)) }

  /** The vertical extent of a group, from its topmost start to its bottommost end. */
  function SpanHeight(bs: seq<Box>): int requires |bs| > 0 { Bottom(bs) - Top(bs) }

  /** How far the vertical extents of the two groups overlap, never negative. */
  function VerticalOverlap(left: seq<Box>, right: seq<Box>): int
    requires |left| > 0 && |right| > 0
  {
    Max(0, Min(Bottom(left), Bottom(right)) - Max(Top(left), Top(right)))
  }

  function ShorterHeight(left: seq<Box>, right: seq<Box>): int
    requires |left| > 0 && |right| > 0
  {
    Min(SpanHeight(left), SpanHeight(right))
  }

  /** Lines 138-177, check by check and in the source's order, with each ratio compared exactly. */
  function ColumnsValid(left: seq<Box>, right: seq<Box>, layoutHeight: int): bool
  {
    if |left| < MinBoxesPerColumn || |right| < MinBoxesPerColumn then false
    else if Median(XStarts(right)) - Median(XEnds(left)) < -(AllowedInterColumnMedianOverlap as real) then false
    else if left == [] || right == [] then false
    else
      var heightL := SpanHeight(left);
      var heightR := SpanHeight(right);
      if heightL as real < layoutHeight as real * MinColumnHeightRatio
         || heightR as real < layoutHeight as real * MinColumnHeightRatio then false
      else
        var overlap := VerticalOverlap(left, right);
        var shorter := Min(heightL, heightR);
        if shorter == 0 then overlap != 0
        else if overlap as real / shorter as real < MinVerticalOverlapRatio then false
        else true
  }

  /**
   * The same checks in integer arithmetic, with the degenerate zero-height branch
   * replaced by the requirement that the shorter column has positive height.
   */
  predicate ColumnsValidExact(left: seq<Box>, right: seq<Box>, layoutHeight: int)
  {
    |left| >= 2 && |right| >= 2
    && Median(XStarts(right)) - Median(XEnds(left)) >= -20.0
    && 10 * SpanHeight(left) >= 3 * layoutHeight
    && 10 * SpanHeight(right) >= 3 * layoutHeight
    && ShorterHeight(left, right) > 0
    && 5 * VerticalOverlap(left, right) >= 2 * ShorterHeight(left, right)
  }

  /** A positive overlap is no taller than either group. */
  lemma OverlapWithinEachGroup(left: seq<Box>, right: seq<Box>)
    requires |left| > 0 && |right| > 0
    ensures VerticalOverlap(left, right) > 0 ==>
      VerticalOverlap(left, right) <= SpanHeight(left) && VerticalOverlap(left, right) <= SpanHeight(right)
  {
  }

  /** When the shorter group has no height the groups cannot overlap, so lines 171-173 always reject. */
  lemma ZeroHeightBranchRejects(left: seq<Box>, right: seq<Box>)
    requires |left| > 0 && |right| > 0
    requires ShorterHeight(left, right) == 0
    ensures VerticalOverlap(left, right) == 0
  {
    OverlapWithinEachGroup(left, right);
  }

  /** The final check of lines 171-175 on plain numbers, given that a zero height admits no overlap. */
  lemma OverlapCheckExact(overlap: int, shorter: int)
    requires overlap >= 0
    requires shorter == 0 ==> overlap == 0
    ensures (if shorter == 0 then overlap != 0
             else !(overlap as real / shorter as real < MinVerticalOverlapRatio))
            <==> shorter > 0 && 5 * overlap >= 2 * shorter
  {
    if shorter > 0 {
      var x := overlap as real / shorter as real;
      assert x * shorter as real == overlap as real;
      MultiplyPositive(0.4, x, shorter as real);
    } else if shorter < 0 {
      RatioNegativeDenominator(overlap, shorter, 0.4);
    }
  }

  /** The validator is exactly the integer form of its checks. */
  lemma ColumnsValidIsExact(left: seq<Box>, right: seq<Box>, layoutHeight: int)
    ensures ColumnsValid(left, right, layoutHeight) <==> ColumnsValidExact(left, right, layoutHeight)
  {
    if |left| >= 2 && |right| >= 2 {
      if ShorterHeight(left, right) == 0 {
        ZeroHeightBranchRejects(left, right);
      }
      OverlapCheckExact(VerticalOverlap(left, right), ShorterHeight(left, right));
    }
  }

  /**
   * What an accepted split guarantees (lines 138-175): two boxes per group, median
   * separation of at least -20 px, both groups at least 0.3 of the layout height, a
   * shorter group of positive height and a vertical overlap of at least 0.4 of it.
   */
  lemma ColumnsValidSound(left: seq<Box>, right: seq<Box>, layoutHeight: int)
    requires ColumnsValid(left, right, layoutHeight)
    ensures |left| >= MinBoxesPerColumn && |right| >= MinBoxesPerColumn
    ensures Median(XStarts(right)) - Median(XEnds(left)) >= -(AllowedInterColumnMedianOverlap as real)
    ensures SpanHeight(left) as real >= layoutHeight as real * MinColumnHeightRatio
    ensures SpanHeight(right) as real >= layoutHeight as real * MinColumnHeightRatio
    ensures ShorterHeight(left, right) > 0
    ensures VerticalOverlap(left, right) as real / ShorterHeight(left, right) as real >= MinVerticalOverlapRatio
  {
    ColumnsValidIsExact(left, right, layoutHeight);
  }

  /** Once both heights pass the check against a layout at least 300 px high, the shorter one is positive. */
  lemma HeightCheckExcludesZeroHeight(left: seq<Box>, right: seq<Box>, layoutHeight: int)
    requires |left| > 0 && |right| > 0 && layoutHeight >= MinLayoutHeight
    requires SpanHeight(left) as real >= layoutHeight as real * MinColumnHeightRatio
    requires SpanHeight(right) as real >= layoutHeight as real * MinColumnHeightRatio
    ensures ShorterHeight(left, right) >= 90
  {
  }
}
