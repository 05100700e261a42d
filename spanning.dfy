/**
 * The spanning-box filter: text boxes wide enough to be titles, headers or footnotes
 * take no part in column geometry (visualizer-test.py, lines 33-54 and 82-89).
 */
module Spanning {
  import opened Geometry
  import opened Thresholds

  /**
   * `_is_likely_spanning_box`: false when the layout has no width (the absolute rule is then
   * skipped too); otherwise true when the box is wider than 0.7 of the layout or than 700 px.
   * A layout of negative width turns the ratio test around. Only x-coordinates are read.
   */
  function IsSpanning(box: Box, layout: Box): (spanning: bool)
    ensures Width(layout) == 0 ==> !spanning
    ensures Width(layout) > 0 ==>
      (spanning <==> 10 * Width(box) > 7 * Width(layout) || Width(box) > AbsoluteSpanningWidth)
    ensures Width(layout) < 0 ==>
      (spanning <==> 10 * Width(box) < 7 * Width(layout) || Width(box) > AbsoluteSpanningWidth)
  {
    var boxWidth := Width(box);
    var layoutWidth := Width(layout);
    if layoutWidth == 0 then false
    else
      SpanningRatio(boxWidth, layoutWidth);
      if boxWidth as real / layoutWidth as real > SpanningWidthRatio then true
      else if boxWidth > AbsoluteSpanningWidth then true
      else false
  }

  /** The ratio test of line 47 as cross-multiplication, for either sign of the layout width. */
  lemma SpanningRatio(boxWidth: int, layoutWidth: int)
    requires layoutWidth != 0
    ensures layoutWidth > 0 ==>
      (boxWidth as real / layoutWidth as real > SpanningWidthRatio <==> 10 * boxWidth > 7 * layoutWidth)
    ensures layoutWidth < 0 ==>
      (boxWidth as real / layoutWidth as real > SpanningWidthRatio <==> 10 * boxWidth < 7 * layoutWidth)
  {
    assert SpanningWidthRatio == 7 as real / 10 as real;
    if layoutWidth > 0 {
      RatioExceeds(boxWidth, layoutWidth, 7, 10);
    } else {
      RatioExceedsNegative(boxWidth, layoutWidth, 7, 10);
    }
  }

  /** Only the x-coordinates of the box and of the layout decide whether the box spans. */
  lemma SpanningReadsOnlyX(box: Box, layout: Box, box': Box, layout': Box)
    requires box.xStart == box'.xStart && box.xEnd == box'.xEnd
    requires layout.xStart == layout'.xStart && layout.xEnd == layout'.xEnd
    ensures IsSpanning(box, layout) == IsSpanning(box', layout')
  {
  }

  /** The order-preserving subsequence of the boxes that do not span the layout. */
  function NonSpanning(boxes: seq<Box>, layout: Box): seq<Box>
  {
    if boxes == [] then []
    else
      var last := boxes[|boxes| - 1];
      NonSpanning(boxes[..|boxes| - 1], layout) + (if IsSpanning(last, layout) then [] else [last])
  }

  /** Filtering distributes over concatenation: each box is kept or dropped on its own merits. */
  lemma {:induction false} NonSpanningAppend(a: seq<Box>, b: seq<Box>, layout: Box)
    ensures NonSpanning(a + b, layout) == NonSpanning(a, layout) + NonSpanning(b, layout)
  {
    if b == [] {
      assert a + b == a;
    } else {
      var last := b[|b| - 1];
      assert (a + b)[..|a + b| - 1] == a + b[..|b| - 1];
      NonSpanningAppend(a, b[..|b| - 1], layout);
    }
  }

  /** A box occurs in the filtered sequence as often as in the input when it does not span, and never when it does. */
  lemma {:induction false} NonSpanningCounts(boxes: seq<Box>, layout: Box, b: Box)
    ensures multiset(NonSpanning(boxes, layout))[b] ==
            if IsSpanning(b, layout) then 0 else multiset(boxes)[b]
  {
    if boxes != [] {
      var init := boxes[..|boxes| - 1];
      var last := boxes[|boxes| - 1];
      assert boxes == init + [last];
      NonSpanningCounts(init, layout, b);
    }
  }

  /** Every surviving box is a non-spanning box of the input. */
  lemma NonSpanningMembers(boxes: seq<Box>, layout: Box, b: Box)
    requires b in NonSpanning(boxes, layout)
    ensures b in boxes && !IsSpanning(b, layout)
  {
    NonSpanningCounts(boxes, layout, b);
    assert b in multiset(NonSpanning(boxes, layout));
  }

  /** When no box spans the layout, the filter keeps the sequence as it is. */
  lemma {:induction false} NonSpanningKeepsAll(boxes: seq<Box>, layout: Box)
    requires forall i :: 0 <= i < |boxes| ==> !IsSpanning(boxes[i], layout)
    ensures NonSpanning(boxes, layout) == boxes
  {
    if boxes != [] {
      var init := boxes[..|boxes| - 1];
      NonSpanningKeepsAll(init, layout);
      assert boxes == init + [boxes[|boxes| - 1]];
    }
  }

  /** Removing a spanning box from the input leaves the filtered sequence unchanged. */
  lemma RemoveSpanningBox(boxes: seq<Box>, i: nat, layout: Box)
    requires i < |boxes| && IsSpanning(boxes[i], layout)
    ensures NonSpanning(boxes[..i] + boxes[i + 1..], layout) == NonSpanning(boxes, layout)
  {
    assert boxes == boxes[..i] + ([boxes[i]] + boxes[i + 1..]);
    NonSpanningAppend(boxes[..i], [boxes[i]] + boxes[i + 1..], layout);
    NonSpanningAppend([boxes[i]], boxes[i + 1..], layout);
    NonSpanningAppend(boxes[..i], boxes[i + 1..], layout);
    assert NonSpanning([boxes[i]], layout) == NonSpanning([], layout) + [];
  }

  /** Lines 83-86: the filter loop appends every non-spanning box, in input order. */
  method CollectNonSpanning(textBoxes: seq<Box>, layout: Box) returns (kept: seq<Box>)
    ensures kept == NonSpanning(textBoxes, layout)
  {
    kept := [];
    var i := 0;
    while i < |textBoxes|
      invariant 0 <= i <= |textBoxes|
      invariant kept == NonSpanning(textBoxes[..i], layout)
    {
      var box := textBoxes[i];
      assert textBoxes[..i + 1][..i] == textBoxes[..i];
      if !IsSpanning(box, layout) {
        kept := kept + [box];
      }
      i := i + 1;
    }
    assert textBoxes[..i] == textBoxes;
  }
}
