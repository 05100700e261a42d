/**
 * The fixed thresholds of the two-column classifier (visualizer-test.py, lines 10-30 and 79).
 * Ratios are exact rationals: the model does not reproduce binary floating point.
 */
module Thresholds {
  /** A text box wider than this fraction of the layout is a title or header. */
  const SpanningWidthRatio: real := 0.7
  /** A text box wider than this many pixels is spanning, whatever the layout width. */
  const AbsoluteSpanningWidth: int := 700
  /** Fewer non-spanning boxes than this and no column structure is looked for. */
  const MinBoxesForColumnConsideration: int := 4
  /** Each of the two detected columns needs at least this many boxes. */
  const MinBoxesPerColumn: int := 2
  /** The gutter midpoint must lie in this central band of the layout width. */
  const GutterSearchLow: real := 0.25
  const GutterSearchHigh: real := 0.75
  /** How far (pixels) the right column's median start may reach left of the left column's median end. */
  const AllowedInterColumnMedianOverlap: int := 20
  /** Each column must be at least this fraction of the layout height. */
  const MinColumnHeightRatio: real := 0.3
  /** The columns must overlap vertically by this fraction of the shorter one. */
  const MinVerticalOverlapRatio: real := 0.4
  /** Layouts lower than this (pixels) are never two-column. */
  const MinLayoutHeight: int := 300
  /** Layouts narrower than this (pixels) are never two-column; a literal in the source's basic check. */
  const MinLayoutWidth: int := 200
}
