/** Bounding boxes, layouts and the exact arithmetic the classifier's thresholds need. */
module Geometry {
  import opened Wrappers

  /** A box `[x_start, y_start, x_end, y_end]` in page pixel coordinates. */
  datatype Box = Box(xStart: int, yStart: int, xEnd: int, yEnd: int)

  /**
   * A layout record: its own box (`bbox_layout`) and its text boxes (`bbox_text`).
   * The text content and the label play no part in the geometry and are not kept.
   */
  datatype Layout = Layout(bbox: Option<Box>, text: Option<seq<Box>>)

  function Width(b: Box): int { b.xEnd - b.xStart }

  function Height(b: Box): int { b.yEnd - b.yStart }

  /** `(x_start + x_end) / 2`, exactly. */
  function XCenter(b: Box): real { (b.xStart + b.xEnd) as real / 2.0 }

  /** `(y_start + y_end) / 2`, exactly. */
  function YCenter(b: Box): real { (b.yStart + b.yEnd) as real / 2.0 }

  function Min(a: int, b: int): int { if a <= b then a else b }

  function Max(a: int, b: int): int { if a >= b then a else b }

  function Abs(x: real): real { if x < 0.0 then -x else x }

  /** Comparing a ratio `n / d` with a rational threshold `p / q` is cross-multiplication. */
  lemma RatioExceeds(n: int, d: int, p: int, q: int)
    requires d > 0 && q > 0
    ensures (n as real / d as real > p as real / q as real) <==> n * q > p * d
  {
    var x := n as real / d as real;
    var t := p as real / q as real;
    assert n as real == x * d as real;
    assert p as real == t * q as real;
    assert (n * q) as real == x * (d * q) as real;
    assert (p * d) as real == t * (d * q) as real;
    MultiplyPositive(x, t, (d * q) as real);
  }

  /** Over a negative denominator the comparison turns around. */
  lemma RatioExceedsNegative(n: int, d: int, p: int, q: int)
    requires d < 0 && q > 0
    ensures (n as real / d as real > p as real / q as real) <==> n * q < p * d
  {
    RatioExceeds(-n, -d, p, q);
    assert n as real / d as real == (-n) as real / (-d) as real;
  }

  /** A ratio over a negative denominator never exceeds a non-negative threshold. */
  lemma RatioNegativeDenominator(n: int, d: int, t: real)
    requires n >= 0 && d < 0 && t >= 0.0
    ensures !(n as real / d as real > t)
  {
    var x := n as real / d as real;
    assert n as real == x * d as real;
    if x > 0.0 {
      NegativeProduct(x, d as real);
    }
  }

  lemma MultiplyPositive(x: real, t: real, c: real)
    requires c > 0.0
    ensures x > t <==> x * c > t * c
  {
    if x > t {
      assert (x - t) * c > 0.0;
    } else {
      assert (t - x) * c >= 0.0;
    }
  }

  lemma NegativeProduct(x: real, c: real)
    requires x > 0.0 && c < 0.0
    ensures x * c < 0.0
  {
  }
}
