/**
 * The gutter finder: x-centres of the non-spanning boxes, a stable sort by centre, the
 * candidate gaps between neighbours in the central band, and the largest of them
 * (visualizer-test.py, lines 91-135).
 */
module Gutters {
  import opened Geometry
  import opened Thresholds

  /** A box paired with its x-centre (`{'cx': ..., 'bbox': ...}`). */
  datatype Centered = Centered(cx: real, bbox: Box)

  /** A candidate gutter: the midpoint between two neighbouring centres, their distance, and the index of the left one. */
  datatype Gutter = Gutter(x: real, width: real, split: nat)

  function Centres(boxes: seq<Box>): seq<Centered>
  {
    seq(|boxes|, i requires 0 <= i < |boxes| => Centered(XCenter(boxes[i]), boxes[i]))
  }

  /** The boxes of a sequence of centred boxes (`[b['bbox'] for b in ...]`). */
  function Boxes(cs: seq<Centered>): seq<Box>
  {
    seq(|cs|, i requires 0 <= i < |cs| => cs[i].bbox)
  }

  /** Dropping the centres gives back the boxes they were computed from. */
  lemma BoxesOfCentres(boxes: seq<Box>)
    ensures Boxes(Centres(boxes)) == boxes
  {
  }

  /** Any rearrangement of the centred boxes still labels every box with its own centre. */
  lemma CentresStayLabelled(s: seq<Centered>, boxes: seq<Box>)
    requires multiset(s) == multiset(Centres(boxes))
    ensures forall i :: 0 <= i < |s| ==> s[i].cx == XCenter(s[i].bbox)
  {
    forall i | 0 <= i < |s|
      ensures s[i].cx == XCenter(s[i].bbox)
    {
      assert s[i] in multiset(Centres(boxes));
      assert s[i] in Centres(boxes);
    }
  }

  lemma BoxesAppend(a: seq<Centered>, b: seq<Centered>)
    ensures Boxes(a + b) == Boxes(a) + Boxes(b)
  {
  }

  /** Lines 94-97: the loop that pairs each box with its centre. */
  method CollectCentres(boxes: seq<Box>) returns (centred: seq<Centered>)
    ensures |centred| == |boxes|
    ensures forall i :: 0 <= i < |boxes| ==>
      centred[i].bbox == boxes[i] && 2.0 * centred[i].cx == (boxes[i].xStart + boxes[i].xEnd) as real
    ensures centred == Centres(boxes)
  {
    centred := [];
    var i := 0;
    while i < |boxes|
      invariant 0 <= i <= |boxes|
      invariant centred == Centres(boxes[..i])
    {
      var box := boxes[i];
      centred := centred + [Centered((box.xStart + box.xEnd) as real / 2.0, box)];
      i := i + 1;
    }
    assert boxes[..i] == boxes;
  }

  // ---------------------------------------------------------------------------
  // Python's `sorted(..., key=lambda b: b['cx'])`: a stable sort by centre.

  predicate SortedByCx(s: seq<Centered>) {
    forall i, j :: 0 <= i < j < |s| ==> s[i].cx <= s[j].cx
  }

  /** The entries whose centre is exactly `k`, in order: what a stable sort must keep in order. */
  function WithCx(s: seq<Centered>, k: real): seq<Centered>
  {
    if s == [] then [] else (if s[0].cx == k then [s[0]] else []) + WithCx(s[1..], k)
  }

  /** Inserts `c` in front of the first entry whose centre is not below its own. */
  function InsertByCx(c: Centered, s: seq<Centered>): seq<Centered>
  {
    if s == [] || c.cx <= s[0].cx then [c] + s else [s[0]] + InsertByCx(c, s[1..])
  }

  /** Stable insertion sort by centre: the first entry goes in front of its equals. */
  function SortByCx(s: seq<Centered>): seq<Centered>
  {
    if s == [] then [] else InsertByCx(s[0], SortByCx(s[1..]))
  }

  lemma ConsSortedByCx(h: Centered, t: seq<Centered>)
    requires SortedByCx(t)
    requires forall j :: 0 <= j < |t| ==> h.cx <= t[j].cx
    ensures SortedByCx([h] + t)
  {
    var r := [h] + t;
    forall i, j | 0 <= i < j < |r| ensures r[i].cx <= r[j].cx {
      assert r[j] == t[j - 1];
      if i > 0 { assert r[i] == t[i - 1]; }
    }
  }

  /** Inserting into a sorted sequence keeps it sorted and adds exactly `c`. */
  lemma {:induction false} InsertByCxSorted(c: Centered, s: seq<Centered>)
    requires SortedByCx(s)
    ensures SortedByCx(InsertByCx(c, s))
    ensures multiset(InsertByCx(c, s)) == multiset(s) + multiset{c}
  {
    if s == [] || c.cx <= s[0].cx {
      forall j | 0 <= j < |s| ensures c.cx <= s[j].cx {
        assert s[0].cx <= s[j].cx || j == 0;
      }
      ConsSortedByCx(c, s);
    } else {
      var tail := s[1..];
      assert s == [s[0]] + tail;
      assert SortedByCx(tail) by {
        forall i, j | 0 <= i < j < |tail| ensures tail[i].cx <= tail[j].cx {
          assert tail[i] == s[i + 1] && tail[j] == s[j + 1];
        }
      }
      var t := InsertByCx(c, tail);
      InsertByCxSorted(c, tail);
      forall j | 0 <= j < |t| ensures s[0].cx <= t[j].cx {
        assert t[j] in multiset(tail) + multiset{c};
        if t[j] != c {
          assert t[j] in tail;
          var m :| 0 <= m < |tail| && tail[m] == t[j];
          assert s[m + 1] == t[j];
        }
      }
      ConsSortedByCx(s[0], t);
      assert InsertByCx(c, s) == [s[0]] + t;
    }
  }

  /** The sort returns a permutation of its input, in ascending order of centre. */
  lemma {:induction false} SortByCxSorted(s: seq<Centered>)
    ensures SortedByCx(SortByCx(s))
    ensures multiset(SortByCx(s)) == multiset(s)
  {
    if s != [] {
      assert s == [s[0]] + s[1..];
      SortByCxSorted(s[1..]);
      InsertByCxSorted(s[0], SortByCx(s[1..]));
    }
  }

  lemma WithCxCons(h: Centered, t: seq<Centered>, k: real)
    ensures WithCx([h] + t, k) == (if h.cx == k then [h] else []) + WithCx(t, k)
  {
    assert ([h] + t)[1..] == t;
  }

  /** Insertion places `c` among the entries of its centre in front of them. */
  lemma {:induction false} InsertByCxStable(c: Centered, s: seq<Centered>, k: real)
    ensures WithCx(InsertByCx(c, s), k) == (if c.cx == k then [c] else []) + WithCx(s, k)
  {
    if s == [] || c.cx <= s[0].cx {
      WithCxCons(c, s, k);
    } else {
      var t := InsertByCx(c, s[1..]);
      assert InsertByCx(c, s) == [s[0]] + t;
      WithCxCons(s[0], t, k);
      InsertByCxStable(c, s[1..], k);
      assert s == [s[0]] + s[1..];
      WithCxCons(s[0], s[1..], k);
    }
  }

  /** The sort is stable: entries with equal centres keep their input order. */
  lemma {:induction false} SortByCxStable(s: seq<Centered>, k: real)
    ensures WithCx(SortByCx(s), k) == WithCx(s, k)
  {
    if s != [] {
      SortByCxStable(s[1..], k);
      InsertByCxStable(s[0], SortByCx(s[1..]), k);
      assert s == [s[0]] + s[1..];
    }
  }

  // ---------------------------------------------------------------------------
  // Candidate gutters (lines 102-124).

  /** The gap between the centres at `i` and `i + 1`. */
  function GapAt(s: seq<Centered>, i: nat): (g: Gutter)
    requires i + 1 < |s|
  {
    Gutter((s[i].cx + s[i + 1].cx) / 2.0, s[i + 1].cx - s[i].cx, i)
  }

  /** `x` lies in the central 25-75 % band of the layout, bounds included. */
  predicate InSearchBand(x: real, layout: Box) {
    var w := Width(layout) as real;
    layout.xStart as real + w * GutterSearchLow <= x <= layout.xStart as real + w * GutterSearchHigh
  }

  /** The gap after index `i` is a candidate: midpoint in the band and a positive width. */
  predicate IsCandidate(s: seq<Centered>, layout: Box, i: nat)
    requires i + 1 < |s|
  {
    InSearchBand(GapAt(s, i).x, layout) && GapAt(s, i).width > 0.0
  }

  /** The candidates among the first `n` gaps, in index order. */
  function CandidatesUpTo(s: seq<Centered>, layout: Box, n: nat): (r: seq<Gutter>)
    requires n < |s|
    ensures forall k :: 0 <= k < |r| ==>
      r[k].split < n && IsCandidate(s, layout, r[k].split) && r[k] == GapAt(s, r[k].split)
    ensures forall k1, k2 :: 0 <= k1 < k2 < |r| ==> r[k1].split < r[k2].split
  {
    if n == 0 then []
    else
      CandidatesUpTo(s, layout, n - 1) +
      (if IsCandidate(s, layout, n - 1) then [GapAt(s, n - 1)] else [])
  }

  /** The candidates among all `|s| - 1` neighbouring gaps. */
  function Candidates(s: seq<Centered>, layout: Box): seq<Gutter>
  {
    if s == [] then [] else CandidatesUpTo(s, layout, |s| - 1)
  }

  /** Every candidate gap among the first `n` is listed. */
  lemma {:induction false} CandidatesUpToComplete(s: seq<Centered>, layout: Box, n: nat, i: nat)
    requires n < |s| && i < n && IsCandidate(s, layout, i)
    ensures exists k :: 0 <= k < |CandidatesUpTo(s, layout, n)| && CandidatesUpTo(s, layout, n)[k].split == i
  {
    var r := CandidatesUpTo(s, layout, n);
    if i == n - 1 {
      assert r[|r| - 1].split == i;
    } else {
      CandidatesUpToComplete(s, layout, n - 1, i);
      var k :| 0 <= k < |CandidatesUpTo(s, layout, n - 1)| && CandidatesUpTo(s, layout, n - 1)[k].split == i;
      assert r[k] == CandidatesUpTo(s, layout, n - 1)[k];
    }
  }

  /** A gap is listed among the candidates exactly when it is one. */
  lemma CandidatesExact(s: seq<Centered>, layout: Box, i: nat)
    requires i + 1 < |s|
    ensures IsCandidate(s, layout, i) <==> exists k :: 0 <= k < |Candidates(s, layout)| && Candidates(s, layout)[k].split == i
  {
    assert Candidates(s, layout) == CandidatesUpTo(s, layout, |s| - 1);
    if IsCandidate(s, layout, i) {
      CandidatesUpToComplete(s, layout, |s| - 1, i);
    }
  }

  /** Lines 105-121: the loop that appends each candidate gap, in index order. */
  method CollectGutters(sorted: seq<Centered>, layout: Box) returns (gutters: seq<Gutter>)
    ensures gutters == Candidates(sorted, layout)
  {
    gutters := [];
    var i := 0;
    while i < |sorted| - 1
      invariant 0 <= i && (sorted == [] || i < |sorted|)
      invariant gutters == if sorted == [] then [] else CandidatesUpTo(sorted, layout, i)
    {
      var left, right := sorted[i], sorted[i + 1];
      var midpoint := (left.cx + right.cx) / 2.0;
      var gapWidth := right.cx - left.cx;
      var minGutterX := layout.xStart as real + Width(layout) as real * GutterSearchLow;
      var maxGutterX := layout.xStart as real + Width(layout) as real * GutterSearchHigh;
      assert GapAt(sorted, i) == Gutter(midpoint, gapWidth, i);
      assert IsCandidate(sorted, layout, i) <==> minGutterX <= midpoint <= maxGutterX && gapWidth > 0.0;
      assert CandidatesUpTo(sorted, layout, i + 1) == CandidatesUpTo(sorted, layout, i) +
        (if IsCandidate(sorted, layout, i) then [GapAt(sorted, i)] else []);
      if minGutterX <= midpoint <= maxGutterX && gapWidth > 0.0 {
        gutters := gutters + [Gutter(midpoint, gapWidth, i)];
      }
      i := i + 1;
    }
  }

  // ---------------------------------------------------------------------------
  // `max(potential_gutters, key=lambda g: g['gap_width_centers'])`.

  /** The position of the widest gutter; on a tie the first, as Python's `max` keeps it. */
  function FirstMaxIndex(gs: seq<Gutter>): (k: nat)
    requires |gs| > 0
    ensures k < |gs|
    ensures forall j :: 0 <= j < |gs| ==> gs[j].width <= gs[k].width
    ensures forall j :: 0 <= j < k ==> gs[j].width < gs[k].width
  {
    if |gs| == 1 then 0
    else
      var k := FirstMaxIndex(gs[..|gs| - 1]);
      if gs[|gs| - 1].width > gs[k].width then |gs| - 1 else k
  }

  /**
   * The chosen gutter is a candidate, no candidate gap is wider, and every candidate gap
   * to its left is strictly narrower.
   */
  lemma BestGutterIsFirstWidest(s: seq<Centered>, layout: Box)
    requires Candidates(s, layout) != []
    ensures var cands := Candidates(s, layout);
      var best := cands[FirstMaxIndex(cands)];
      best.split + 1 < |s| && IsCandidate(s, layout, best.split) && best == GapAt(s, best.split) &&
      (forall i :: 0 <= i < |s| - 1 && IsCandidate(s, layout, i) ==> GapAt(s, i).width <= best.width) &&
      (forall i :: 0 <= i < best.split && IsCandidate(s, layout, i) ==> GapAt(s, i).width < best.width)
  {
    var cands := Candidates(s, layout);
    var kb := FirstMaxIndex(cands);
    var best := cands[kb];
    forall i | 0 <= i < |s| - 1 && IsCandidate(s, layout, i)
      ensures GapAt(s, i).width <= best.width
      ensures i < best.split ==> GapAt(s, i).width < best.width
    {
      CandidatesExact(s, layout, i);
      var k :| 0 <= k < |cands| && cands[k].split == i;
      assert cands[k] == GapAt(s, i);
      if i < best.split {
        assert k < kb;
      }
    }
  }

  /** Every centre left of the chosen split is strictly below every centre right of it. */
  lemma SplitSeparates(s: seq<Centered>, split: nat)
    requires SortedByCx(s) && split + 1 < |s| && GapAt(s, split).width > 0.0
    ensures forall i, j :: 0 <= i <= split < j < |s| ==> s[i].cx < s[j].cx
  {
    forall i, j | 0 <= i <= split < j < |s|
      ensures s[i].cx < s[j].cx
    {
      assert s[i].cx <= s[split].cx;
      assert s[split + 1].cx <= s[j].cx;
    }
  }

  /** The same separation read on the boxes' own centres, once every entry carries its box's centre. */
  lemma SplitBoxesSeparate(s: seq<Centered>, split: nat)
    requires SortedByCx(s) && split + 1 < |s| && GapAt(s, split).width > 0.0
    requires forall i :: 0 <= i < |s| ==> s[i].cx == XCenter(s[i].bbox)
    ensures var left, right := Boxes(s[..split + 1]), Boxes(s[split + 1..]);
      forall i, j :: 0 <= i < |left| && 0 <= j < |right| ==> XCenter(left[i]) < XCenter(right[j])
  {
    SplitSeparates(s, split);
    var left, right := Boxes(s[..split + 1]), Boxes(s[split + 1..]);
    forall i, j | 0 <= i < |left| && 0 <= j < |right|
      ensures XCenter(left[i]) < XCenter(right[j])
    {
      assert left[i] == s[i].bbox;
      assert right[j] == s[split + 1 + j].bbox;
    }
  }

}
