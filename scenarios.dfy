/** Two concrete pages worked through the whole classifier. */
module Scenarios {
  import opened Wrappers
  import opened Geometry
  import opened Spanning
  import opened Gutters
  import Stats
  import opened Columns
  import opened TwoColumn

  /** Two stacked boxes per column in a 1000 x 800 layout; `dy` moves the right column down. */
  function Page(dy: int): Layout
  {
    Layout(Some(Box(0, 0, 1000, 800)),
           Some([Box(50, 50, 450, 400), Box(550, 50 + dy, 950, 400 + dy),
                 Box(50, 400, 450, 750), Box(550, 400 + dy, 950, 750 + dy)]))
  }

  function PageBox(): Box { Box(0, 0, 1000, 800) }

  function LeftGroup(): seq<Box> { [Box(50, 50, 450, 400), Box(50, 400, 450, 750)] }

  function RightGroup(dy: int): seq<Box> { [Box(550, 50 + dy, 950, 400 + dy), Box(550, 400 + dy, 950, 750 + dy)] }

  /** The page's centred boxes in the order the stable sort puts them. */
  function PageSorted(dy: int): seq<Centered>
  {
    [Centered(250.0, Box(50, 50, 450, 400)), Centered(250.0, Box(50, 400, 450, 750)),
     Centered(750.0, Box(550, 50 + dy, 950, 400 + dy)), Centered(750.0, Box(550, 400 + dy, 950, 750 + dy))]
  }

  lemma PageGroups(dy: int)
    ensures Boxes(PageSorted(dy)[..2]) == [Box(50, 50, 450, 400), Box(50, 400, 450, 750)]
    ensures Boxes(PageSorted(dy)[2..]) == [Box(550, 50 + dy, 950, 400 + dy), Box(550, 400 + dy, 950, 750 + dy)]
  {
  }

  lemma PageKeepsAll(dy: int)
    ensures NonSpanning(Page(dy).text.value, PageBox()) == Page(dy).text.value
  {
    NonSpanningKeepsAll(Page(dy).text.value, PageBox());
  }

  lemma PageSorts(dy: int)
    ensures SortByCx(Centres(Page(dy).text.value)) == PageSorted(dy)
  {
    var text := Page(dy).text.value;
    var cs := Centres(text);
    var a, b, c, d := cs[0], cs[1], cs[2], cs[3];
    assert cs == [a, b, c, d];
    assert a.cx == 250.0 && c.cx == 250.0 && b.cx == 750.0 && d.cx == 750.0;
    assert [d][1..] == [] && [c, d][1..] == [d] && [b, c, d][1..] == [c, d] && cs[1..] == [b, c, d];
    assert SortByCx([d]) == [d];
    assert SortByCx([c, d]) == [c, d];
    assert InsertByCx(b, [d]) == [b, d];
    assert InsertByCx(b, [c, d]) == [c] + InsertByCx(b, [d]);
    assert SortByCx([b, c, d]) == [c, b, d];
    assert [c, b, d][1..] == [b, d];
    assert InsertByCx(a, [c, b, d]) == [a, c, b, d];
  }

  lemma PageCandidates(dy: int)
    ensures Candidates(PageSorted(dy), PageBox()) == [GapAt(PageSorted(dy), 1)]
  {
    var sorted, lb := PageSorted(dy), PageBox();
    assert !IsCandidate(sorted, lb, 0) && IsCandidate(sorted, lb, 1) && !IsCandidate(sorted, lb, 2);
    assert CandidatesUpTo(sorted, lb, 1) == [];
    assert CandidatesUpTo(sorted, lb, 2) == [GapAt(sorted, 1)];
    assert CandidatesUpTo(sorted, lb, 3) == [GapAt(sorted, 1)];
  }

  lemma PageSplit(dy: int)
    ensures var best := GapAt(PageSorted(dy), 1);
      FindSplit(Page(dy)) ==
        Some(Split(Page(dy).text.value, PageSorted(dy), [best], best, LeftGroup(), RightGroup(dy)))
  {
    PageKeepsAll(dy);
    PageSplitKept(dy);
  }

  lemma PageSplitKept(dy: int)
    ensures var best := GapAt(PageSorted(dy), 1);
      SplitKept(PageBox(), Page(dy).text.value) ==
        Some(Split(Page(dy).text.value, PageSorted(dy), [best], best,
                   [Box(50, 50, 450, 400), Box(50, 400, 450, 750)],
                   [Box(550, 50 + dy, 950, 400 + dy), Box(550, 400 + dy, 950, 750 + dy)]))
  {
    PageSorts(dy);
    PageCandidates(dy);
    PageGroups(dy);
    var best := GapAt(PageSorted(dy), 1);
    assert FirstMaxIndex([best]) == 0;
    assert best.split == 1;
  }

  /**
   * Moving the right column down (or up) by `dy` keeps every check but the vertical
   * cohesion one satisfied; that one holds while the columns still share 0.4 of their
   * 700 px height, so the page is two-column exactly when |dy| <= 420. At dy == 0 this is
   * clear two-column prose; at |dy| >= 700 the blocks do not overlap at all.
   */
  lemma ShiftedColumnsVerdict(dy: int)
    ensures IsTwoColumn(Page(dy)) <==> -420 <= dy <= 420
  {
    PageVerdictIsGroupsVerdict(dy);
    ShiftedGroupsVerdict(dy);
  }

  lemma PageVerdictIsGroupsVerdict(dy: int)
    ensures IsTwoColumn(Page(dy)) == ColumnsValid(LeftGroup(), RightGroup(dy), 800)
  {
    PageSplit(dy);
    var sp := FindSplit(Page(dy)).value;
    assert sp.left == LeftGroup() && sp.right == RightGroup(dy);
    VerdictOfSplit(Page(dy), sp);
  }

  lemma ShiftedGroupsVerdict(dy: int)
    ensures ColumnsValid(LeftGroup(), RightGroup(dy), 800) <==> -420 <= dy <= 420
  {
    LeftMeasures();
    RightMeasures(dy);
    OverlapMeasure(dy);
    ColumnsValidIsExact(LeftGroup(), RightGroup(dy), 800);
  }

  lemma LeftMeasures()
    ensures Stats.Median(XEnds(LeftGroup())) == 450.0 && SpanHeight(LeftGroup()) == 700
  {
    var left := LeftGroup();
    assert XEnds(left) == [450, 450];
    assert YStarts(left) == [50, 400] && YEnds(left) == [400, 750];
    MedianPair(450);
  }

  lemma RightMeasures(dy: int)
    ensures Stats.Median(XStarts(RightGroup(dy))) == 550.0 && SpanHeight(RightGroup(dy)) == 700
  {
    var right := RightGroup(dy);
    assert XStarts(right) == [550, 550];
    assert YStarts(right) == [50 + dy, 400 + dy] && YEnds(right) == [400 + dy, 750 + dy];
    MedianPair(550);
  }

  lemma OverlapMeasure(dy: int)
    ensures VerticalOverlap(LeftGroup(), RightGroup(dy)) == Max(0, 700 - (if dy < 0 then -dy else dy))
  {
    var left, right := LeftGroup(), RightGroup(dy);
    assert YStarts(left) == [50, 400] && YEnds(left) == [400, 750];
    assert YStarts(right) == [50 + dy, 400 + dy] && YEnds(right) == [400 + dy, 750 + dy];
  }

  // ---------------------------------------------------------------------------
  // Mirroring a page can change the verdict: with two equally wide gaps the
  // first-maximum choice picks the leftmost, which mirroring turns into the rightmost.

  /** The reflection of a box about the vertical centre line of `frame`. */
  function MirrorBox(b: Box, frame: Box): (m: Box)
    ensures Width(m) == Width(b) && m.yStart == b.yStart && m.yEnd == b.yEnd
    ensures XCenter(m) == (frame.xStart + frame.xEnd) as real - XCenter(b)
  {
    Box(frame.xStart + frame.xEnd - b.xEnd, b.yStart, frame.xStart + frame.xEnd - b.xStart, b.yEnd)
  }

  /** A layout reflected left to right about its own centre line, text boxes included. */
  function MirrorLayout(layout: Layout): Layout
  {
    match layout.bbox
    case None => layout
    case Some(frame) =>
      Layout(layout.bbox,
             match layout.text
             case None => None
             case Some(t) => Some(seq(|t|, i requires 0 <= i < |t| => MirrorBox(t[i], frame))))
  }

  /** A 1000 x 800 page whose centres are 300, 300, 500, 700: two equal widest gaps. */
  function TiePage(): Layout
  {
    Layout(Some(Box(0, 0, 1000, 800)), Some(TieText()))
  }

  function TieText(): seq<Box>
  {
    [Box(200, 0, 400, 400), Box(200, 400, 400, 800), Box(420, 0, 580, 800), Box(600, 0, 800, 800)]
  }

  /** The text boxes of the mirrored page, centres 700, 700, 500, 300. */
  function MirroredTieText(): seq<Box>
  {
    [Box(600, 0, 800, 400), Box(600, 400, 800, 800), Box(420, 0, 580, 800), Box(200, 0, 400, 800)]
  }

  function TieSorted(): seq<Centered>
  {
    [Centered(300.0, Box(200, 0, 400, 400)), Centered(300.0, Box(200, 400, 400, 800)),
     Centered(500.0, Box(420, 0, 580, 800)), Centered(700.0, Box(600, 0, 800, 800))]
  }

  function MirroredTieSorted(): seq<Centered>
  {
    [Centered(300.0, Box(200, 0, 400, 800)), Centered(500.0, Box(420, 0, 580, 800)),
     Centered(700.0, Box(600, 0, 800, 400)), Centered(700.0, Box(600, 400, 800, 800))]
  }

  lemma MirrorTiePage()
    ensures MirrorLayout(TiePage()) == Layout(Some(PageBox()), Some(MirroredTieText()))
  {
    var t := TieText();
    var m := seq(|t|, i requires 0 <= i < |t| => MirrorBox(t[i], PageBox()));
    assert |m| == 4;
    assert m[0] == Box(600, 0, 800, 400) && m[1] == Box(600, 400, 800, 800);
    assert m[2] == Box(420, 0, 580, 800) && m[3] == Box(200, 0, 400, 800);
    assert m == MirroredTieText();
  }

  lemma TieSorts()
    ensures SortByCx(Centres(TieText())) == TieSorted()
  {
    var cs := Centres(TieText());
    var a, b, c, d := cs[0], cs[1], cs[2], cs[3];
    assert cs == [a, b, c, d];
    assert a.cx == 300.0 && b.cx == 300.0 && c.cx == 500.0 && d.cx == 700.0;
    assert [d][1..] == [] && [c, d][1..] == [d] && [b, c, d][1..] == [c, d] && cs[1..] == [b, c, d];
    assert SortByCx([d]) == [d];
    assert SortByCx([c, d]) == [c, d];
    assert SortByCx([b, c, d]) == [b, c, d];
    assert SortByCx(cs) == InsertByCx(a, [b, c, d]) == [a, b, c, d];
  }

  lemma MirroredTieSorts()
    ensures SortByCx(Centres(MirroredTieText())) == MirroredTieSorted()
  {
    var cs := Centres(MirroredTieText());
    var a, b, c, d := cs[0], cs[1], cs[2], cs[3];
    assert cs == [a, b, c, d];
    assert a.cx == 700.0 && b.cx == 700.0 && c.cx == 500.0 && d.cx == 300.0;
    assert [d][1..] == [] && [c, d][1..] == [d] && [b, c, d][1..] == [c, d] && cs[1..] == [b, c, d];
    assert [d, c][1..] == [c] && [c][1..] == [] && [c, b][1..] == [b] && [b][1..] == [];
    assert [d, c, b][1..] == [c, b];
    assert SortByCx([d]) == [d];
    assert InsertByCx(c, [d]) == [d] + InsertByCx(c, []);
    assert SortByCx([c, d]) == [d, c];
    assert InsertByCx(b, [c]) == [c, b];
    assert InsertByCx(b, [d, c]) == [d] + InsertByCx(b, [c]);
    assert SortByCx([b, c, d]) == [d, c, b];
    assert InsertByCx(a, [b]) == [a, b];
    assert InsertByCx(a, [c, b]) == [c] + InsertByCx(a, [b]);
    assert InsertByCx(a, [d, c, b]) == [d] + InsertByCx(a, [c, b]);
  }

  lemma TieCandidates()
    ensures Candidates(TieSorted(), PageBox()) == [GapAt(TieSorted(), 1), GapAt(TieSorted(), 2)]
  {
    var sorted, lb := TieSorted(), PageBox();
    assert !IsCandidate(sorted, lb, 0) && IsCandidate(sorted, lb, 1) && IsCandidate(sorted, lb, 2);
    assert CandidatesUpTo(sorted, lb, 1) == [];
    assert CandidatesUpTo(sorted, lb, 2) == [GapAt(sorted, 1)];
  }

  lemma MirroredTieCandidates()
    ensures Candidates(MirroredTieSorted(), PageBox()) ==
      [GapAt(MirroredTieSorted(), 0), GapAt(MirroredTieSorted(), 1)]
  {
    var sorted, lb := MirroredTieSorted(), PageBox();
    assert IsCandidate(sorted, lb, 0) && IsCandidate(sorted, lb, 1) && !IsCandidate(sorted, lb, 2);
    assert CandidatesUpTo(sorted, lb, 1) == [GapAt(sorted, 0)];
    assert CandidatesUpTo(sorted, lb, 2) == CandidatesUpTo(sorted, lb, 1) + [GapAt(sorted, 1)];
    assert CandidatesUpTo(sorted, lb, 3) == CandidatesUpTo(sorted, lb, 2);
  }

  function TieLeft(): seq<Box> { [Box(200, 0, 400, 400), Box(200, 400, 400, 800)] }

  function TieRight(): seq<Box> { [Box(420, 0, 580, 800), Box(600, 0, 800, 800)] }

  lemma TieKeepsAll()
    ensures NonSpanning(TieText(), PageBox()) == TieText()
  {
    NonSpanningKeepsAll(TieText(), PageBox());
  }

  lemma MirroredTieKeepsAll()
    ensures NonSpanning(MirroredTieText(), PageBox()) == MirroredTieText()
  {
    NonSpanningKeepsAll(MirroredTieText(), PageBox());
  }

  lemma TieSplitKept()
    ensures var best := GapAt(TieSorted(), 1);
      SplitKept(PageBox(), TieText()) ==
        Some(Split(TieText(), TieSorted(), [best, GapAt(TieSorted(), 2)], best, TieLeft(), TieRight()))
  {
    TieSorts();
    TieCandidates();
    var sorted := TieSorted();
    var best := GapAt(sorted, 1);
    assert FirstMaxIndex([best, GapAt(sorted, 2)]) == 0;
    assert best.split == 1;
    assert Boxes(sorted[..2]) == TieLeft();
    assert Boxes(sorted[2..]) == TieRight();
  }

  lemma MirroredTieSplitKept()
    ensures SplitKept(PageBox(), MirroredTieText()).Some?
    ensures |SplitKept(PageBox(), MirroredTieText()).value.left| == 1
  {
    MirroredTieSorts();
    MirroredTieCandidates();
    var sorted := MirroredTieSorted();
    assert FirstMaxIndex([GapAt(sorted, 0), GapAt(sorted, 1)]) == 0;
    assert GapAt(sorted, 0).split == 0;
  }

  /** A page that passes the early checks and has no spanning box is judged on the split of all its boxes. */
  lemma VerdictOfUnfilteredPage(page: Layout, sp: Split)
    requires PassesEarlyChecks(page)
    requires NonSpanning(page.text.value, page.bbox.value) == page.text.value
    requires SplitKept(page.bbox.value, page.text.value) == Some(sp)
    ensures IsTwoColumn(page) == ColumnsValid(sp.left, sp.right, Height(page.bbox.value))
  {
    VerdictOfSplit(page, sp);
  }

  lemma TieLeftMeasures()
    ensures Stats.Median(XEnds(TieLeft())) == 400.0 && SpanHeight(TieLeft()) == 800
    ensures Top(TieLeft()) == 0 && Bottom(TieLeft()) == 800
  {
    var left := TieLeft();
    assert XEnds(left) == [400, 400];
    assert YStarts(left) == [0, 400] && YEnds(left) == [400, 800];
    MedianPair(400);
  }

  lemma TieRightMeasures()
    ensures Stats.Median(XStarts(TieRight())) == 510.0 && SpanHeight(TieRight()) == 800
    ensures Top(TieRight()) == 0 && Bottom(TieRight()) == 800
  {
    var right := TieRight();
    assert XStarts(right) == [420, 600];
    assert YStarts(right) == [0, 0] && YEnds(right) == [800, 800];
    MedianOfTwo(420, 600);
  }

  lemma TieGroupsValid()
    ensures ColumnsValid(TieLeft(), TieRight(), 800)
  {
    TieLeftMeasures();
    TieRightMeasures();
    ColumnsValidIsExact(TieLeft(), TieRight(), 800);
  }

  /**
   * Mirroring every box about the layout's centre line does not always keep the verdict:
   * this page is two-column, its mirror image is not.
   */
  lemma MirrorChangesVerdict()
    ensures IsTwoColumn(TiePage())
    ensures !IsTwoColumn(MirrorLayout(TiePage()))
  {
    TieIsTwoColumn();
    MirroredTieIsNot();
  }

  lemma TieIsTwoColumn()
    ensures IsTwoColumn(TiePage())
  {
    TieKeepsAll();
    TieSplitKept();
    var best := GapAt(TieSorted(), 1);
    VerdictOfUnfilteredPage(TiePage(),
      Split(TieText(), TieSorted(), [best, GapAt(TieSorted(), 2)], best, TieLeft(), TieRight()));
    TieGroupsValid();
  }

  lemma MirroredTieIsNot()
    ensures !IsTwoColumn(MirrorLayout(TiePage()))
  {
    MirrorTiePage();
    MirroredTieKeepsAll();
    MirroredTieSplitKept();
    var page := Layout(Some(PageBox()), Some(MirroredTieText()));
    VerdictOfUnfilteredPage(page, SplitKept(PageBox(), MirroredTieText()).value);
  }

  lemma MedianOfTwo(x: int, y: int)
    requires x <= y
    ensures Stats.Median([x, y]) == (x + y) as real / 2.0
  {
    Stats.MedianOfAscending([x, y]);
  }

  lemma MedianPair(x: int)
    ensures Stats.Median([x, x]) == x as real
  {
    assert Stats.SortInts([x]) == [x];
    assert Stats.SortInts([x, x]) == [x, x];
  }
}
