/**
 * The order statistics the column validator uses: Python's `min`/`max` over a group
 * and `np.median`, which sorts its input and takes the middle element, or the mean of
 * the two middle elements when the count is even.
 */
module Stats {

  predicate Ascending(s: seq<int>) {
    forall i, j :: 0 <= i < j < |s| ==> s[i] <= s[j]
  }

  /** The least element of a non-empty sequence. */
  function MinOf(xs: seq<int>): (m: int)
    requires |xs| > 0
    ensures m in xs
    ensures forall i :: 0 <= i < |xs| ==> m <= xs[i]
  {
    if |xs| == 1 then xs[0]
    else
      var rest := MinOf(xs[1..]);
      if xs[0] <= rest then xs[0] else rest
  }

  /** The greatest element of a non-empty sequence. */
  function MaxOf(xs: seq<int>): (m: int)
    requires |xs| > 0
    ensures m in xs
    ensures forall i :: 0 <= i < |xs| ==> xs[i] <= m
  {
    if |xs| == 1 then xs[0]
    else
      var rest := MaxOf(xs[1..]);
      if xs[0] >= rest then xs[0] else rest
  }

  /** Inserts `x` in front of the first element that is not below it. */
  function Insert(x: int, s: seq<int>): seq<int>
  {
    if s == [] || x <= s[0] then [x] + s else [s[0]] + Insert(x, s[1..])
  }

  /** Insertion sort, as `np.median` sorts its input first. */
  function SortInts(xs: seq<int>): seq<int>
  {
    if xs == [] then [] else Insert(xs[0], SortInts(xs[1..]))
  }

  lemma ConsAscending(h: int, t: seq<int>)
    requires Ascending(t)
    requires forall j :: 0 <= j < |t| ==> h <= t[j]
    ensures Ascending([h] + t)
  {
    var r := [h] + t;
    forall i, j | 0 <= i < j < |r| ensures r[i] <= r[j] {
      assert r[j] == t[j - 1];
      if i > 0 { assert r[i] == t[i - 1]; }
    }
  }

  /** Inserting into an ascending sequence keeps it ascending and adds exactly `x`. */
  lemma {:induction false} InsertAscending(x: int, s: seq<int>)
    requires Ascending(s)
    ensures Ascending(Insert(x, s))
    ensures multiset(Insert(x, s)) == multiset(s) + multiset{x}
  {
    if s == [] || x <= s[0] {
      forall j | 0 <= j < |s| ensures x <= s[j] {
        assert s[0] <= s[j] || j == 0;
      }
      ConsAscending(x, s);
    } else {
      var tail := s[1..];
      assert s == [s[0]] + tail;
      assert Ascending(tail) by {
        forall i, j | 0 <= i < j < |tail| ensures tail[i] <= tail[j] {
          assert tail[i] == s[i + 1] && tail[j] == s[j + 1];
        }
      }
      var t := Insert(x, tail);
      InsertAscending(x, tail);
      forall j | 0 <= j < |t| ensures s[0] <= t[j] {
        assert t[j] in multiset(tail) + multiset{x};
        if t[j] != x {
          assert t[j] in tail;
          var m :| 0 <= m < |tail| && tail[m] == t[j];
          assert s[m + 1] == t[j];
        }
      }
      ConsAscending(s[0], t);
      assert Insert(x, s) == [s[0]] + t;
    }
  }

  /** The sort returns an ascending permutation of its input. */
  lemma {:induction false} SortIntsAscending(xs: seq<int>)
    ensures Ascending(SortInts(xs))
    ensures multiset(SortInts(xs)) == multiset(xs)
  {
    if xs != [] {
      assert xs == [xs[0]] + xs[1..];
      SortIntsAscending(xs[1..]);
      InsertAscending(xs[0], SortInts(xs[1..]));
    }
  }

  /** The head of an ascending sequence is below every value it holds. */
  lemma HeadIsLeast(s: seq<int>, x: int)
    requires Ascending(s) && x in multiset(s)
    ensures s[0] <= x
  {
    assert x in s;
    var i :| 0 <= i < |s| && s[i] == x;
    assert i == 0 || s[0] <= s[i];
  }

  lemma TailAscending(s: seq<int>)
    requires Ascending(s) && s != []
    ensures Ascending(s[1..])
  {
    var t := s[1..];
    forall i, j | 0 <= i < j < |t| ensures t[i] <= t[j] {
      assert t[i] == s[i + 1] && t[j] == s[j + 1];
    }
  }

  /** Removing equal heads from sequences holding the same values leaves tails holding the same values. */
  lemma SameTailValues(a: seq<int>, b: seq<int>)
    requires a != [] && b != [] && a[0] == b[0]
    requires multiset(a) == multiset(b)
    ensures multiset(a[1..]) == multiset(b[1..])
  {
    assert a == [a[0]] + a[1..];
    assert b == [b[0]] + b[1..];
    var ta, tb := multiset(a[1..]), multiset(b[1..]);
    assert multiset(a) == multiset{a[0]} + ta;
    assert multiset(b) == multiset{a[0]} + tb;
    forall x ensures ta[x] == tb[x] {
      assert multiset(a)[x] == multiset{a[0]}[x] + ta[x];
      assert multiset(b)[x] == multiset{a[0]}[x] + tb[x];
    }
  }

  /** There is only one ascending arrangement of a multiset of numbers. */
  lemma {:induction false} AscendingUnique(a: seq<int>, b: seq<int>)
    requires Ascending(a) && Ascending(b)
    requires multiset(a) == multiset(b)
    ensures a == b
  {
    if a != [] {
      assert |b| == |a| by {
        assert |b| == |multiset(b)| && |a| == |multiset(a)|;
      }
      assert a[0] in multiset(b) by { assert a[0] in a; }
      assert b[0] in multiset(a) by { assert b[0] in b; }
      HeadIsLeast(a, b[0]);
      HeadIsLeast(b, a[0]);
      TailAscending(a);
      TailAscending(b);
      SameTailValues(a, b);
      AscendingUnique(a[1..], b[1..]);
      assert a == [a[0]] + a[1..];
      assert b == [b[0]] + b[1..];
    }
  }

  /** `np.median`: the middle of the sorted values, or the mean of the two middle ones. */
  function Median(xs: seq<int>): (m: real)
    requires |xs| > 0
    ensures MinOf(xs) as real <= m <= MaxOf(xs) as real
  {
    SortIntsAscending(xs);
    var s := SortInts(xs);
    var n := |s|;
    assert |multiset(s)| == |xs|;
    assert forall k :: 0 <= k < n ==> s[k] in multiset(xs);
    if n % 2 == 1 then s[n / 2] as real
    else (s[n / 2 - 1] + s[n / 2]) as real / 2.0
  }

  /** The median of values already in ascending order is read off their middle position. */
  lemma MedianOfAscending(xs: seq<int>)
    requires |xs| > 0 && Ascending(xs)
    ensures Median(xs) == if |xs| % 2 == 1 then xs[|xs| / 2] as real
                          else (xs[|xs| / 2 - 1] + xs[|xs| / 2]) as real / 2.0
  {
    assert SortInts(xs) == xs by {
      SortIntsAscending(xs);
      AscendingUnique(SortInts(xs), xs);
    }
    MedianReadsSorted(xs);
  }

  lemma MedianReadsSorted(xs: seq<int>)
    requires |xs| > 0 && SortInts(xs) == xs
    ensures Median(xs) == if |xs| % 2 == 1 then xs[|xs| / 2] as real
                          else (xs[|xs| / 2 - 1] + xs[|xs| / 2]) as real / 2.0
  {
  }

  /** The median depends only on the values, not on their order. */
  lemma MedianIgnoresOrder(xs: seq<int>, ys: seq<int>)
    requires |xs| > 0
    requires multiset(xs) == multiset(ys)
    ensures |ys| > 0
    ensures Median(xs) == Median(ys)
  {
    assert |ys| == |multiset(ys)| == |multiset(xs)| == |xs|;
    SortIntsAscending(xs);
    SortIntsAscending(ys);
    AscendingUnique(SortInts(xs), SortInts(ys));
  }
}
