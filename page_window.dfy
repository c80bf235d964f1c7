/** The page window: which page numbers a pagination control shows for a
    number of pages, a current page and a budget of numbers to show, and where
    the ellipsis markers go. `Window` follows the code step by step;
    `Marked(ShownPages(..))` states the same result as rules (page 1, a
    contiguous sliding block, the last page, an ellipsis at every skip), and
    the lemmas below prove the two equal and derive the window's properties. */
module PageWindow {

  datatype Marker = Page(num: int, isCurrent: bool) | Ellipsis

  /** Pages shown on each side of the current one: floor((max - 3) / 2). */
  function NumAdjacents(maxPagesToShow: int): int {
    (maxPagesToShow - 3) / 2
  }

  /** First page of the sliding block: centred on the current page, moved
      left when the current page is near the end, never before page 2. */
  function SlidingStart(numPages: int, currentPage: int, maxPagesToShow: int): int {
    var start :=
      if currentPage + NumAdjacents(maxPagesToShow) > numPages then numPages - maxPagesToShow + 2
      else currentPage - NumAdjacents(maxPagesToShow);
    if start < 2 then 2 else start
  }

  /** Last page of the sliding block, never past the page before the last. */
  function SlidingEnd(numPages: int, currentPage: int, maxPagesToShow: int): int {
    var end := SlidingStart(numPages, currentPage, maxPagesToShow) + maxPagesToShow - 3;
    if end >= numPages then numPages - 1 else end
  }

  /** Markers for the pages lo..hi, each flagged when it is the current page. */
  function Run(lo: int, hi: int, currentPage: int): (r: seq<Marker>)
    ensures |r| == if lo <= hi then hi - lo + 1 else 0
    ensures forall k :: 0 <= k < |r| ==> r[k] == Page(lo + k, lo + k == currentPage)
    decreases hi - lo
  {
    if lo > hi then [] else [Page(lo, lo == currentPage)] + Run(lo + 1, hi, currentPage)
  }

  /** One more page at the end of a run. */
  lemma RunSnoc(lo: int, hi: int, currentPage: int)
    requires lo <= hi + 1
    ensures Run(lo, hi + 1, currentPage) == Run(lo, hi, currentPage) + [Page(hi + 1, hi + 1 == currentPage)]
  {
  }

  /** The window as the code builds it: nothing for at most one page, every
      page when they all fit, otherwise page 1, an ellipsis if the block does
      not start at page 2, the block, an ellipsis if it does not end at the
      page before the last, and the last page. */
  function Window(numPages: int, currentPage: int, maxPagesToShow: int): seq<Marker> {
    if numPages <= 1 then []
    else if numPages <= maxPagesToShow then Run(1, numPages, currentPage)
    else
      var start := SlidingStart(numPages, currentPage, maxPagesToShow);
      var end := SlidingEnd(numPages, currentPage, maxPagesToShow);
      [Page(1, currentPage == 1)]
      + (if start > 2 then [Ellipsis] else [])
      + Run(start, end, currentPage)
      + (if end < numPages - 1 then [Ellipsis] else [])
      + [Page(numPages, currentPage == numPages)]
  }

  /** The integers lo..hi. */
  function Range(lo: int, hi: int): (r: seq<int>)
    ensures |r| == if lo <= hi then hi - lo + 1 else 0
    ensures forall k :: 0 <= k < |r| ==> r[k] == lo + k
    decreases hi - lo
  {
    if lo > hi then [] else [lo] + Range(lo + 1, hi)
  }

  /** The page numbers the window shows, in display order. */
  function ShownPages(numPages: int, currentPage: int, maxPagesToShow: int): seq<int> {
    if numPages <= 1 then []
    else if numPages <= maxPagesToShow then Range(1, numPages)
    else
      [1] + Range(SlidingStart(numPages, currentPage, maxPagesToShow),
                  SlidingEnd(numPages, currentPage, maxPagesToShow)) + [numPages]
  }

  /** Markers for the page numbers `p`, with an ellipsis wherever two
      neighbouring numbers are not consecutive. */
  function Marked(p: seq<int>, currentPage: int): seq<Marker>
    decreases |p|
  {
    if |p| == 0 then []
    else if |p| == 1 then [Page(p[0], p[0] == currentPage)]
    else
      [Page(p[0], p[0] == currentPage)]
      + (if p[1] > p[0] + 1 then [Ellipsis] else [])
      + Marked(p[1..], currentPage)
  }

  /** The numbers of the page markers, in order. */
  function Nums(ms: seq<Marker>): seq<int>
    decreases |ms|
  {
    if ms == [] then [] else (if ms[0].Page? then [ms[0].num] else []) + Nums(ms[1..])
  }

  ghost predicate Increasing(p: seq<int>) {
    forall i, j :: 0 <= i < j < |p| ==> p[i] < p[j]
  }

  ghost predicate PagesIncreasing(ms: seq<Marker>) {
    forall i, j :: 0 <= i < j < |ms| && ms[i].Page? && ms[j].Page? ==> ms[i].num < ms[j].num
  }

  // ---------------------------------------------------------------------------
  // The sliding block

  /** Where the block lies when the pages do not all fit: inside [2, n - 1],
      at most max - 2 pages long, empty only when it would start at the last
      page, and covering the current page whenever that is neither the first
      nor the last. */
  lemma SlidingBounds(numPages: int, currentPage: int, maxPagesToShow: int)
    requires numPages > maxPagesToShow >= 3
    ensures var s, e := SlidingStart(numPages, currentPage, maxPagesToShow),
                        SlidingEnd(numPages, currentPage, maxPagesToShow);
      && 2 <= s <= numPages && e <= numPages - 1 && s - 1 <= e
      && e - s + 1 <= maxPagesToShow - 2
      && (s > e ==> s == numPages && e == numPages - 1)
      && (2 <= currentPage <= numPages - 1 ==> s <= currentPage <= e)
  {
    var a := NumAdjacents(maxPagesToShow);
    assert 0 <= 2 * a <= maxPagesToShow - 3;
  }

  // ---------------------------------------------------------------------------
  // The code's window equals the rule-based one

  lemma {:induction false} MarkedRange(lo: int, hi: int, currentPage: int)
    requires lo <= hi
    ensures Marked(Range(lo, hi), currentPage) == Run(lo, hi, currentPage)
    decreases hi - lo
  {
    if lo < hi {
      MarkedRange(lo + 1, hi, currentPage);
      assert Range(lo, hi)[1..] == Range(lo + 1, hi);
    }
  }

  lemma {:induction false} MarkedRangeThen(lo: int, hi: int, last: int, currentPage: int)
    requires lo <= hi < last
    ensures Marked(Range(lo, hi) + [last], currentPage)
         == Run(lo, hi, currentPage) + (if last > hi + 1 then [Ellipsis] else [])
            + [Page(last, last == currentPage)]
    decreases hi - lo
  {
    var p := Range(lo, hi) + [last];
    var first := [Page(lo, lo == currentPage)];
    if lo == hi {
      assert p == [lo, last];
      assert p[1..] == [last];
      assert Run(lo, hi, currentPage) == first;
    } else {
      var rest := Range(lo + 1, hi) + [last];
      var gap: seq<Marker> := if last > hi + 1 then [Ellipsis] else [];
      var lastMark := [Page(last, last == currentPage)];
      assert p[1..] == rest;
      assert p[1] == lo + 1;
      calc {
        Marked(p, currentPage);
        first + Marked(rest, currentPage);
        { MarkedRangeThen(lo + 1, hi, last, currentPage); }
        first + (Run(lo + 1, hi, currentPage) + gap + lastMark);
        (first + Run(lo + 1, hi, currentPage)) + gap + lastMark;
        Run(lo, hi, currentPage) + gap + lastMark;
      }
    }
  }

  /** `Window` (the code) and `Marked(ShownPages(..))` (the rules) agree:
      the ellipses the code adds through its two conditions are exactly the
      skips between the shown numbers. */
  lemma WindowIsMarked(numPages: int, currentPage: int, maxPagesToShow: int)
    requires maxPagesToShow >= 3
    ensures Window(numPages, currentPage, maxPagesToShow)
         == Marked(ShownPages(numPages, currentPage, maxPagesToShow), currentPage)
  {
    if 1 < numPages <= maxPagesToShow {
      MarkedRange(1, numPages, currentPage);
    } else if numPages > 1 {
      SlidingBounds(numPages, currentPage, maxPagesToShow);
      SlidingWindowIsMarked(numPages, currentPage,
        SlidingStart(numPages, currentPage, maxPagesToShow),
        SlidingEnd(numPages, currentPage, maxPagesToShow));
    }
  }

  lemma SlidingWindowIsMarked(numPages: int, currentPage: int, s: int, e: int)
    requires numPages >= 4
    requires 2 <= s <= numPages && e <= numPages - 1 && s - 1 <= e
    requires s > e ==> s == numPages && e == numPages - 1
    ensures [Page(1, currentPage == 1)]
            + (if s > 2 then [Ellipsis] else [])
            + Run(s, e, currentPage)
            + (if e < numPages - 1 then [Ellipsis] else [])
            + [Page(numPages, currentPage == numPages)]
         == Marked([1] + Range(s, e) + [numPages], currentPage)
  {
    if s <= e {
      BlockIsMarked(numPages, currentPage, s, e);
    } else {
      EmptyBlockIsMarked(numPages, currentPage);
    }
  }

  lemma BlockIsMarked(numPages: int, currentPage: int, s: int, e: int)
    requires 2 <= s <= e <= numPages - 1
    ensures [Page(1, currentPage == 1)]
            + (if s > 2 then [Ellipsis] else [])
            + Run(s, e, currentPage)
            + (if e < numPages - 1 then [Ellipsis] else [])
            + [Page(numPages, currentPage == numPages)]
         == Marked([1] + Range(s, e) + [numPages], currentPage)
  {
    var p := [1] + Range(s, e) + [numPages];
    var first := [Page(1, currentPage == 1)] + (if s > 2 then [Ellipsis] else []);
    assert p[1..] == Range(s, e) + [numPages];
    assert p[1] == s;
    assert Marked(p, currentPage) == first + Marked(p[1..], currentPage);
    MarkedRangeThen(s, e, numPages, currentPage);
  }

  lemma EmptyBlockIsMarked(numPages: int, currentPage: int)
    requires 2 < numPages
    ensures [Page(1, currentPage == 1), Ellipsis]
            + Run(numPages, numPages - 1, currentPage)
            + [Page(numPages, currentPage == numPages)]
         == Marked([1] + Range(numPages, numPages - 1) + [numPages], currentPage)
  {
    var p := [1] + Range(numPages, numPages - 1) + [numPages];
    assert p == [1, numPages];
    assert p[1..] == [numPages];
  }

  // ---------------------------------------------------------------------------
  // Properties of the shown numbers

  lemma ShownPagesShape(numPages: int, currentPage: int, maxPagesToShow: int)
    requires maxPagesToShow >= 3
    ensures var p := ShownPages(numPages, currentPage, maxPagesToShow);
      && Increasing(p)
      && (forall i :: 0 <= i < |p| ==> 1 <= p[i] <= numPages)
      && |p| <= maxPagesToShow
      && (numPages >= 2 ==> |p| >= 2 && p[0] == 1 && p[|p| - 1] == numPages)
      && (currentPage in p <==> 2 <= numPages && 1 <= currentPage <= numPages)
  {
    var p := ShownPages(numPages, currentPage, maxPagesToShow);
    if 1 < numPages <= maxPagesToShow {
      if 1 <= currentPage <= numPages {
        assert p[currentPage - 1] == currentPage;
      }
    } else if numPages > 1 {
      var s := SlidingStart(numPages, currentPage, maxPagesToShow);
      var e := SlidingEnd(numPages, currentPage, maxPagesToShow);
      SlidingBounds(numPages, currentPage, maxPagesToShow);
      var r := Range(s, e);
      assert p == [1] + r + [numPages];
      assert forall i :: 1 <= i <= |r| ==> p[i] == s + i - 1;
      assert p[0] == 1 && p[|p| - 1] == numPages;
      if 2 <= currentPage <= numPages - 1 {
        assert p[currentPage - s + 1] == currentPage;
      }
      if currentPage == numPages {
        assert p[|p| - 1] == currentPage;
      }
    }
  }

  // ---------------------------------------------------------------------------
  // Properties of Marked

  /** The markers of a non-empty list start and end with its first and last
      number. */
  lemma {:induction false} MarkedEnds(p: seq<int>, currentPage: int)
    ensures var m := Marked(p, currentPage);
      && (|m| == 0 <==> |p| == 0)
      && (|p| > 0 ==>
            m[0] == Page(p[0], p[0] == currentPage)
            && m[|m| - 1] == Page(p[|p| - 1], p[|p| - 1] == currentPage))
    decreases |p|
  {
    if |p| >= 2 {
      MarkedEnds(p[1..], currentPage);
    }
  }

  /** Each shown number gets a page marker, and every page marker carries a
      shown number, flagged exactly when it is the current page. */
  lemma {:induction false} MarkedPages(p: seq<int>, currentPage: int)
    ensures var m := Marked(p, currentPage);
      && (forall k :: 0 <= k < |m| && m[k].Page? ==>
            m[k].num in p && (m[k].isCurrent <==> m[k].num == currentPage))
      && (forall j :: 0 <= j < |p| ==> Page(p[j], p[j] == currentPage) in m)
    decreases |p|
  {
    if |p| >= 2 {
      MarkedPages(p[1..], currentPage);
      var tail := Marked(p[1..], currentPage);
      var pre := [Page(p[0], p[0] == currentPage)] + (if p[1] > p[0] + 1 then [Ellipsis] else []);
      var m := Marked(p, currentPage);
      assert m == pre + tail;
      forall k | 0 <= k < |m| && m[k].Page?
        ensures m[k].num in p && (m[k].isCurrent <==> m[k].num == currentPage)
      {
        if k >= |pre| {
          assert m[k] == tail[k - |pre|];
          assert m[k].num in p[1..];
        }
      }
      forall j | 0 <= j < |p| ensures Page(p[j], p[j] == currentPage) in m {
        if j > 0 {
          assert p[j] == p[1..][j - 1];
        }
      }
    }
  }

  /** Every page marker in `ms` carries a number above `bound`. */
  ghost predicate PagesAbove(ms: seq<Marker>, bound: int) {
    forall k :: 0 <= k < |ms| && ms[k].Page? ==> ms[k].num > bound
  }

  /** Every page marker carries a number above `bound` when every shown
      number is above it. */
  lemma {:induction false} MarkedAbove(p: seq<int>, currentPage: int, bound: int)
    requires forall i :: 0 <= i < |p| ==> p[i] > bound
    ensures PagesAbove(Marked(p, currentPage), bound)
    decreases |p|
  {
    if |p| >= 2 {
      MarkedAbove(p[1..], currentPage, bound);
      var tail := Marked(p[1..], currentPage);
      assert PagesAbove(tail, bound);
      var pre := [Page(p[0], p[0] == currentPage)] + (if p[1] > p[0] + 1 then [Ellipsis] else []);
      var m := Marked(p, currentPage);
      assert m == pre + tail;
      forall k | 0 <= k < |m| && m[k].Page? ensures m[k].num > bound {
        if k >= |pre| {
          assert m[k] == tail[k - |pre|];
        } else {
          assert m[k] == pre[k];
        }
      }
    }
  }

  /** Looked at as a list of numbers, the markers of increasing numbers are in
      increasing order. */
  lemma {:induction false} MarkedOrdered(p: seq<int>, currentPage: int)
    requires Increasing(p)
    ensures PagesIncreasing(Marked(p, currentPage))
    decreases |p|
  {
    if |p| >= 2 {
      var q := p[1..];
      assert Increasing(q);
      MarkedOrdered(q, currentPage);
      MarkedAbove(q, currentPage, p[0]);
      var tail := Marked(q, currentPage);
      assert PagesAbove(tail, p[0]);
      var pre := [Page(p[0], p[0] == currentPage)] + (if p[1] > p[0] + 1 then [Ellipsis] else []);
      var m := Marked(p, currentPage);
      assert m == pre + tail;
      forall i, j | 0 <= i < j < |m| && m[i].Page? && m[j].Page?
        ensures m[i].num < m[j].num
      {
        assert m[j] == tail[j - |pre|];
        if i >= |pre| {
          assert m[i] == tail[i - |pre|];
        } else {
          assert m[i] == pre[i];
        }
      }
    }
  }

  /** The ellipsis rule, both ways: neighbouring page markers carry
      consecutive numbers, and an ellipsis stands only between two page
      markers whose numbers are not consecutive. */
  ghost predicate GapsMarked(ms: seq<Marker>) {
    && (forall k :: 0 <= k < |ms| - 1 && ms[k].Page? && ms[k + 1].Page? ==>
          ms[k + 1].num == ms[k].num + 1)
    && (forall k :: 0 <= k < |ms| && ms[k].Ellipsis? ==>
          0 < k < |ms| - 1 && ms[k - 1].Page? && ms[k + 1].Page?
          && ms[k + 1].num > ms[k - 1].num + 1)
  }

  lemma {:induction false} MarkedAdjacent(p: seq<int>, currentPage: int)
    requires Increasing(p)
    ensures var m := Marked(p, currentPage);
      forall k :: 0 <= k < |m| - 1 && m[k].Page? && m[k + 1].Page? ==> m[k + 1].num == m[k].num + 1
    decreases |p|
  {
    if |p| >= 2 {
      var q := p[1..];
      assert Increasing(q);
      MarkedAdjacent(q, currentPage);
      MarkedEnds(q, currentPage);
      var tail := Marked(q, currentPage);
      var gap := p[1] > p[0] + 1;
      var pre := [Page(p[0], p[0] == currentPage)] + (if gap then [Ellipsis] else []);
      var m := Marked(p, currentPage);
      assert m == pre + tail;
      forall k | 0 <= k < |m| - 1 && m[k].Page? && m[k + 1].Page?
        ensures m[k + 1].num == m[k].num + 1
      {
        if k >= |pre| {
          assert m[k] == tail[k - |pre|] && m[k + 1] == tail[k + 1 - |pre|];
        } else {
          assert !gap && k == 0;
          assert m[1] == tail[0];
        }
      }
    }
  }

  lemma {:induction false} MarkedEllipses(p: seq<int>, currentPage: int)
    requires Increasing(p)
    ensures var m := Marked(p, currentPage);
      forall k :: 0 <= k < |m| && m[k].Ellipsis? ==>
        0 < k < |m| - 1 && m[k - 1].Page? && m[k + 1].Page? && m[k + 1].num > m[k - 1].num + 1
    decreases |p|
  {
    if |p| >= 2 {
      var q := p[1..];
      assert Increasing(q);
      MarkedEllipses(q, currentPage);
      MarkedEnds(q, currentPage);
      var tail := Marked(q, currentPage);
      var gap := p[1] > p[0] + 1;
      var pre := [Page(p[0], p[0] == currentPage)] + (if gap then [Ellipsis] else []);
      var m := Marked(p, currentPage);
      assert m == pre + tail;
      assert tail[0].Page?;
      forall k | 0 <= k < |m| && m[k].Ellipsis?
        ensures 0 < k < |m| - 1 && m[k - 1].Page? && m[k + 1].Page?
             && m[k + 1].num > m[k - 1].num + 1
      {
        if k >= |pre| {
          var t := k - |pre|;
          assert m[k] == tail[t];
          assert 0 < t < |tail| - 1;
          assert m[k - 1] == tail[t - 1] && m[k + 1] == tail[t + 1];
        } else {
          assert gap && k == 1;
          assert m[2] == tail[0];
        }
      }
    }
  }

  lemma {:induction false} NumsConcat(a: seq<Marker>, b: seq<Marker>)
    ensures Nums(a + b) == Nums(a) + Nums(b)
    decreases |a|
  {
    if a != [] {
      NumsConcat(a[1..], b);
      assert (a + b)[0] == a[0];
      assert (a + b)[1..] == a[1..] + b;
      var h := if a[0].Page? then [a[0].num] else [];
      assert Nums(a + b) == h + Nums(a[1..] + b);
      assert Nums(a) == h + Nums(a[1..]);
      assert h + (Nums(a[1..]) + Nums(b)) == (h + Nums(a[1..])) + Nums(b);
    } else {
      assert a + b == b;
    }
  }

  lemma {:induction false} MarkedNums(p: seq<int>, currentPage: int)
    ensures Nums(Marked(p, currentPage)) == p
    decreases |p|
  {
    if |p| >= 2 {
      MarkedNums(p[1..], currentPage);
      var head := [Page(p[0], p[0] == currentPage)];
      var gap := if p[1] > p[0] + 1 then [Ellipsis] else [];
      var tail := Marked(p[1..], currentPage);
      NumsConcat(head + gap, tail);
      NumsConcat(head, gap);
      assert Nums(head) == [p[0]];
      assert Nums(gap) == [];
      assert p == [p[0]] + p[1..];
    } else if |p| == 1 {
      assert Nums(Marked(p, currentPage)) == [p[0]] + Nums([]);
    }
  }

  // ---------------------------------------------------------------------------
  // Properties of the window

  /** When all pages fit, the window lists every page 1..n in order, each
      flagged exactly when it is the current page. */
  lemma WindowAllPages(numPages: int, currentPage: int, maxPagesToShow: int)
    requires 2 <= numPages <= maxPagesToShow
    ensures var w := Window(numPages, currentPage, maxPagesToShow);
      && |w| == numPages
      && forall k :: 0 <= k < numPages ==> w[k] == Page(k + 1, k + 1 == currentPage)
  {
  }

  /** The window's shape: empty for at most one page; otherwise it starts
      with page 1, ends with the last page, and its page numbers are strictly
      increasing and lie in [1, n]. */
  lemma WindowShape(numPages: int, currentPage: int, maxPagesToShow: int)
    requires maxPagesToShow >= 3
    ensures var w := Window(numPages, currentPage, maxPagesToShow);
      && (numPages <= 1 ==> w == [])
      && (numPages >= 2 ==>
            |w| >= 2 && w[0] == Page(1, currentPage == 1)
            && w[|w| - 1] == Page(numPages, currentPage == numPages))
      && (forall k :: 0 <= k < |w| && w[k].Page? ==> 1 <= w[k].num <= numPages)
      && PagesIncreasing(w)
  {
    var p := ShownPages(numPages, currentPage, maxPagesToShow);
    WindowIsMarked(numPages, currentPage, maxPagesToShow);
    ShownPagesShape(numPages, currentPage, maxPagesToShow);
    MarkedEnds(p, currentPage);
    MarkedPages(p, currentPage);
    MarkedOrdered(p, currentPage);
    var w := Window(numPages, currentPage, maxPagesToShow);
    forall k | 0 <= k < |w| && w[k].Page? ensures 1 <= w[k].num <= numPages {
      var t :| 0 <= t < |p| && p[t] == w[k].num;
    }
  }

  /** The budget: the numbers shown are exactly 1, the sliding block and the
      last page (or all pages when they fit), and there are at most
      `maxPagesToShow` of them. */
  lemma WindowNumbers(numPages: int, currentPage: int, maxPagesToShow: int)
    requires maxPagesToShow >= 3
    ensures var w := Window(numPages, currentPage, maxPagesToShow);
      && Nums(w) == ShownPages(numPages, currentPage, maxPagesToShow)
      && |Nums(w)| <= maxPagesToShow
  {
    WindowIsMarked(numPages, currentPage, maxPagesToShow);
    MarkedNums(ShownPages(numPages, currentPage, maxPagesToShow), currentPage);
    ShownPagesShape(numPages, currentPage, maxPagesToShow);
  }

  /** A run of page numbers holds no ellipsis. */
  lemma RunHasNoEllipsis(lo: int, hi: int, currentPage: int)
    ensures multiset(Run(lo, hi, currentPage))[Ellipsis] == 0
  {
    assert Ellipsis !in Run(lo, hi, currentPage);
  }

  /** At most two ellipses: one before and one after the sliding block. */
  lemma WindowEllipsisCount(numPages: int, currentPage: int, maxPagesToShow: int)
    ensures multiset(Window(numPages, currentPage, maxPagesToShow))[Ellipsis] <= 2
  {
    if 1 < numPages <= maxPagesToShow {
      RunHasNoEllipsis(1, numPages, currentPage);
    } else if numPages > 1 {
      var s := SlidingStart(numPages, currentPage, maxPagesToShow);
      var e := SlidingEnd(numPages, currentPage, maxPagesToShow);
      var first, last := [Page(1, currentPage == 1)], [Page(numPages, currentPage == numPages)];
      var pre: seq<Marker> := if s > 2 then [Ellipsis] else [];
      var post: seq<Marker> := if e < numPages - 1 then [Ellipsis] else [];
      var block := Run(s, e, currentPage);
      RunHasNoEllipsis(s, e, currentPage);
      assert multiset(first)[Ellipsis] == 0 && multiset(last)[Ellipsis] == 0;
      assert multiset(pre)[Ellipsis] <= 1 && multiset(post)[Ellipsis] <= 1;
      assert Window(numPages, currentPage, maxPagesToShow) == first + pre + block + post + last;
    }
  }

  /** Ellipses stand exactly where page numbers are skipped. */
  lemma WindowGaps(numPages: int, currentPage: int, maxPagesToShow: int)
    requires maxPagesToShow >= 3
    ensures GapsMarked(Window(numPages, currentPage, maxPagesToShow))
  {
    WindowIsMarked(numPages, currentPage, maxPagesToShow);
    ShownPagesShape(numPages, currentPage, maxPagesToShow);
    MarkedAdjacent(ShownPages(numPages, currentPage, maxPagesToShow), currentPage);
    MarkedEllipses(ShownPages(numPages, currentPage, maxPagesToShow), currentPage);
  }

  /** Whatever the current page, the window is defined; a page marker is
      flagged exactly when its number is the current page; the current page is
      shown flagged exactly when it lies in [1, n] (and n >= 2); and at most one
      marker is flagged. */
  lemma WindowCurrent(numPages: int, currentPage: int, maxPagesToShow: int)
    requires maxPagesToShow >= 3
    ensures var w := Window(numPages, currentPage, maxPagesToShow);
      && (forall k :: 0 <= k < |w| && w[k].Page? ==> (w[k].isCurrent <==> w[k].num == currentPage))
      && (Page(currentPage, true) in w <==> 2 <= numPages && 1 <= currentPage <= numPages)
      && (forall i, j ::
            0 <= i < |w| && 0 <= j < |w| && w[i].Page? && w[i].isCurrent && w[j].Page? && w[j].isCurrent
            ==> i == j)
  {
    var p := ShownPages(numPages, currentPage, maxPagesToShow);
    WindowIsMarked(numPages, currentPage, maxPagesToShow);
    ShownPagesShape(numPages, currentPage, maxPagesToShow);
    MarkedPages(p, currentPage);
    MarkedOrdered(p, currentPage);
    var w := Window(numPages, currentPage, maxPagesToShow);
    if Page(currentPage, true) in w {
      var k :| 0 <= k < |w| && w[k] == Page(currentPage, true);
      assert currentPage in p;
    }
    if 2 <= numPages && 1 <= currentPage <= numPages {
      var j :| 0 <= j < |p| && p[j] == currentPage;
      assert Page(p[j], p[j] == currentPage) in w;
    }
  }

  /** Worked windows for 20 pages and a budget of 10: the current page in the
      middle and at either end. */
  lemma WindowMiddleExample()
    ensures Window(20, 10, 10)
         == [Page(1, false), Ellipsis] + Run(7, 14, 10) + [Ellipsis, Page(20, false)]
  {
  }

  lemma WindowFirstExample()
    ensures Window(20, 1, 10) == [Page(1, true)] + Run(2, 9, 1) + [Ellipsis, Page(20, false)]
  {
  }

  lemma WindowLastExample()
    ensures Window(20, 20, 10) == [Page(1, false), Ellipsis] + Run(12, 19, 20) + [Page(20, true)]
  {
  }

  /** Three pages from the end the code shows two numbers fewer than its
      budget of 10: the block is cut at page 19 but was not moved left. */
  lemma WindowNearEndExample()
    ensures Nums(Window(20, 17, 10)) == [1, 14, 15, 16, 17, 18, 19, 20]
  {
    assert SlidingStart(20, 17, 10) == 14 && SlidingEnd(20, 17, 10) == 19;
    var r := Range(14, 19);
    assert r == [14, 15, 16, 17, 18, 19];
    assert ShownPages(20, 17, 10) == [1] + r + [20];
    WindowNumbers(20, 17, 10);
  }

  /** The smallest budget with the current page last: only the two ends and
      one ellipsis; and a current page of 0 flags nothing. */
  lemma WindowEdgeExamples()
    ensures Window(20, 20, 3) == [Page(1, false), Ellipsis, Page(20, true)]
    ensures Window(5, 0, 10) == Run(1, 5, 0)
  {
  }
}
