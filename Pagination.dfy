/**
 * The search page's pagination window (`handleRenderPages`): from the current
 * page and the number of pages it lists the page buttons and "..." markers to
 * show. Buttons are abstract items here, not rendered elements.
 */
module Pagination {

  /** How many consecutive page buttons the window shows at most. */
  const PageLimit := 5

  /** A page button (`active` when it is styled as the current page) or a "..." marker. */
  datatype Item = Page(n: int, active: bool) | Ellipsis

  function Max(a: int, b: int): int { if a < b then b else a }
  function Min(a: int, b: int): int { if a < b then a else b }

  /** The first page of the consecutive run: `Math.max(1, page - Math.floor(pageLimit / 2))`. */
  function StartPage(page: int): int {
    Max(1, page - PageLimit / 2)
  }

  /** The last page of the consecutive run: `Math.min(totalPages, startPage + pageLimit - 1)`. */
  function EndPage(page: int, totalPages: int): int {
    Min(totalPages, StartPage(page) + PageLimit - 1)
  }

  /** The buttons for pages `lo` to `hi`, ascending, the one equal to `page` active. */
  function Run(lo: int, hi: int, page: int): (r: seq<Item>)
    ensures |r| == if hi < lo then 0 else hi - lo + 1
    ensures forall k :: 0 <= k < |r| ==> r[k] == Page(lo + k, lo + k == page)
    decreases hi - lo
  {
    if hi < lo then [] else Run(lo, hi - 1, page) + [Page(hi, hi == page)]
  }

  /** The controls before the run: a button for page 1, then "...", as far as the run leaves them out. */
  function Leading(startPage: int): seq<Item> {
    (if startPage > 1 then [Page(1, false)] else [])
    + (if startPage > 2 then [Ellipsis] else [])
  }

  /** The controls after the run: "..." when pages are skipped, then a button for the last page. */
  function Trailing(endPage: int, totalPages: int): seq<Item> {
    if endPage < totalPages then
      (if endPage < totalPages - 1 then [Ellipsis] else []) + [Page(totalPages, false)]
    else []
  }

  /** The whole window, in the order `handleRenderPages` pushes its items. */
  function Window(page: int, totalPages: int): seq<Item> {
    var s := StartPage(page);
    var e := EndPage(page, totalPages);
    Leading(s) + Run(s, e, page) + Trailing(e, totalPages)
  }

  /** `handleRenderPages`: builds the window item by item, as the source pushes into `pages`. */
  method RenderPages(page: int, totalPages: int) returns (pages: seq<Item>)
    ensures pages == Window(page, totalPages)
  {
    pages := [];
    var startPage := Max(1, page - PageLimit / 2);
    var endPage := Min(totalPages, startPage + PageLimit - 1);
    assert startPage == StartPage(page) && endPage == EndPage(page, totalPages);
    if startPage > 1 {
      pages := pages + [Page(1, false)];
    }
    if startPage > 2 {
      pages := pages + [Ellipsis];
    }
    assert pages == Leading(startPage) + Run(startPage, startPage - 1, page);
    var i := startPage;
    while i <= endPage
      invariant startPage <= i <= Max(startPage, endPage + 1)
      invariant pages == Leading(startPage) + Run(startPage, i - 1, page)
      decreases endPage - i
    {
      assert Run(startPage, i, page) == Run(startPage, i - 1, page) + [Page(i, i == page)];
      pages := pages + [Page(i, page == i)];
      i := i + 1;
    }
    assert pages == Leading(startPage) + Run(startPage, endPage, page) by {
      assert Run(startPage, i - 1, page) == Run(startPage, endPage, page);
    }
    ghost var body := pages;
    if endPage < totalPages {
      if endPage < totalPages - 1 {
        pages := pages + [Ellipsis];
      }
      pages := pages + [Page(totalPages, false)];
    }
    assert pages == body + Trailing(endPage, totalPages);
  }

  /**
   * Where everything sits: the run holds at most `PageLimit` buttons and follows
   * the leading controls; page 1 leads iff the run starts after page 1, a left
   * "..." iff it starts after page 2; the last page trails iff the run ends before
   * it, preceded by a right "..." iff the run ends before the page before it.
   */
  lemma WindowLayout(page: int, totalPages: int)
    ensures var s, e, w := StartPage(page), EndPage(page, totalPages), Window(page, totalPages);
      var lead := (if s > 1 then 1 else 0) + (if s > 2 then 1 else 0);
      var run := if e < s then 0 else e - s + 1;
      var trail := if e < totalPages then (if e < totalPages - 1 then 2 else 1) else 0;
      && s >= 1 && run <= PageLimit
      && |w| == lead + run + trail
      && (s > 1 ==> w[0] == Page(1, false))
      && (s > 2 ==> w[1] == Ellipsis)
      && (forall k :: lead <= k < lead + run ==> w[k] == Page(s + k - lead, s + k - lead == page))
      && (e < totalPages ==> w[|w| - 1] == Page(totalPages, false))
      && (e < totalPages - 1 ==> w[|w| - 2] == Ellipsis)
  {
  }

  /** Page numbers strictly ascend through the window, so no page number appears twice. */
  lemma WindowAscending(page: int, totalPages: int)
    ensures var w := Window(page, totalPages);
      forall i, j :: 0 <= i < j < |w| && w[i].Page? && w[j].Page? ==> w[i].n < w[j].n
  {
    var s, e := StartPage(page), EndPage(page, totalPages);
    var lead, run, trail := Leading(s), Run(s, e, page), Trailing(e, totalPages);
    var w := Window(page, totalPages);
    forall i, j | 0 <= i < j < |w| && w[i].Page? && w[j].Page?
      ensures w[i].n < w[j].n
    {
      // Leading holds at most page 1, and only when the run starts after it;
      // Trailing holds at most the last page, and only when the run ends before it.
      if i < |lead| {
        assert w[i] == lead[i] && i == 0 && s > 1;
        if j < |lead| + |run| {
          assert w[j] == run[j - |lead|];
        } else {
          assert w[j] == trail[j - |lead| - |run|];
        }
      } else if i < |lead| + |run| {
        assert w[i] == run[i - |lead|];
        if j < |lead| + |run| {
          assert w[j] == run[j - |lead|];
        } else {
          assert w[j] == trail[j - |lead| - |run|];
        }
      }
    }
  }

  /** A button is marked active exactly when it is the button of the current page. */
  lemma WindowActiveIsCurrent(page: int, totalPages: int)
    ensures var w := Window(page, totalPages);
      forall k :: 0 <= k < |w| && w[k].Page? ==> (w[k].active <==> w[k].n == page)
  {
    var s, e := StartPage(page), EndPage(page, totalPages);
    var lead, run, trail := Leading(s), Run(s, e, page), Trailing(e, totalPages);
    var w := Window(page, totalPages);
    forall k | 0 <= k < |w| && w[k].Page?
      ensures w[k].active <==> w[k].n == page
    {
      if k < |lead| {
        assert w[k] == lead[k];
      } else if k < |lead| + |run| {
        assert w[k] == run[k - |lead|];
      } else {
        assert w[k] == trail[k - |lead| - |run|];
      }
    }
  }

  /** The current page has a button in the window iff it lies in `[1, totalPages]`. */
  lemma WindowShowsCurrent(page: int, totalPages: int)
    ensures var w := Window(page, totalPages);
      (exists k :: 0 <= k < |w| && w[k] == Page(page, true)) <==> 1 <= page <= totalPages
    ensures var w := Window(page, totalPages);
      !(1 <= page <= totalPages) ==> forall k :: 0 <= k < |w| && w[k].Page? ==> w[k].n != page
  {
    var s, e := StartPage(page), EndPage(page, totalPages);
    var lead, run, trail := Leading(s), Run(s, e, page), Trailing(e, totalPages);
    var w := Window(page, totalPages);
    if 1 <= page <= totalPages {
      var k := |lead| + page - s;
      assert w[k] == run[page - s];
    } else {
      forall k | 0 <= k < |w| && w[k].Page?
        ensures w[k].n != page
      {
        if k < |lead| {
          assert w[k] == lead[k];
        } else if k < |lead| + |run| {
          assert w[k] == run[k - |lead|];
        } else {
          assert w[k] == trail[k - |lead| - |run|];
        }
      }
    }
  }

  /** With at least one page, every button names a page in `[1, totalPages]`. */
  lemma WindowInRange(page: int, totalPages: int)
    requires totalPages >= 1
    ensures var w := Window(page, totalPages);
      forall k :: 0 <= k < |w| && w[k].Page? ==> 1 <= w[k].n <= totalPages
  {
    var s, e := StartPage(page), EndPage(page, totalPages);
    var lead, run, trail := Leading(s), Run(s, e, page), Trailing(e, totalPages);
    var w := Window(page, totalPages);
    forall k | 0 <= k < |w| && w[k].Page?
      ensures 1 <= w[k].n <= totalPages
    {
      if k < |lead| {
        assert w[k] == lead[k];
      } else if k < |lead| + |run| {
        assert w[k] == run[k - |lead|];
      } else {
        assert w[k] == trail[k - |lead| - |run|];
      }
    }
  }

  /** For a current page in range the window opens with page 1 and closes with the last page. */
  lemma WindowEnds(page: int, totalPages: int)
    requires 1 <= page <= totalPages
    ensures var w := Window(page, totalPages);
      && |w| >= 1
      && w[0].Page? && w[0].n == 1
      && w[|w| - 1].Page? && w[|w| - 1].n == totalPages
  {
    var s, e := StartPage(page), EndPage(page, totalPages);
    var lead, run, trail := Leading(s), Run(s, e, page), Trailing(e, totalPages);
    var w := Window(page, totalPages);
    assert s <= page <= e;
    var L, R := |lead|, |run|;
    assert w[L] == run[0] && w[L + R - 1] == run[R - 1];
    assert L > 0 ==> w[0] == lead[0];
    assert |trail| > 0 ==> w[|w| - 1] == trail[|trail| - 1];
  }

  /** For a current page in range two neighbouring buttons are consecutive pages: no page is skipped silently. */
  lemma WindowNeighbours(page: int, totalPages: int)
    requires 1 <= page <= totalPages
    ensures var w := Window(page, totalPages);
      forall k :: 0 <= k < |w| - 1 && w[k].Page? && w[k + 1].Page? ==> w[k + 1].n == w[k].n + 1
  {
    var s, e := StartPage(page), EndPage(page, totalPages);
    var lead, run, trail := Leading(s), Run(s, e, page), Trailing(e, totalPages);
    var w := Window(page, totalPages);
    var L, R := |lead|, |run|;
    assert s <= page <= e;
    forall k | 0 <= k < |w| - 1 && w[k].Page? && w[k + 1].Page?
      ensures w[k + 1].n == w[k].n + 1
    {
      if k + 1 == L {
        assert w[k] == lead[k] && w[k + 1] == run[0];
      } else if L <= k && k + 1 < L + R {
        assert w[k] == run[k - L] && w[k + 1] == run[k + 1 - L];
      } else if k + 1 == L + R {
        assert w[k] == run[R - 1] && w[k + 1] == trail[0];
      }
    }
  }

  /**
   * For a current page in range a "..." always sits between two buttons and
   * stands for at least one page that has no button.
   */
  lemma WindowEllipses(page: int, totalPages: int)
    requires 1 <= page <= totalPages
    ensures var w := Window(page, totalPages);
      forall k :: 0 <= k < |w| && w[k] == Ellipsis ==>
        0 < k < |w| - 1 && w[k - 1].Page? && w[k + 1].Page? && w[k - 1].n + 1 < w[k + 1].n
  {
    var s, e := StartPage(page), EndPage(page, totalPages);
    var lead, run, trail := Leading(s), Run(s, e, page), Trailing(e, totalPages);
    var w := Window(page, totalPages);
    var L, R := |lead|, |run|;
    assert s <= page <= e;
    forall k | 0 <= k < |w| && w[k] == Ellipsis
      ensures 0 < k < |w| - 1 && w[k - 1].Page? && w[k + 1].Page? && w[k - 1].n + 1 < w[k + 1].n
    {
      if k < L {
        assert k == 1 && w[0] == lead[0] && w[2] == run[0];
      } else if k >= L + R {
        assert k == L + R && w[k - 1] == run[R - 1] && w[k + 1] == trail[1];
      }
    }
  }

  /** A single page gives a single active button and no "...". */
  lemma SinglePageWindow()
    ensures Window(1, 1) == [Page(1, true)]
  {
  }

  /** Page 5 of 20: page 1, "...", pages 3 to 7 with 5 active, "...", page 20. */
  lemma MiddleWindow()
    ensures Window(5, 20) == [Page(1, false), Ellipsis, Page(3, false), Page(4, false),
                              Page(5, true), Page(6, false), Page(7, false), Ellipsis, Page(20, false)]
  {
  }

  /** Page 1 of 20: pages 1 to 5 with 1 active, "...", page 20. */
  lemma FirstPageWindow()
    ensures Window(1, 20) == [Page(1, true), Page(2, false), Page(3, false), Page(4, false),
                              Page(5, false), Ellipsis, Page(20, false)]
  {
  }

  /** Page 20 of 20: the run is not shifted left, so it holds only pages 18 to 20. */
  lemma LastPageWindow()
    ensures Window(20, 20) == [Page(1, false), Ellipsis, Page(18, false), Page(19, false), Page(20, true)]
  {
  }

  /**
   * A current page beyond the page count (the page is never clamped to a
   * response's last page): the run is empty and the window ends in "...".
   */
  lemma OutOfRangeWindow()
    ensures Window(7, 3) == [Page(1, false), Ellipsis]
  {
  }
}
