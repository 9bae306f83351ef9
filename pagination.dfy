/**
 * The pagination controls drawn under the results: how many pages the hit
 * count makes, whether Prev and Next are shown, and the window of at most
 * five consecutive page links around the current page.
 */
module Pagination {
  import opened Wrappers
  import opened Numbers
  import Request

  /** One numbered link of the window; `active` is the highlighted one. */
  datatype PageLink = PageLink(page: int, active: bool)

  /** The children of the pagination container: an optional Prev, the page links, an optional Next. */
  datatype Controls = Controls(prev: bool, links: seq<PageLink>, next: bool)

  const NoControls := Controls(false, [], false)

  /** `Math.ceil(totalResults / resultsPerPage)` for a hit count. */
  function TotalPages(totalResults: nat): (pages: nat)
    ensures pages * Request.ResultsPerPage >= totalResults
    ensures pages == 0 || (pages - 1) * Request.ResultsPerPage < totalResults
  {
    (totalResults + Request.ResultsPerPage - 1) / Request.ResultsPerPage
  }

  /** `Math.max(1, currentPage - 2)`. */
  function WindowStart(current: int): int {
    if 1 < current - 2 then current - 2 else 1
  }

  /** `Math.min(startPage + 4, totalPages)`. */
  function WindowEnd(current: int, totalPages: int): int {
    if WindowStart(current) + 4 < totalPages then WindowStart(current) + 4 else totalPages
  }

  /** The links for pages `lo` through `hi`, the one equal to `current` active. */
  function Window(lo: int, hi: int, current: int): seq<PageLink>
    decreases hi - lo
  {
    if hi < lo then [] else Window(lo, hi - 1, current) + [PageLink(hi, hi == current)]
  }

  /**
   * The controls for a hit count and a current page. Nothing is drawn for a
   * single page. A `NaN` current page fails every comparison: no Prev, an
   * empty window and no Next.
   */
  function PaginationFor(totalResults: nat, current: PageNumber): Controls {
    var totalPages := TotalPages(totalResults);
    if totalPages <= 1 then NoControls
    else
      match current
      case NaN => NoControls
      case Page(cur) =>
        Controls(cur > 1, Window(WindowStart(cur), WindowEnd(cur, totalPages), cur), cur < totalPages)
  }

  /** `displayPagination`: the Prev flag, the loop over the window, the Next flag. */
  method DisplayPagination(totalResults: nat, current: PageNumber) returns (controls: Controls)
    ensures controls == PaginationFor(totalResults, current)
  {
    controls := NoControls;
    var totalPages := (totalResults + Request.ResultsPerPage - 1) / Request.ResultsPerPage;
    if totalPages > 1 {
      match current {
        case NaN =>
        case Page(cur) =>
          var prev := cur > 1;
          var startPage := if 1 < cur - 2 then cur - 2 else 1;
          var endPage := if startPage + 4 < totalPages then startPage + 4 else totalPages;
          var links: seq<PageLink> := [];
          var i := startPage;
          while i <= endPage
            invariant startPage <= i <= if endPage < startPage then startPage else endPage + 1
            invariant links == Window(startPage, i - 1, cur)
          {
            links := links + [PageLink(i, i == cur)];
            i := i + 1;
          }
          controls := Controls(prev, links, cur < totalPages);
      }
    }
  }

  /** An anchor in the pagination container: its text and its `data-page` attribute, if any. */
  datatype Anchor = Anchor(text: string, dataPage: Option<string>, active: bool)

  function LinkAnchor(link: PageLink): Anchor {
    Anchor(Decimal(link.page), Some(Decimal(link.page)), link.active)
  }

  /** The anchors in document order. Prev and Next carry no `data-page`. */
  function Anchors(c: Controls): (anchors: seq<Anchor>)
    ensures |anchors| == (if c.prev then 1 else 0) + |c.links| + (if c.next then 1 else 0)
    ensures c.prev ==> anchors[0] == Anchor("Prev", None, false)
    ensures forall k :: 0 <= k < |c.links| ==> anchors[(if c.prev then 1 else 0) + k] == LinkAnchor(c.links[k])
    ensures c.next ==> anchors[|anchors| - 1] == Anchor("Next", None, false)
  {
    (if c.prev then [Anchor("Prev", None, false)] else [])
    + seq(|c.links|, k requires 0 <= k < |c.links| => LinkAnchor(c.links[k]))
    + (if c.next then [Anchor("Next", None, false)] else [])
  }

  // ---------------------------------------------------------------------
  // Properties of the window
  // ---------------------------------------------------------------------

  /** The window holds pages `lo..hi` in order, and exactly the link for `current` is active. */
  lemma {:induction false} WindowShape(lo: int, hi: int, current: int)
    ensures |Window(lo, hi, current)| == if hi < lo then 0 else hi - lo + 1
    ensures forall k :: 0 <= k < |Window(lo, hi, current)| ==>
              Window(lo, hi, current)[k].page == lo + k
              && (Window(lo, hi, current)[k].active <==> lo + k == current)
    decreases hi - lo
  {
    if lo <= hi {
      WindowShape(lo, hi - 1, current);
    }
  }

  /** No controls at all exactly when the hits fit on one page (for a numeric current page). */
  lemma HiddenIffOnePage(totalResults: nat, cur: int)
    ensures PaginationFor(totalResults, Page(cur)) == NoControls <==> TotalPages(totalResults) <= 1
  {
    var totalPages := TotalPages(totalResults);
    if totalPages > 1 && cur <= 1 {
      WindowShape(WindowStart(cur), WindowEnd(cur, totalPages), cur);
    }
  }

  /** With more than one page, Prev is shown iff the current page is past the first, Next iff before the last. */
  lemma PrevNextFlags(totalResults: nat, cur: int)
    requires TotalPages(totalResults) > 1
    ensures PaginationFor(totalResults, Page(cur)).prev <==> cur > 1
    ensures PaginationFor(totalResults, Page(cur)).next <==> cur < TotalPages(totalResults)
  {
  }

  /**
   * The links are consecutive page numbers from `max(1, cur - 2)` to at most
   * `min(start + 4, totalPages)`: at most five, none below 1 or above the
   * last page.
   */
  lemma WindowBounds(totalResults: nat, cur: int)
    ensures var links := PaginationFor(totalResults, Page(cur)).links;
      && |links| <= 5
      && (forall k :: 0 <= k < |links| ==>
            WindowStart(cur) <= links[k].page <= WindowEnd(cur, TotalPages(totalResults))
            && 1 <= links[k].page <= TotalPages(totalResults))
      && (forall k :: 0 <= k < |links| - 1 ==> links[k + 1].page == links[k].page + 1)
      && (|links| > 0 ==> links[0].page == WindowStart(cur))
  {
    var totalPages := TotalPages(totalResults);
    if totalPages > 1 {
      WindowShape(WindowStart(cur), WindowEnd(cur, totalPages), cur);
    }
  }

  /**
   * When the current page is a real page, the window contains it, exactly
   * one link is active, and that link is the current page.
   */
  lemma WindowHasCurrent(totalResults: nat, cur: int)
    requires 1 <= cur <= TotalPages(totalResults)
    requires TotalPages(totalResults) > 1
    ensures var links := PaginationFor(totalResults, Page(cur)).links;
      && (exists k :: 0 <= k < |links| && links[k] == PageLink(cur, true))
      && (forall k :: 0 <= k < |links| ==> (links[k].active <==> links[k].page == cur))
      && (forall j, k :: 0 <= j < |links| && 0 <= k < |links| && links[j].active && links[k].active ==> j == k)
  {
    var totalPages := TotalPages(totalResults);
    var lo := WindowStart(cur);
    WindowShape(lo, WindowEnd(cur, totalPages), cur);
    var links := PaginationFor(totalResults, Page(cur)).links;
    assert links[cur - lo] == PageLink(cur, true);
  }

  /**
   * Every anchor that carries a `data-page` reads back as a page between 1
   * and the last page; Prev and Next read back as `NaN`.
   */
  lemma AnchorPagesReadBack(totalResults: nat, cur: int)
    ensures var anchors := Anchors(PaginationFor(totalResults, Page(cur)));
      forall k :: 0 <= k < |anchors| ==>
        match ParsePage(anchors[k].dataPage)
        case NaN => anchors[k].dataPage.None? && (anchors[k].text == "Prev" || anchors[k].text == "Next")
        case Page(p) => 1 <= p <= TotalPages(totalResults)
  {
    var c := PaginationFor(totalResults, Page(cur));
    var anchors := Anchors(c);
    WindowBounds(totalResults, cur);
    var offset := if c.prev then 1 else 0;
    forall k | 0 <= k < |anchors|
      ensures match ParsePage(anchors[k].dataPage)
              case NaN => anchors[k].dataPage.None? && (anchors[k].text == "Prev" || anchors[k].text == "Next")
              case Page(p) => 1 <= p <= TotalPages(totalResults)
    {
      if k < offset {
        assert anchors[k] == Anchor("Prev", None, false);
      } else if k < offset + |c.links| {
        var link := c.links[k - offset];
        assert anchors[k] == LinkAnchor(link);
        assert 1 <= link.page <= TotalPages(totalResults);
        ParsePageOfDecimal(link.page);
      } else {
        assert anchors[k] == Anchor("Next", None, false);
      }
    }
  }

  /** Three cases: 5 hits, and 100 hits on pages 1 and 10. */
  lemma Examples()
    ensures PaginationFor(5, Page(1)) == NoControls
    ensures PaginationFor(100, Page(1))
         == Controls(false, [PageLink(1, true), PageLink(2, false), PageLink(3, false), PageLink(4, false), PageLink(5, false)], true)
    ensures PaginationFor(100, Page(10))
         == Controls(true, [PageLink(8, false), PageLink(9, false), PageLink(10, true)], false)
  {
    assert TotalPages(100) == 10;
    assert Window(1, 5, 1) == [PageLink(1, true), PageLink(2, false), PageLink(3, false), PageLink(4, false), PageLink(5, false)];
    assert Window(8, 10, 10) == [PageLink(8, false), PageLink(9, false), PageLink(10, true)];
  }
}
