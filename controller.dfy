/**
 * The one piece of state shared between the search form and the pagination
 * container: the current page. A submitted search resets it to 1; a click on
 * an anchor in the pagination container sets it to that anchor's
 * `data-page`, read with `parseInt`. Each handler returns the URL it fetches,
 * if any.
 */
module Controller {
  import opened Wrappers
  import opened Strings
  import opened Numbers
  import opened Request

  /** What a click in the pagination container landed on. */
  datatype ClickTarget = AnchorClicked(dataPage: Option<string>) | OtherElement

  class SearchController {
    var currentPage: PageNumber

    constructor ()
      ensures currentPage == Page(1)
    {
      currentPage := Page(1);
    }

    /**
     * `handleSearch`: an all-whitespace query fetches nothing and keeps the
     * page; otherwise the page becomes 1 and page 1 of the trimmed filters is
     * fetched.
     */
    method HandleSearch(form: Form, enc: string -> string) returns (url: Option<string>)
      modifies this
      ensures url.None? <==> AllWhitespace(form.query)
      ensures url.None? ==> currentPage == old(currentPage)
      ensures url.Some? ==> currentPage == Page(1) && url == Some(SearchUrl(Trimmed(form), Page(1), enc))
    {
      match Normalize(form) {
        case None =>
          url := None;
        case Some(filters) =>
          currentPage := Page(1);
          url := Some(SearchUrl(filters, currentPage, enc));
      }
    }

    /**
     * `handlePagination`: a click on an anchor sets the page to its
     * `data-page` read by `parseInt` (`NaN` for Prev and Next, which have
     * none) and fetches that page with the form as it is now, without the
     * empty-query check of a new search; a click elsewhere does nothing.
     */
    method HandlePagination(target: ClickTarget, form: Form, enc: string -> string) returns (url: Option<string>)
      modifies this
      ensures target.OtherElement? ==> url.None? && currentPage == old(currentPage)
      ensures target.AnchorClicked? ==>
                currentPage == ParsePage(target.dataPage)
                && url == Some(SearchUrl(Trimmed(form), currentPage, enc))
    {
      match target {
        case OtherElement =>
          url := None;
        case AnchorClicked(dataPage) =>
          currentPage := ParsePage(dataPage);
          url := Some(SearchUrl(Trimmed(form), currentPage, enc));
      }
    }
  }

  /**
   * A new search fetches offset 0 with limit 10 then 50, whatever page was
   * current before.
   */
  lemma NewSearchStartsAtOffsetZero(form: Form, enc: string -> string)
    requires EscapesAmpersand(enc)
    requires !AllWhitespace(form.query)
    ensures var ps := ParseSearchUrl(SearchUrl(Trimmed(form), Page(1), enc));
      && ps.Some?
      && |ps.value| >= 4
      && ps.value[2] == Param("offset", "0")
      && FirstValue(ps.value, "limit") == Some("10")
      && LastValue(ps.value, "limit") == Some("50")
  {
    var ps := SearchParams(Trimmed(form), Page(1), enc);
    SearchUrlRoundTrip(Trimmed(form), Page(1), enc);
    assert ParseSearchUrl(SearchUrl(Trimmed(form), Page(1), enc)) == Some(ps);
    SearchParamsLayout(Trimmed(form), Page(1), enc);
    assert OffsetText(Page(1)) == "0";
    DuplicateLimit(Trimmed(form), Page(1), enc);
  }

  /**
   * Clicking the numbered link for page `p` fetches offset `(p - 1) * 10`,
   * the write of `data-page` and its read by `parseInt` cancelling out.
   */
  lemma PageLinkClickFetchesItsOffset(p: int, form: Form, enc: string -> string)
    requires EscapesAmpersand(enc)
    ensures ParsePage(Some(Decimal(p))) == Page(p)
    ensures var ps := ParseSearchUrl(SearchUrl(Trimmed(form), Page(p), enc));
      && ps.Some? && |ps.value| >= 4
      && ps.value[2].key == "offset"
      && ParseInt(ps.value[2].value) == Some((p - 1) * 10)
  {
    ParsePageOfDecimal(p);
    var ps := SearchParams(Trimmed(form), Page(p), enc);
    SearchUrlRoundTrip(Trimmed(form), Page(p), enc);
    assert ParseSearchUrl(SearchUrl(Trimmed(form), Page(p), enc)) == Some(ps);
    SearchParamsLayout(Trimmed(form), Page(p), enc);
    assert ps[2] == Param("offset", OffsetText(Page(p)));
    OffsetOfPage(Page(p));
  }
}
