/**
 * Drawing a page of search hits and what a finished search request leaves on
 * screen: the result list (or the "No results found." message), the
 * pagination controls, and the shared error area.
 */
module Results {
  import opened Wrappers
  import opened Numbers
  import opened Format
  import Request
  import Pagination

  /** A hit of the search response; every field may be missing. */
  datatype Doc = Doc(title: Option<string>, authorName: Option<seq<string>>,
                     firstPublishYear: Option<int>, key: Option<string>)

  /** The text of one drawn hit, and the key its "Read More" link opens. */
  datatype Summary = Summary(title: string, author: string, published: string, key: string)

  /** The results container: the "No results found." message, or one summary per hit. */
  datatype ResultsView = NoResults | Listing(items: seq<Summary>)

  datatype SearchResponse =
    | RequestFailed                              // a non-success status or a transport failure
    | Received(docs: seq<Doc>, numFound: nat)

  /** What the search part of the page shows. */
  datatype Screen = Screen(results: ResultsView, pagination: Pagination.Controls, error: string)

  const ErrorMessage := "An error occurred. Please try again."

  function SummaryOf(d: Doc): Summary {
    Summary(Shown(d.title), JoinedOrUnknown(d.authorName), NumberOrUnknown(d.firstPublishYear), Shown(d.key))
  }

  function Summaries(docs: seq<Doc>): seq<Summary> {
    if docs == [] then [] else Summaries(docs[..|docs| - 1]) + [SummaryOf(docs[|docs| - 1])]
  }

  /** The container after `displayResults(docs)`. */
  function ResultsFor(docs: seq<Doc>): ResultsView {
    if |docs| == 0 then NoResults else Listing(Summaries(docs))
  }

  /** `displayResults`: the empty case, else one summary appended per hit. */
  method DisplayResults(docs: seq<Doc>) returns (view: ResultsView)
    ensures view == ResultsFor(docs)
  {
    if |docs| == 0 {
      return NoResults;
    }
    var items: seq<Summary> := [];
    var i := 0;
    while i < |docs|
      invariant 0 <= i <= |docs|
      invariant items == Summaries(docs[..i])
    {
      assert docs[..i + 1][..i] == docs[..i];
      items := items + [SummaryOf(docs[i])];
      i := i + 1;
    }
    assert docs[..|docs|] == docs;
    view := Listing(items);
  }

  /**
   * The screen after `fetchResults(..., page)` settles: the error area is
   * cleared first; a failed request fills it and leaves results and controls
   * as they were; a response redraws the results and then the controls.
   */
  function AfterFetch(before: Screen, page: PageNumber, response: SearchResponse): Screen {
    match response
    case RequestFailed => Screen(before.results, before.pagination, ErrorMessage)
    case Received(docs, numFound) => Screen(ResultsFor(docs), Pagination.PaginationFor(numFound, page), "")
  }

  // ---------------------------------------------------------------------
  // Properties of the drawn results
  // ---------------------------------------------------------------------

  /** One summary per hit, in the order of the response. */
  lemma {:induction false} SummariesMatchDocs(docs: seq<Doc>)
    ensures |Summaries(docs)| == |docs|
    ensures forall k :: 0 <= k < |docs| ==> Summaries(docs)[k] == SummaryOf(docs[k])
    decreases |docs|
  {
    if docs != [] {
      SummariesMatchDocs(docs[..|docs| - 1]);
    }
  }

  /**
   * Every drawn hit shows its author list joined by ", " (or "Unknown"), its
   * year (or "Unknown" when falsy), and links to the detail record of its key.
   */
  lemma ListingShowsEachHit(docs: seq<Doc>, k: nat)
    requires k < |docs|
    ensures ResultsFor(docs).Listing? && |ResultsFor(docs).items| == |docs|
    ensures var s := ResultsFor(docs).items[k];
      && s.author == (if docs[k].authorName.None? then Unknown else Strings.Join(", ", docs[k].authorName.value))
      && (s.published == Unknown <==> docs[k].firstPublishYear.None? || docs[k].firstPublishYear == Some(0))
      && Request.DetailUrl(s.key) == Request.DetailBase + Shown(docs[k].key) + ".json"
  {
    SummariesMatchDocs(docs);
    NumberUnknownIff(docs[k].firstPublishYear);
  }

  /**
   * A response without hits shows "No results found.", yet the controls are
   * drawn again from `numFound` right after: they stay empty only when
   * `numFound` makes at most one page.
   */
  lemma EmptyDocsStillPaginate(before: Screen, cur: int, numFound: nat)
    ensures var after := AfterFetch(before, Page(cur), Received([], numFound));
      && after.results == NoResults
      && after.error == ""
      && (after.pagination == Pagination.NoControls <==> numFound <= Request.ResultsPerPage)
  {
    Pagination.HiddenIffOnePage(numFound, cur);
  }

  /** A failed request shows the error message and leaves the results and controls untouched. */
  lemma FailureKeepsScreen(before: Screen, page: PageNumber)
    ensures var after := AfterFetch(before, page, RequestFailed);
      after.results == before.results && after.pagination == before.pagination && after.error != ""
  {
  }

  /** A page requested as `NaN` (from Prev or Next) draws no controls at all. */
  lemma NaNPageDrawsNoControls(before: Screen, response: SearchResponse)
    requires response.Received?
    ensures AfterFetch(before, NaN, response).pagination == Pagination.NoControls
  {
  }
}
