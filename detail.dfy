/**
 * The detail overlay: the record fetched from a hit's key and the text each
 * of its lines shows.
 */
module Detail {
  import opened Wrappers
  import opened Format

  /** A detail record; every field may be missing. */
  datatype BookDetail = BookDetail(
    title: Option<string>,
    authors: Option<seq<Named>>,
    firstPublishYear: Option<int>,
    subjects: Option<seq<string>>,
    description: Description,
    numberOfPages: Option<int>,
    publishers: Option<seq<Named>>)

  /** The lines of the overlay. */
  datatype ModalView = ModalView(title: string, author: string, published: string, subjects: string,
                                 description: string, pages: string, publisher: string)

  datatype DetailResponse = DetailFailed | DetailReceived(detail: BookDetail)

  /** The overlay (when it opens) and the text of the shared error area afterwards. */
  datatype DetailOutcome = DetailOutcome(modal: Option<ModalView>, error: string)

  const DetailErrorMessage := "Failed to fetch book details. Please try again."

  function ModalFor(d: BookDetail): ModalView {
    ModalView(
      TextOrUnknown(d.title),
      NamesOrUnknown(d.authors),
      NumberOrUnknown(d.firstPublishYear),
      JoinedOrUnknown(d.subjects),
      DescriptionText(d.description),
      NumberOrUnknown(d.numberOfPages),
      NamesOrUnknown(d.publishers))
  }

  /**
   * `showModal` once its request settles: a record opens the overlay and
   * leaves the error area as it was; a failure fills the error area and the
   * overlay stays closed.
   */
  function ShowModal(errorBefore: string, response: DetailResponse): DetailOutcome {
    match response
    case DetailFailed => DetailOutcome(None, DetailErrorMessage)
    case DetailReceived(d) => DetailOutcome(Some(ModalFor(d)), errorBefore)
  }

  /**
   * The overlay's placeholders: the title, year and page count show
   * "Unknown" when falsy, the author and publisher lines when the list is
   * absent or empty; and a truthy value is shown as it is.
   */
  lemma ModalPlaceholders(d: BookDetail)
    ensures var m := ModalFor(d);
      && (m.title == Unknown <==> d.title.None? || d.title == Some("") || d.title == Some(Unknown))
      && (m.published == Unknown <==> d.firstPublishYear.None? || d.firstPublishYear == Some(0))
      && (m.pages == Unknown <==> d.numberOfPages.None? || d.numberOfPages == Some(0))
      && (d.authors.None? || d.authors == Some([]) ==> m.author == Unknown)
      && (d.publishers.None? || d.publishers == Some([]) ==> m.publisher == Unknown)
      && (d.subjects == Some([]) ==> m.subjects == "")
  {
    NumberUnknownIff(d.firstPublishYear);
    NumberUnknownIff(d.numberOfPages);
  }

  /** Two records that differ only in the form of a non-empty description show the same overlay. */
  lemma DescriptionFormIrrelevant(d: BookDetail, s: string)
    requires s != ""
    ensures ModalFor(d.(description := PlainText(s))) == ModalFor(d.(description := Structured(Some(s))))
  {
    DescriptionFormsAgree(s);
  }

  /** The overlay opens exactly when the record arrives; only a failure writes the error area. */
  lemma ModalOpensIffReceived(errorBefore: string, response: DetailResponse)
    ensures ShowModal(errorBefore, response).modal.Some? <==> response.DetailReceived?
    ensures response.DetailFailed? ==> ShowModal(errorBefore, response).error == DetailErrorMessage
    ensures response.DetailReceived? ==> ShowModal(errorBefore, response).error == errorBefore
  {
  }
}
