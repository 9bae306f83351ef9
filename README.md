# Books finder: search requests, pagination and record formatting

This project models the logic inside `script.js` of the books finder. The books finder is a browser front end for the Open Library search API. The project models four pieces of that script:

- **Search-request construction.** `handleSearch` trims the four form fields and ignores a query that is empty after trimming. It resets the current page to 1. `fetchResults` then builds the search URL: `q`, `limit=10`, `offset=(page-1)*10`, each of `author`, `subject`, `language` when it is non-empty, and a trailing `limit=50`.
- **The pagination window.** `displayPagination` computes `totalPages = ceil(numFound/10)` and draws nothing for one page or fewer. Otherwise it draws a Prev link when the current page is past 1, and a window of page links from `max(1, cur-2)` to `min(start+4, totalPages)` with the current page marked active. Last comes a Next link when the current page is before the last.
- **The page counter.** The module variable `currentPage` is set to 1 by a new search. The delegated click handler `handlePagination` sets it to `parseInt` of the clicked anchor's `data-page`.
- **Formatting of hits and detail records.** This follows JavaScript truthiness: an author list is joined with `", "`, and a year or page count of 0 shows "Unknown". A description is shown as a bare string or as the `value` of an object. The detail URL is `https://openlibrary.org` + key + `.json`.

Modules:

- `Strings` covers `trim`, `join` and splitting.
- `Numbers` covers decimal text and `parseInt`. A page number is `Page(n)` or `NaN`.
- `Request` covers the form, the filters, the search URL and how to read it back.
- `Pagination` covers `displayPagination`, as a method with a loop, and its specification `PaginationFor`.
- `Format` holds the display text of fields.
- `Results` covers `displayResults`, as a method with a loop, and what a settled search request leaves on screen.
- `Detail` covers the detail overlay.
- `Controller` is a class `SearchController` with the single field `currentPage`.

`encodeURIComponent` is not modelled. It is a parameter `enc: string -> string` of the functions that build URLs. The URL round trip assumes only that `enc` never outputs `&`, which holds for `encodeURIComponent`.

Subtleties of the code that the model keeps:

- For 100 hits on page 10 the window is `[8, 9, 10]`, not `[6..10]`. The start is `max(1, cur-2)` and only the end is clipped, so the window shrinks near the last page (`Pagination.Examples`).
- An empty hit list shows "No results found." and clears the controls. `fetchResults` then calls `displayPagination(numFound, page)`, which redraws them whenever `numFound > 10` (`Results.EmptyDocsStillPaginate`).
- The delegated handler does not check for an empty query. A page click fetches with whatever the form holds at that moment.
- The Prev and Next anchors have no `data-page`. Clicking them sets the page to `NaN` through the delegated handler, and the request carries `offset=NaN`. The redrawn pagination is then empty, because every comparison with `NaN` is false.
- `limit` is sent twice, first 10 and last 50 (`Request.DuplicateLimit`). A server that lets the later value win serves 50 hits while the offset advances by 10.

## Model

| member | source | states |
|---|---|---|
| `Strings.LeadingWhitespace` | script.js:70 | the count of leading characters that `trim` removes: all of them are whitespace, and the next character, if any, is not |
| `Strings.TrailingWhitespace` | script.js:70 | the count of trailing characters that `trim` removes: all of them are whitespace, and the character before them, if any, is not |
| `Strings.TrimIsInnerSlice` | script.js:70-75 | a trimmed field is a slice of the raw field, starting where the leading whitespace ends, with only whitespace cut off at both ends |
| `Strings.TrimEndsNotWhitespace` | script.js:70-75 | neither the first nor the last character of a non-empty trimmed field is whitespace |
| `Strings.TrimEmptyIff` | script.js:70-71 | a trimmed field is empty exactly when the raw field is all whitespace |
| `Strings.TrimIdempotent` | script.js:70-75 | trimming an already trimmed field changes nothing |
| `Strings.SplitJoin` | script.js:87-94 | joining pieces at a character none of them holds, then splitting there, gives the pieces back |
| `Numbers.Decimal` | script.js:174 | the decimal text of a number is non-empty, starts with a digit or `-`, and continues with digits only |
| `Numbers.ParseDecimal` | script.js:220 | `parseInt` of the decimal text of any integer is that integer |
| `Numbers.ParsePageOfDecimal` | script.js:174 | a `data-page` written from page `n` is read back by the handler as page `n` |
| `Numbers.DecimalInjective` | script.js:173-174 | distinct page numbers get distinct link texts |
| `Request.Normalize` | script.js:70-75 | no request is built exactly when the query is all whitespace; otherwise all four fields are trimmed and the query is non-empty |
| `Request.DetailUrl` | script.js:255 | the detail URL is the Open Library host, then the key unchanged, then `.json` |
| `Request.SearchUrlRoundTrip` | script.js:87-94 | reading the search URL back gives exactly the request's parameters, in order, when `enc` never outputs `&` |
| `Request.SearchParamsHaveNoDelimiters` | script.js:87-94 | when `enc` never outputs `&`, no key of the request holds `=` or `&` and no value holds `&` |
| `Request.QueryStringRoundTrip` | script.js:87-94 | a query string of pairs whose keys hold no `=` and whose parts hold no `&` parses back to those pairs |
| `Request.SearchParamsLayout` | script.js:86-94 | the request starts with `q=enc(query)`, `limit=10` and `offset`, ends with `limit=50`, and has 4 parameters plus one per non-empty filter |
| `Request.OffsetOfPage` | script.js:86 | the offset reads back as `(page-1)*10`, which from page 1 on is a non-negative multiple of 10; a `NaN` page sends `NaN` |
| `Request.FilterPresence` | script.js:91-93 | author, subject and language each appear once when non-empty and not at all when empty; `q` and `offset` appear once and `limit` twice |
| `Request.FilterOrder` | script.js:91-93 | the filters that are present stand between the offset and the trailing limit, in the order author, subject, language, with encoded values |
| `Request.DuplicateLimit` | script.js:90-94 | the first `limit` is 10 and the last is 50 |
| `Pagination.TotalPages` | script.js:146 | the page count is the least number of 10-hit pages covering the hit count |
| `Pagination.DisplayPagination` | script.js:144-210 | the loop over `startPage..endPage` and the Prev and Next flags produce exactly `PaginationFor(total, page)` |
| `Pagination.WindowShape` | script.js:170-178 | the window holds pages `lo..hi` in increasing order, and a link is active exactly when its page is the current page |
| `Pagination.HiddenIffOnePage` | script.js:146-148 | for a numeric current page, no controls at all are drawn exactly when the total is at most one page |
| `Pagination.PrevNextFlags` | script.js:150-194 | with more than one page, Prev is drawn iff `cur > 1` and Next iff `cur < totalPages` |
| `Pagination.WindowBounds` | script.js:167-170 | the window has at most 5 consecutive pages, starts at `max(1,cur-2)`, and lies within `[1, totalPages]` and `[start, min(start+4, totalPages)]` |
| `Pagination.WindowHasCurrent` | script.js:167-178 | when `1 <= cur <= totalPages`, the window contains `cur` as an active link, and exactly that one link is active |
| `Pagination.AnchorPagesReadBack` | script.js:170-174 | every numbered anchor reads back as a page in `[1, totalPages]`; the anchors without `data-page` are Prev and Next and read back as `NaN` |
| `Pagination.Anchors` | script.js:150-208 | the container holds Prev first when it is shown, then one anchor per link in window order with the link's page as text and `data-page`, then Next last when it is shown |
| `Pagination.Examples` | script.js:144-210 | 5 hits draw nothing; 100 hits on page 1 give `[1..5]` with Next only; on page 10 they give `[8,9,10]` with Prev only |
| `Format.NumberUnknownIff` | script.js:128 | a year or page count shows "Unknown" exactly when it is absent or 0; otherwise it shows text that reads back as the number |
| `Format.DescriptionFormsAgree` | script.js:270 | a bare-string description and `{value: s}` show the same text exactly when `s` is non-empty, and then show `s` |
| `Format.DescriptionNeverEmptyWhenAbsent` | script.js:270 | an absent description shows "Unknown"; an object without `value` shows `undefined` |
| `Format.JoinParts` | script.js:126 | a joined non-empty list starts with its first name, and its length is the names' lengths plus one separator between each two |
| `Format.NamesLineLength` | script.js:267 | a non-empty author or publisher line is the names, missing ones as empty, with ", " between them: the names' lengths plus 2 per separator |
| `Format.EmptyListTruthiness` | script.js:126 | an empty `author_name` array on a hit shows an empty author line; an empty `authors` array in a detail record shows "Unknown" |
| `Format.NamesShowFirst` | script.js:267 | a non-empty author or publisher list shows the first name first, and a single name on its own |
| `Results.DisplayResults` | script.js:113-142 | no hits give the "No results found." state; otherwise one summary per hit is appended, giving `ResultsFor(docs)` |
| `Results.SummariesMatchDocs` | script.js:121-141 | there is one summary per hit, in response order, each made from its own hit |
| `Results.ListingShowsEachHit` | script.js:124-138 | each drawn hit shows its authors joined by ", " (or "Unknown"), its year (or "Unknown" exactly when falsy), and opens the detail URL of its key |
| `Results.EmptyDocsStillPaginate` | script.js:102-118 | an empty response shows "No results found." and clears the error, and the controls are empty exactly when `numFound <= 10` |
| `Results.FailureKeepsScreen` | script.js:104-106 | a failed request fills the error area and leaves the results and controls as they were |
| `Results.NaNPageDrawsNoControls` | script.js:144-210 | a response for a `NaN` page draws no controls |
| `Detail.ModalPlaceholders` | script.js:266-272 | title, year and page count show "Unknown" exactly when falsy (or when the title is literally "Unknown"); authors and publishers show "Unknown" when absent or empty; an empty subjects array shows the empty string |
| `Detail.DescriptionFormIrrelevant` | script.js:270 | records that differ only in the form of a non-empty description show the same overlay |
| `Detail.ModalOpensIffReceived` | script.js:254-294 | the overlay opens exactly when the record arrives; a failure writes the detail error message, and a success leaves the error area as it was |
| `Controller.SearchController.constructor` | script.js:27 | the page counter starts at 1 |
| `Controller.SearchController.HandleSearch` | script.js:68-79 | an all-whitespace query fetches nothing and keeps the page; otherwise the page becomes 1 and page 1 of the trimmed filters is fetched |
| `Controller.SearchController.HandlePagination` | script.js:217-227 | a click on an anchor sets the page to `parseInt(data-page)` (`NaN` if it has none) and fetches that page with the current trimmed form; a click elsewhere changes nothing |
| `Controller.NewSearchStartsAtOffsetZero` | script.js:77-94 | the URL of a new search reads back with `offset=0`, a first `limit` of 10 and a last `limit` of 50 |
| `Controller.PageLinkClickFetchesItsOffset` | script.js:217-225 | clicking the link for page `p` fetches a URL whose offset reads back as `(p-1)*10` |

Some functions are specifications only: their contracts are the lemmas above, so they have no row of their own. `Request.SearchUrl` models script.js:86-94. `Pagination.PaginationFor` models script.js:144-210. `Results.AfterFetch` models script.js:81-111. `Detail.ShowModal` models script.js:254-294.

## Left out

- Network I/O and its suspension points (`fetch`, `response.ok`, `response.json()`) are not modelled. A response is an input value: `SearchResponse` or `DetailResponse`. A failed status and a transport failure are one case.
- DOM work is not modelled: `innerHTML`, `createElement`, `appendChild`, the loading overlay and indicator, and the HTML text around each field. The screen is modelled as the values it shows.
- The per-link click handlers inside `displayPagination` are not modelled. They only change the function's own `currentPage` parameter, which shadows the module variable, and then call `fetchAndDisplayResults`, which is defined nowhere. The delegated `handlePagination` handles the same clicks and is modelled.
- The close and outside-click listeners of the overlay, added again on every opening, are not modelled: they are event wiring.
- The recommendations widget is not modelled. It is a fixed fetch plus a render, with no logic of its own.
- The dark-mode toggle and its `localStorage` preference are not modelled: they are UI and storage glue.
- The always-true string condition that hides the static Prev and Next buttons is not modelled. It has no behaviour to state.
- `encodeURIComponent` is not modelled; it is the parameter `enc`. It throws `URIError` on a lone UTF-16 surrogate, and `fetchResults` would catch that and show its error message. That path is not modelled: a Dafny string cannot hold a lone surrogate.
- The `console.error` logging of failures at script.js:105 and script.js:292 is not modelled: it is output to the developer console only.
- Numbers are integers. Fractional values, exponent notation above 10^21 and the float rounding of `Math.ceil(total / 10)` beyond 2^53 are not modelled.
- A missing `numFound` (`NaN` pages) is not modelled; `numFound` is a count.
- `Numbers.ParseInt`: does not model the `0x` hexadecimal prefix that `parseInt` accepts without a radix. The only text the handler reads is a decimal `data-page`, or no attribute at all.
- Array elements in the detail record's `subjects` are modelled as strings, and hits' `author_name` as strings.
- The order in which concurrent responses arrive (last write wins) is not modelled.
