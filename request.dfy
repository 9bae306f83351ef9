/**
 * Turning the search form into a request: the four fields are trimmed, an
 * empty query is refused, and the search URL carries `q`, `limit`, `offset`,
 * the non-empty filters and a second `limit`. `encodeURIComponent` is a
 * parameter `enc` of the functions that need it.
 */
module Request {
  import opened Wrappers
  import opened Strings
  import opened Numbers

  const ApiUrl := "https://openlibrary.org/search.json"
  const DetailBase := "https://openlibrary.org"
  /** Hits asked for per page; the stride of the offset. */
  const ResultsPerPage := 10
  /** The value of the `limit` parameter appended after the filters. */
  const MaxResults := 50

  /** The text of the four inputs at the moment they are read. */
  datatype Form = Form(query: string, author: string, subject: string, language: string)

  /** The four fields after trimming. */
  datatype Filters = Filters(query: string, author: string, subject: string, language: string)

  datatype Param = Param(key: string, value: string)

  function Trimmed(form: Form): Filters {
    Filters(Trim(form.query), Trim(form.author), Trim(form.subject), Trim(form.language))
  }

  /**
   * What a submitted form yields: nothing when the trimmed query is empty,
   * otherwise every field trimmed.
   */
  function Normalize(form: Form): (r: Option<Filters>)
    ensures r.None? <==> AllWhitespace(form.query)
    ensures r.Some? ==> r.value.query != [] && r.value == Trimmed(form)
  {
    TrimEmptyIff(form.query);
    if Trim(form.query) == "" then None else Some(Trimmed(form))
  }

  /** The text of the `offset` parameter: `(page - 1) * resultsPerPage`, or `NaN`. */
  function OffsetText(page: PageNumber): string {
    match page
    case Page(n) => Decimal((n - 1) * ResultsPerPage)
    case NaN => "NaN"
  }

  /** A filter parameter, present only when its (trimmed) value is not empty. */
  function FilterParam(key: string, value: string, enc: string -> string): seq<Param> {
    if value == "" then [] else [Param(key, enc(value))]
  }

  /** The parameters of the search request, in the order they are written. */
  function SearchParams(f: Filters, page: PageNumber, enc: string -> string): seq<Param> {
    [Param("q", enc(f.query)), Param("limit", Decimal(ResultsPerPage)), Param("offset", OffsetText(page))]
    + FilterParam("author", f.author, enc)
    + FilterParam("subject", f.subject, enc)
    + FilterParam("language", f.language, enc)
    + [Param("limit", Decimal(MaxResults))]
  }

  function PairText(p: Param): string {
    p.key + "=" + p.value
  }

  function QueryString(ps: seq<Param>): string {
    Join("&", seq(|ps|, k requires 0 <= k < |ps| => PairText(ps[k])))
  }

  /** The URL that is fetched for a search. */
  function SearchUrl(f: Filters, page: PageNumber, enc: string -> string): string {
    ApiUrl + "?" + QueryString(SearchParams(f, page, enc))
  }

  /** The URL of a hit's detail record, built from its key as it stands. */
  function DetailUrl(key: string): (url: string)
    ensures |url| == |DetailBase| + |key| + 5
    ensures url[..|DetailBase|] == DetailBase
    ensures url[|DetailBase|..|DetailBase| + |key|] == key
    ensures url[|url| - 5..] == ".json"
  {
    DetailBase + key + ".json"
  }

  /** One `key=value` pair: the key runs to the first `=`; a pair without `=` has an empty value. */
  function ParsePair(s: string): Param {
    if '=' in s then
      var i := IndexOf(s, '=');
      Param(s[..i], s[i + 1..])
    else
      Param(s, "")
  }

  function ParseQueryString(s: string): (ps: seq<Param>)
    ensures |ps| == |Split(s, '&')|
  {
    var parts := Split(s, '&');
    seq(|parts|, k requires 0 <= k < |parts| => ParsePair(parts[k]))
  }

  /** The parameters of a URL on the search endpoint; `None` for any other URL. */
  function ParseSearchUrl(url: string): Option<seq<Param>> {
    var prefix := ApiUrl + "?";
    if |url| >= |prefix| && url[..|prefix|] == prefix then Some(ParseQueryString(url[|prefix|..]))
    else None
  }

  /** The number of parameters named `key`. */
  function CountKey(ps: seq<Param>, key: string): nat {
    if ps == [] then 0 else CountKey(ps[..|ps| - 1], key) + (if ps[|ps| - 1].key == key then 1 else 0)
  }

  /** The value of the first parameter named `key`. */
  function FirstValue(ps: seq<Param>, key: string): Option<string> {
    if ps == [] then None
    else if ps[0].key == key then Some(ps[0].value)
    else FirstValue(ps[1..], key)
  }

  /** The value of the last parameter named `key`: the one a server that lets later values win uses. */
  function LastValue(ps: seq<Param>, key: string): Option<string> {
    if ps == [] then None
    else if ps[|ps| - 1].key == key then Some(ps[|ps| - 1].value)
    else LastValue(ps[..|ps| - 1], key)
  }

  /** `encodeURIComponent` escapes `&`, so no encoded value contains one. */
  ghost predicate EscapesAmpersand(enc: string -> string) {
    forall s :: '&' !in enc(s)
  }

  // ---------------------------------------------------------------------
  // Properties of the request
  // ---------------------------------------------------------------------

  lemma {:induction false} CountKeyAppend(a: seq<Param>, b: seq<Param>, key: string)
    ensures CountKey(a + b, key) == CountKey(a, key) + CountKey(b, key)
    decreases |b|
  {
    if b == [] {
      assert a + b == a;
    } else {
      assert (a + b)[..|a + b| - 1] == a + b[..|b| - 1];
      CountKeyAppend(a, b[..|b| - 1], key);
    }
  }

  lemma {:induction false} ParsePairText(p: Param)
    requires '=' !in p.key
    ensures ParsePair(PairText(p)) == p
  {
    var s := PairText(p);
    assert s[|p.key|] == '=' && s[..|p.key|] == p.key;
    assert IndexOf(s, '=') == |p.key|;
    assert s[|p.key| + 1..] == p.value;
  }

  /** A query string of pairs whose keys hold no `=` and whose parts hold no `&` parses back to the pairs. */
  lemma QueryStringRoundTrip(ps: seq<Param>)
    requires |ps| >= 1
    requires forall k :: 0 <= k < |ps| ==> '=' !in ps[k].key && '&' !in ps[k].key && '&' !in ps[k].value
    ensures ParseQueryString(QueryString(ps)) == ps
  {
    var texts := seq(|ps|, k requires 0 <= k < |ps| => PairText(ps[k]));
    forall k | 0 <= k < |ps| ensures '&' !in texts[k] {
      assert texts[k] == ps[k].key + "=" + ps[k].value;
    }
    SplitJoin(texts, '&');
    forall k | 0 <= k < |ps| ensures ParsePair(texts[k]) == ps[k] {
      ParsePairText(ps[k]);
    }
  }

  lemma NoAmpersandInDecimal(n: int)
    ensures '&' !in Decimal(n)
  {
    var s := Decimal(n);
    forall k | 0 <= k < |s| ensures s[k] != '&' {
      if k > 0 {
        assert s[k] == s[1..][k - 1];
      }
    }
  }

  /** No key of the request holds `=` or `&`, and no value holds `&`. */
  lemma SearchParamsHaveNoDelimiters(f: Filters, page: PageNumber, enc: string -> string)
    requires EscapesAmpersand(enc)
    ensures AllSafe(SearchParams(f, page, enc))
  {
    var head := [Param("q", enc(f.query)), Param("limit", Decimal(ResultsPerPage)), Param("offset", OffsetText(page))];
    var fa := FilterParam("author", f.author, enc);
    var fs := FilterParam("subject", f.subject, enc);
    var fl := FilterParam("language", f.language, enc);
    var tail := [Param("limit", Decimal(MaxResults))];
    HeadSafe(f, page, enc);
    FilterParamSafe("author", f.author, enc);
    FilterParamSafe("subject", f.subject, enc);
    FilterParamSafe("language", f.language, enc);
    assert AllSafe(tail) by { NoAmpersandInDecimal(MaxResults); }
    AllSafeAppend(head, fa);
    AllSafeAppend(head + fa, fs);
    AllSafeAppend(head + fa + fs, fl);
    AllSafeAppend(head + fa + fs + fl, tail);
    assert SearchParams(f, page, enc) == head + fa + fs + fl + tail;
  }

  lemma HeadSafe(f: Filters, page: PageNumber, enc: string -> string)
    requires EscapesAmpersand(enc)
    ensures AllSafe([Param("q", enc(f.query)), Param("limit", Decimal(ResultsPerPage)), Param("offset", OffsetText(page))])
  {
    NoAmpersandInDecimal(ResultsPerPage);
    match page {
      case Page(n) => NoAmpersandInDecimal((n - 1) * ResultsPerPage);
      case NaN =>
    }
    assert '&' !in enc(f.query);
  }

  lemma FilterParamSafe(key: string, value: string, enc: string -> string)
    requires EscapesAmpersand(enc)
    requires '=' !in key && '&' !in key
    ensures AllSafe(FilterParam(key, value, enc))
  {
    assert '&' !in enc(value);
  }

  /** Every key free of `=` and `&`, every value free of `&`. */
  predicate AllSafe(ps: seq<Param>) {
    forall k :: 0 <= k < |ps| ==> '=' !in ps[k].key && '&' !in ps[k].key && '&' !in ps[k].value
  }

  lemma AllSafeAppend(a: seq<Param>, b: seq<Param>)
    requires AllSafe(a) && AllSafe(b)
    ensures AllSafe(a + b)
  {
    forall k | 0 <= k < |a + b|
      ensures '=' !in (a + b)[k].key && '&' !in (a + b)[k].key && '&' !in (a + b)[k].value
    {
      if k >= |a| {
        assert (a + b)[k] == b[k - |a|];
      }
    }
  }

  /**
   * The search URL is the search endpoint with exactly the request's
   * parameters: reading it back gives `SearchParams` again.
   */
  lemma SearchUrlRoundTrip(f: Filters, page: PageNumber, enc: string -> string)
    requires EscapesAmpersand(enc)
    ensures ParseSearchUrl(SearchUrl(f, page, enc)) == Some(SearchParams(f, page, enc))
  {
    var ps := SearchParams(f, page, enc);
    SearchParamsHaveNoDelimiters(f, page, enc);
    QueryStringRoundTrip(ps);
    var url := SearchUrl(f, page, enc);
    assert url[|ApiUrl + "?"|..] == QueryString(ps);
  }

  /**
   * The layout of the request: it starts with the query, `limit=10` and the
   * offset, ends with `limit=50`, and between them holds one parameter per
   * non-empty filter and nothing else.
   */
  lemma SearchParamsLayout(f: Filters, page: PageNumber, enc: string -> string)
    ensures var ps := SearchParams(f, page, enc);
      && |ps| == 4 + (if f.author != "" then 1 else 0) + (if f.subject != "" then 1 else 0)
                   + (if f.language != "" then 1 else 0)
      && ps[0] == Param("q", enc(f.query))
      && ps[1] == Param("limit", "10")
      && ps[2] == Param("offset", OffsetText(page))
      && ps[|ps| - 1] == Param("limit", "50")
  {
    assert Decimal(ResultsPerPage) == "10";
    assert Decimal(MaxResults) == "50";
  }

  /**
   * From page 1 on, the offset reads back as a non-negative multiple of ten,
   * ten per page before the current one; a `NaN` page gives the text `NaN`.
   */
  lemma OffsetOfPage(page: PageNumber)
    ensures page.Page? ==> ParseInt(OffsetText(page)) == Some((page.n - 1) * 10)
    ensures page.Page? && page.n >= 1 ==> (page.n - 1) * 10 >= 0 && (page.n - 1) * 10 % 10 == 0
    ensures page.NaN? ==> OffsetText(page) == "NaN" && ParseInt(OffsetText(page)).None?
  {
    match page {
      case Page(n) =>
        ParseDecimal((n - 1) * ResultsPerPage);
        var m := n - 1;
        assert m * 10 % 10 == 0;
      case NaN =>
        assert TrimStart("NaN") == "NaN";
        assert DigitPrefix("NaN") == "";
    }
  }

  /**
   * Each filter is sent exactly once, encoded, when it is non-empty, and not
   * at all when it is empty.
   */
  lemma FilterPresence(f: Filters, page: PageNumber, enc: string -> string)
    ensures var ps := SearchParams(f, page, enc);
      && CountKey(ps, "author") == (if f.author != "" then 1 else 0)
      && CountKey(ps, "subject") == (if f.subject != "" then 1 else 0)
      && CountKey(ps, "language") == (if f.language != "" then 1 else 0)
      && CountKey(ps, "q") == 1
      && CountKey(ps, "offset") == 1
      && CountKey(ps, "limit") == 2
  {
    CountKeyOfRequest(f, page, enc, "author");
    CountKeyOfRequest(f, page, enc, "subject");
    CountKeyOfRequest(f, page, enc, "language");
    CountKeyOfRequest(f, page, enc, "q");
    CountKeyOfRequest(f, page, enc, "offset");
    CountKeyOfRequest(f, page, enc, "limit");
  }

  function Ones(b: bool): nat { if b then 1 else 0 }

  /** The count of a key in the request, piece by piece. */
  lemma CountKeyOfRequest(f: Filters, page: PageNumber, enc: string -> string, key: string)
    ensures CountKey(SearchParams(f, page, enc), key)
      == Ones(key == "q") + Ones(key == "limit") + Ones(key == "offset")
         + Ones(key == "author" && f.author != "") + Ones(key == "subject" && f.subject != "")
         + Ones(key == "language" && f.language != "") + Ones(key == "limit")
  {
    var head := [Param("q", enc(f.query)), Param("limit", Decimal(ResultsPerPage)), Param("offset", OffsetText(page))];
    var a := FilterParam("author", f.author, enc);
    var s := FilterParam("subject", f.subject, enc);
    var l := FilterParam("language", f.language, enc);
    var tail := [Param("limit", Decimal(MaxResults))];
    assert SearchParams(f, page, enc) == head + a + s + l + tail;
    CountKeyAppend(head + a + s + l, tail, key);
    CountKeyAppend(head + a + s, l, key);
    CountKeyAppend(head + a, s, key);
    CountKeyAppend(head, a, key);
    CountKeyOfThree(head[0], head[1], head[2], key);
    CountKeyOfOne(tail[0], key);
    CountKeyOfFilter("author", f.author, enc, key);
    CountKeyOfFilter("subject", f.subject, enc, key);
    CountKeyOfFilter("language", f.language, enc, key);
  }

  lemma CountKeyOfFilter(name: string, value: string, enc: string -> string, key: string)
    ensures CountKey(FilterParam(name, value, enc), key) == Ones(key == name && value != "")
  {
    if value != "" {
      CountKeyOfOne(Param(name, enc(value)), key);
    }
  }

  lemma CountKeyOfOne(p: Param, key: string)
    ensures CountKey([p], key) == Ones(p.key == key)
  {
    assert [p][..0] == [];
  }

  lemma CountKeyOfThree(p0: Param, p1: Param, p2: Param, key: string)
    ensures CountKey([p0, p1, p2], key) == Ones(p0.key == key) + Ones(p1.key == key) + Ones(p2.key == key)
  {
    assert [p0, p1, p2][..2] == [p0, p1];
    assert [p0, p1][..1] == [p0];
    CountKeyOfOne(p0, key);
  }

  /**
   * The filters that are present stand between the offset and the trailing
   * limit, in the order author, subject, language.
   */
  lemma FilterOrder(f: Filters, page: PageNumber, enc: string -> string)
    ensures var ps := SearchParams(f, page, enc);
      ps[3..|ps| - 1] == FilterParam("author", f.author, enc) + FilterParam("subject", f.subject, enc)
                         + FilterParam("language", f.language, enc)
  {
  }

  /**
   * `limit` is sent twice: first as the page size 10, last as 50. A server
   * that takes the last value of a repeated parameter serves up to 50 hits
   * per request while the offset advances by 10.
   */
  lemma DuplicateLimit(f: Filters, page: PageNumber, enc: string -> string)
    ensures var ps := SearchParams(f, page, enc);
      FirstValue(ps, "limit") == Some("10") && LastValue(ps, "limit") == Some("50")
  {
    var ps := SearchParams(f, page, enc);
    assert Decimal(ResultsPerPage) == "10";
    assert Decimal(MaxResults) == "50";
    assert FirstValue(ps, "limit") == FirstValue(ps[1..], "limit");
  }
}
