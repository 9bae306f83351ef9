/**
 * The display text of the fields of a hit and of a detail record, with
 * JavaScript's truthiness: an absent field, an empty string and the number 0
 * are falsy and show as "Unknown"; an array, even an empty one, is truthy.
 */
module Format {
  import opened Wrappers
  import opened Strings
  import opened Numbers

  const Unknown := "Unknown"

  /** An object with an optional `name` (an author or a publisher of a detail record). */
  datatype Named = Named(name: Option<string>)

  /** A detail record's `description`: absent, a bare string, or an object with an optional `value`. */
  datatype Description = NoDescription | PlainText(text: string) | Structured(value: Option<string>)

  /** A value interpolated into a template literal: `undefined` shows as the word. */
  function Shown(s: Option<string>): string {
    s.GetOr("undefined")
  }

  /** `names ? names.join(", ") : "Unknown"`. */
  function JoinedOrUnknown(names: Option<seq<string>>): string {
    match names
    case None => Unknown
    case Some(xs) => Join(", ", xs)
  }

  /** `n ? n : "Unknown"` and `n || "Unknown"` for a number. */
  function NumberOrUnknown(n: Option<int>): string {
    match n
    case Some(v) => if v == 0 then Unknown else Decimal(v)
    case None => Unknown
  }

  /** `s || "Unknown"` for a string. */
  function TextOrUnknown(s: Option<string>): string {
    match s
    case Some(t) => if t == "" then Unknown else t
    case None => Unknown
  }

  /** The names of objects, with a missing `name` joined as the empty string. */
  function Names(xs: seq<Named>): seq<string> {
    seq(|xs|, k requires 0 <= k < |xs| => xs[k].name.GetOr(""))
  }

  /** `xs && xs.length > 0 ? xs.map(x => x.name).join(", ") : "Unknown"`. */
  function NamesOrUnknown(xs: Option<seq<Named>>): string {
    match xs
    case Some(ys) => if |ys| > 0 then Join(", ", Names(ys)) else Unknown
    case None => Unknown
  }

  /** The description: the string itself, an object's `value`, or "Unknown" when falsy. */
  function DescriptionText(d: Description): string {
    match d
    case NoDescription => Unknown
    case PlainText(t) => if t == "" then Unknown else t
    case Structured(v) => Shown(v)
  }

  // ---------------------------------------------------------------------
  // Properties of the formatting
  // ---------------------------------------------------------------------

  /** A number shows as "Unknown" exactly when it is absent or 0; otherwise as its decimal text, which reads back. */
  lemma NumberUnknownIff(n: Option<int>)
    ensures NumberOrUnknown(n) == Unknown <==> n.None? || n == Some(0)
    ensures n.Some? && n.value != 0 ==> ParseInt(NumberOrUnknown(n)) == Some(n.value)
  {
    if n.Some? && n.value != 0 {
      var s := Decimal(n.value);
      assert s[0] == '-' || IsDigit(s[0]);
      assert Unknown[0] == 'U';
      ParseDecimal(n.value);
    }
  }

  /**
   * A description given as a bare string and one given as `{value: s}` show
   * the same text exactly when `s` is not empty: an empty bare string is
   * falsy and shows as "Unknown", an object never is.
   */
  lemma DescriptionFormsAgree(s: string)
    ensures DescriptionText(PlainText(s)) == DescriptionText(Structured(Some(s))) <==> s != ""
    ensures s != "" ==> DescriptionText(PlainText(s)) == s
  {
    assert Unknown != "";
  }

  /** An absent description and an absent value both show a placeholder, never the empty string. */
  lemma DescriptionNeverEmptyWhenAbsent()
    ensures DescriptionText(NoDescription) == Unknown
    ensures DescriptionText(Structured(None)) == "undefined"
  {
  }

  /** The sum of the lengths of the parts. */
  function TotalLength(xs: seq<string>): nat {
    if xs == [] then 0 else |xs[0]| + TotalLength(xs[1..])
  }

  /**
   * A joined list starts with its first part, and its length is the parts'
   * lengths plus one separator between each two parts.
   */
  lemma {:induction false} JoinParts(sep: string, xs: seq<string>)
    requires |xs| >= 1
    ensures Join(sep, xs)[..|xs[0]|] == xs[0]
    ensures |Join(sep, xs)| == TotalLength(xs) + |sep| * (|xs| - 1)
    decreases |xs|
  {
    if |xs| >= 2 {
      JoinParts(sep, xs[1..]);
      assert |sep| + |sep| * (|xs| - 2) == |sep| * (|xs| - 1);
    } else {
      assert xs[1..] == [];
    }
  }

  /**
   * An empty author list is truthy: a hit with `author_name: []` shows an
   * empty author line, while a detail record with `authors: []` shows
   * "Unknown".
   */
  lemma EmptyListTruthiness()
    ensures JoinedOrUnknown(Some([])) == ""
    ensures NamesOrUnknown(Some([])) == Unknown
    ensures JoinedOrUnknown(None) == Unknown && NamesOrUnknown(None) == Unknown
  {
  }

  /** A single author shows as its name; a list of names shows the first name first. */
  lemma NamesShowFirst(xs: seq<Named>)
    requires |xs| >= 1
    ensures NamesOrUnknown(Some(xs))[..|xs[0].name.GetOr("")|] == xs[0].name.GetOr("")
    ensures |xs| == 1 ==> NamesOrUnknown(Some(xs)) == xs[0].name.GetOr("")
  {
    JoinParts(", ", Names(xs));
  }

  /**
   * A non-empty author or publisher list shows the names, missing ones as
   * empty, with ", " between each two: its length is the names' lengths
   * plus two per separator.
   */
  lemma NamesLineLength(xs: seq<Named>)
    requires |xs| >= 1
    ensures |NamesOrUnknown(Some(xs))| == TotalLength(Names(xs)) + 2 * (|xs| - 1)
  {
    JoinParts(", ", Names(xs));
  }
}
