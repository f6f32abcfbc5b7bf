/** Whether a document's metadata satisfies every search filter. */
module MetadataMatch {
  import opened Seqs
  import opened Calendar
  import opened Text

  /** What a filter asks for: one text, or any of several. */
  datatype Expected = One(text: string) | Many(texts: seq<string>)

  /** Metadata of one document; a missing value and an empty one are treated alike. */
  type Metadata = map<string, string>

  function Get(m: Metadata, key: string): string { if key in m then m[key] else "" }

  const DATE_KEYS := {"report_date_start", "report_date_end"}
  const PLURAL_KEYS := {"report_types", "target_names"}

  function Singular(key: string): string {
    if key == "report_types" then "report_type" else if key == "target_names" then "target_name" else key
  }

  /** The names a `file_names` filter lists; a text is iterated by characters. */
  function Names(e: Expected): set<string> {
    match e
    case One(text) => set i | 0 <= i < |text| :: [text[i]]
    case Many(texts) => set t | t in texts
  }

  /** `str(value or "")`; `show` is how a list prints. */
  function Shown(e: Expected, show: seq<string> -> string): string {
    match e
    case One(text) => text
    case Many(texts) => if texts == [] then "" else show(texts)
  }

  /** Comparing a date with a list raises. */
  predicate Raises(m: Metadata, key: string, e: Expected) { key in DATE_KEYS && Get(m, "report_date") != "" && e.Many? }

  /** One filter, said without the branches: equality of names, membership, or order of dates. */
  predicate Satisfies(m: Metadata, key: string, e: Expected, fold: string -> string, show: seq<string> -> string) {
    if key == "file_names" then "file_name" in m && m["file_name"] in Names(e)
    else if key in DATE_KEYS then
      Get(m, "report_date") != "" && e.One?
      && (if key == "report_date_start" then !StringLess(Get(m, "report_date"), e.text)
          else !StringLess(e.text, Get(m, "report_date")))
    else if key in PLURAL_KEYS then
      e.Many? && Get(m, Singular(key)) != ""
      && exists t :: t in e.texts && Normalize(t, fold) == Normalize(Get(m, Singular(key)), fold)
    else Get(m, key) != "" && Normalize(Get(m, key), fold) == Normalize(Shown(e, show), fold)
  }

  /** The first `n` filters are satisfied. */
  predicate SatisfiesFirst(
    m: Metadata, filters: seq<(string, Expected)>, n: nat, fold: string -> string, show: seq<string> -> string)
    requires n <= |filters|
  {
    forall i :: 0 <= i < n ==> Satisfies(m, filters[i].0, filters[i].1, fold, show)
  }

  /** `metadata_matches`; None where the comparison of a date with a list raises. */
  method MetadataMatches(
    m: Metadata, filters: seq<(string, Expected)>, fold: string -> string, show: seq<string> -> string)
    returns (b: Option<bool>)
    ensures b == Some(true) <==> SatisfiesFirst(m, filters, |filters|, fold, show)
    ensures b == None <==>
      exists i :: 0 <= i < |filters| && Raises(m, filters[i].0, filters[i].1) &&
        SatisfiesFirst(m, filters, i, fold, show)
  {
    for i := 0 to |filters|
      invariant SatisfiesFirst(m, filters, i, fold, show)
    {
      var (key, expected) := filters[i];
      if Raises(m, key, expected) {
        return None;
      }
      var holds := MatchesOne(m, key, expected, fold, show);
      if !holds {
        return Some(false);
      }
    }
    b := Some(true);
  }

  /** One turn of the loop, where it does not raise. */
  method MatchesOne(m: Metadata, key: string, expected: Expected, fold: string -> string, show: seq<string> -> string)
    returns (b: bool)
    requires !Raises(m, key, expected)
    ensures b == Satisfies(m, key, expected, fold, show)
  {
    if key == "file_names" {
      return "file_name" in m && m["file_name"] in Names(expected);
    }
    if key in DATE_KEYS {
      var actual := Get(m, "report_date");
      if actual == "" {
        return false;
      }
      if key == "report_date_start" && StringLess(actual, expected.text) {
        return false;
      }
      if key == "report_date_end" && StringLess(expected.text, actual) {
        return false;
      }
      return true;
    }
    if key in PLURAL_KEYS {
      if expected.One? {
        return false;
      }
      var actual := Get(m, Singular(key));
      return actual != "" && exists t :: t in expected.texts && Normalize(t, fold) == Normalize(actual, fold);
    }
    var actual := Get(m, key);
    b := actual != "" && Normalize(actual, fold) == Normalize(Shown(expected, show), fold);
  }

  /** What each key of a filter asks of the document, and where the document has it. */
  lemma FilterWords(m: Metadata, key: string, e: Expected, fold: string -> string, show: seq<string> -> string)
    ensures Satisfies(m, "file_names", e, fold, show) <==>
      && "file_name" in m
      && (if e.Many? then m["file_name"] in e.texts else exists c :: c in e.text && m["file_name"] == [c])
    ensures Satisfies(m, "report_date_start", e, fold, show) <==>
      "report_date" in m && m["report_date"] != "" && e.One? && !StringLess(m["report_date"], e.text)
    ensures Satisfies(m, "report_date_end", e, fold, show) <==>
      "report_date" in m && m["report_date"] != "" && e.One? && !StringLess(e.text, m["report_date"])
    ensures Satisfies(m, "report_types", e, fold, show) <==> NamedIn(m, "report_type", e, fold)
    ensures Satisfies(m, "target_names", e, fold, show) <==> NamedIn(m, "target_name", e, fold)
    ensures key !in {"file_names", "report_date_start", "report_date_end", "report_types", "target_names"} ==>
      (Satisfies(m, key, e, fold, show) <==>
        && key in m && m[key] != ""
        && Normalize(m[key], fold)
          == Normalize(if e.One? then e.text else if e.texts == [] then "" else show(e.texts), fold))
  {
    NamesOfText(e);
  }

  /** The document has a value there that is one of several, up to case and blanks. */
  predicate NamedIn(m: Metadata, key: string, e: Expected, fold: string -> string) {
    && e.Many? && key in m && m[key] != ""
    && exists t :: t in e.texts && Normalize(t, fold) == Normalize(m[key], fold)
  }

  lemma NamesOfText(e: Expected)
    ensures e.One? ==> forall s :: s in Names(e) <==> exists c :: c in e.text && s == [c]
    ensures e.Many? ==> forall s :: s in Names(e) <==> s in e.texts
  {
    if e.One? {
      forall s | exists c :: c in e.text && s == [c] ensures s in Names(e) {
        var i :| 0 <= i < |e.text| && s == [e.text[i]];
      }
    }
  }

  /** The two filters that a date range turns into. */
  function RangeFilters(r: Range): seq<(string, Expected)>
    requires ValidRange(r)
  {
    [("report_date_start", One(Iso(r.first))), ("report_date_end", One(Iso(r.last)))]
  }

  /** A dated document passes the filters of a range exactly when its date lies in the range. */
  lemma RangeFiltersSelectTheRange(
    m: Metadata, r: Range, d: Date, fold: string -> string, show: seq<string> -> string)
    requires ValidRange(r) && Valid(d) && "report_date" in m && m["report_date"] == Iso(d)
    ensures SatisfiesFirst(m, RangeFilters(r), 2, fold, show) <==> Between(r, d)
  {
    StringsMeanTheRange(r, d);
    var filters := RangeFilters(r);
    assert filters[0].0 == "report_date_start" && filters[1].0 == "report_date_end";
  }

  /** "Last month", "this month" and "next month" select exactly the documents of that month, this month up to today. */
  lemma MonthFilterSelectsTheMonth(
    m: Metadata, today: Date, k: int, d: Date, fold: string -> string, show: seq<string> -> string)
    requires Valid(today) && Valid(d) && "report_date" in m && m["report_date"] == Iso(d)
    requires MonthOffsetRange(today, k).Some? && ValidRange(MonthOffsetRange(today, k).value)
    ensures SatisfiesFirst(m, RangeFilters(MonthOffsetRange(today, k).value), 2, fold, show)
      <==> MonthIndex(d) == MonthIndex(today) + k && (k == 0 ==> !Before(today, d))
  {
    MonthOffsetRangeIsTheMonth(today, k, d);
    RangeFiltersSelectTheRange(m, MonthOffsetRange(today, k).value, d, fold, show);
  }
}
