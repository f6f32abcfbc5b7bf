/** From requested dates to the windows the crawler is started with. */
module CrawlWindows {
  import opened Seqs
  import opened Calendar
  import opened Text

  predicate Ascending(ds: seq<Date>) {
    && (forall d :: d in ds ==> Valid(d))
    && forall i, j :: 0 <= i < j < |ds| ==> Before(ds[i], ds[j])
  }

  function Insert(ds: seq<Date>, d: Date): (r: seq<Date>)
    requires Ascending(ds) && Valid(d)
    ensures Ascending(r)
    ensures forall x :: x in r <==> x == d || x in ds
  {
    if ds == [] || Before(d, ds[0]) then [d] + ds
    else if ds[0] == d then ds
    else
      var rest := Insert(ds[1..], d);
      assert forall x :: x in ds[1..] ==> Before(ds[0], x);
      [ds[0]] + rest
  }

  /** `normalize_date_list`: the parsed dates, sorted and without repeats; None when one does not parse. */
  function NormalizedDates(values: seq<string>, parse: string -> Option<Date>): (r: Option<seq<Date>>)
    requires forall v :: parse(v).Some? ==> Valid(parse(v).value)
    ensures r.None? <==> exists v :: v in values && parse(v).None?
    ensures r.Some? ==> Ascending(r.value) && forall d :: d in r.value <==>
      exists v :: v in values && parse(v) == Some(d)
  {
    if values == [] then Some([])
    else
      var rest := NormalizedDates(values[1..], parse);
      var first := parse(values[0]);
      if rest.None? || first.None? then None else Some(Insert(rest.value, first.value))
  }

  /** Sorting the dates is sorting their ISO strings, which is what the original sorts. */
  lemma AscendingStrings(ds: seq<Date>, i: nat, j: nat)
    requires Ascending(ds) && i < j < |ds|
    ensures ds[i] in ds && ds[j] in ds && StringLess(Iso(ds[i]), Iso(ds[j]))
  {
    IsoOrder(ds[i], ds[j]);
  }

  ghost predicate Requested(ds: seq<Date>, n: int) { exists i :: 0 <= i < |ds| && Ordinal(ds[i]) == n }

  ghost predicate InRange(r: Range, n: int) { Ordinal(r.first) <= n <= Ordinal(r.last) }

  ghost predicate Covered(rs: seq<Range>, n: int) { exists i :: 0 <= i < |rs| && InRange(rs[i], n) }

  /** Proper ranges in order, with at least one day that lies in neither between any two. */
  ghost predicate Separated(rs: seq<Range>) {
    && (forall r :: r in rs ==> ValidRange(r) && Ordinal(r.first) <= Ordinal(r.last))
    && forall i, j :: 0 <= i < j < |rs| ==> Ordinal(rs[i].last) + 1 < Ordinal(rs[j].first)
  }

  /** `group_consecutive_dates` on the sorted dates. */
  method GroupConsecutiveDates(ds: seq<Date>) returns (ranges: seq<Range>)
    requires Ascending(ds)
    ensures Separated(ranges)
    ensures forall n :: Covered(ranges, n) <==> Requested(ds, n)
  {
    if ds == [] {
      return [];
    }
    ranges := [];
    var start, previous := ds[0], ds[0];
    for i := 1 to |ds|
      invariant previous == ds[i - 1] && Valid(start) && Ordinal(start) <= Ordinal(previous)
      invariant Separated(ranges)
      invariant forall r :: r in ranges ==> Ordinal(r.last) + 1 < Ordinal(start)
      invariant forall n :: Covered(ranges, n) || InRange(Range(start, previous), n) <==> Requested(ds[..i], n)
    {
      var current := ds[i];
      OrdinalOrder(previous, current);
      Extended(ds, i);
      if Ordinal(current) == Ordinal(previous) + 1 {
        previous := current;
      } else {
        CoveredAppend(ranges, Range(start, previous));
        SeparatedAppend(ranges, Range(start, previous));
        ranges := ranges + [Range(start, previous)];
        start, previous := current, current;
      }
    }
    CoveredAppend(ranges, Range(start, previous));
    SeparatedAppend(ranges, Range(start, previous));
    ranges := ranges + [Range(start, previous)];
    assert ds[..|ds|] == ds;
  }

  lemma Extended(ds: seq<Date>, i: nat)
    requires i < |ds|
    ensures forall n :: Requested(ds[..i + 1], n) <==> Requested(ds[..i], n) || n == Ordinal(ds[i])
  {
    forall n ensures Requested(ds[..i + 1], n) <==> Requested(ds[..i], n) || n == Ordinal(ds[i]) {
      if Requested(ds[..i], n) {
        var k :| 0 <= k < i && Ordinal(ds[..i][k]) == n;
        assert ds[..i + 1][k] == ds[k];
      }
      if n == Ordinal(ds[i]) {
        assert ds[..i + 1][i] == ds[i];
      }
      if Requested(ds[..i + 1], n) && n != Ordinal(ds[i]) {
        var k :| 0 <= k < i + 1 && Ordinal(ds[..i + 1][k]) == n;
        assert ds[..i][k] == ds[k];
      }
    }
  }

  lemma SeparatedAppend(rs: seq<Range>, r: Range)
    requires Separated(rs) && ValidRange(r) && Ordinal(r.first) <= Ordinal(r.last)
    requires forall x :: x in rs ==> Ordinal(x.last) + 1 < Ordinal(r.first)
    ensures Separated(rs + [r]) && forall x :: x in rs + [r] ==> x in rs || x == r
  {
  }

  lemma CoveredAppend(rs: seq<Range>, r: Range)
    ensures forall n :: Covered(rs + [r], n) <==> Covered(rs, n) || InRange(r, n)
  {
    forall n ensures Covered(rs + [r], n) <==> Covered(rs, n) || InRange(r, n) {
      if Covered(rs, n) {
        var i :| 0 <= i < |rs| && InRange(rs[i], n);
        assert (rs + [r])[i] == rs[i];
      }
      if InRange(r, n) {
        assert (rs + [r])[|rs|] == r;
      }
    }
  }

  /** The ranges are determined: no other separated ranges cover the same days. */
  lemma {:induction false} GroupingIsUnique(rs: seq<Range>, ss: seq<Range>)
    requires Separated(rs) && Separated(ss) && forall n :: Covered(rs, n) <==> Covered(ss, n)
    ensures rs == ss
  {
    EmptyTogether(rs, ss);
    EmptyTogether(ss, rs);
    if rs != [] {
      SameFirst(rs, ss);
      assert forall r :: r in rs[1..] ==> r in rs;
      assert forall r :: r in ss[1..] ==> r in ss;
      forall n ensures Covered(rs[1..], n) <==> Covered(ss[1..], n) {
        CoveredTail(rs, n);
        CoveredTail(ss, n);
      }
      GroupingIsUnique(rs[1..], ss[1..]);
    }
  }

  lemma EmptyTogether(rs: seq<Range>, ss: seq<Range>)
    requires Separated(ss) && forall n :: Covered(rs, n) <==> Covered(ss, n)
    ensures rs == [] ==> ss == []
  {
    if ss != [] {
      Edges(ss);
      assert ss[0] in ss && Covered(ss, Ordinal(ss[0].first));
    }
  }

  lemma CoveredTail(rs: seq<Range>, n: int)
    requires rs != [] && Separated(rs)
    ensures Covered(rs[1..], n) <==> Covered(rs, n) && n > Ordinal(rs[0].last)
  {
    if Covered(rs[1..], n) {
      var i :| 0 <= i < |rs[1..]| && InRange(rs[1..][i], n);
      assert InRange(rs[i + 1], n);
    }
    if Covered(rs, n) && n > Ordinal(rs[0].last) {
      var i :| 0 <= i < |rs| && InRange(rs[i], n);
      assert rs[1..][i - 1] == rs[i];
    }
  }

  /** Both begin with the first covered day and end before the first gap. */
  lemma SameFirst(rs: seq<Range>, ss: seq<Range>)
    requires rs != [] && ss != [] && Separated(rs) && Separated(ss) && forall n :: Covered(rs, n) <==> Covered(ss, n)
    ensures rs[0] == ss[0]
  {
    assert rs[0] in rs && ss[0] in ss;
    Edges(rs);
    Edges(ss);
    var r, s := rs[0], ss[0];
    assert Covered(rs, Ordinal(r.first)) && Covered(ss, Ordinal(s.first));
    OrdinalOrder(r.first, s.first);
    assert !Covered(rs, Ordinal(r.last) + 1) && !Covered(ss, Ordinal(s.last) + 1);
    OrdinalOrder(r.last, s.last);
  }

  lemma Edges(rs: seq<Range>)
    requires rs != [] && Separated(rs)
    ensures forall n :: Ordinal(rs[0].first) <= n <= Ordinal(rs[0].last) ==> Covered(rs, n)
    ensures forall n :: n < Ordinal(rs[0].first) ==> !Covered(rs, n)
    ensures !Covered(rs, Ordinal(rs[0].last) + 1)
  {
    forall n | Ordinal(rs[0].first) <= n <= Ordinal(rs[0].last) ensures Covered(rs, n) {
      assert InRange(rs[0], n);
    }
    assert rs[0] in rs;
  }

  // ----- the crawler's environment -----

  /** `CRAWLER_TARGET_DATE` and `CRAWLER_LOOKBACK_DAYS` */
  datatype Window = Window(target: Date, lookback: nat)

  /** `build_crawler_env`, which raises when the range is reversed. */
  function CrawlerWindow(r: Range): Option<Window> {
    if Ordinal(r.first) > Ordinal(r.last) then None else Some(Window(r.last, Ordinal(r.last) - Ordinal(r.first)))
  }

  /** The days a crawl visits: the target day and the days it looks back on. */
  ghost predicate Crawls(w: Window, n: int) { Ordinal(w.target) - w.lookback <= n <= Ordinal(w.target) }

  ghost predicate Crawled(ws: seq<Window>, n: int) { exists w :: w in ws && Crawls(w, n) }

  ghost predicate Asked(values: seq<string>, parse: string -> Option<Date>, n: int) {
    exists v :: v in values && parse(v).Some? && Ordinal(parse(v).value) == n
  }

  /**
    What `run_update_job` does with the selected dates before it starts the first crawl. The
    windows visit exactly the requested days, and no day twice.
   */
  method PlanCrawls(values: seq<string>, parse: string -> Option<Date>) returns (windows: Option<seq<Window>>)
    requires forall v :: parse(v).Some? ==> Valid(parse(v).value)
    ensures windows.None? <==> exists v :: v in values && parse(v).None?
    ensures windows.Some? ==> forall n :: Crawled(windows.value, n) <==> Asked(values, parse, n)
    ensures windows.Some? ==>
      forall i, j, n :: 0 <= i < j < |windows.value| && Crawls(windows.value[i], n) ==> !Crawls(windows.value[j], n)
  {
    var ds := NormalizedDates(values, parse);
    if ds.None? {
      return None;
    }
    var ranges := GroupConsecutiveDates(ds.value);
    var ws: seq<Window> := [];
    for i := 0 to |ranges|
      invariant |ws| == i
      invariant forall j :: 0 <= j < i ==>
        ws[j] == Window(ranges[j].last, Ordinal(ranges[j].last) - Ordinal(ranges[j].first))
    {
      assert ranges[i] in ranges;
      ws := ws + [CrawlerWindow(ranges[i]).value];
    }
    windows := Some(ws);
    forall n ensures Crawled(ws, n) <==> Asked(values, parse, n) {
      WindowsCover(values, parse, ds.value, ranges, ws, n);
    }
  }

  lemma WindowsCover(
    values: seq<string>, parse: string -> Option<Date>, ds: seq<Date>, ranges: seq<Range>, ws: seq<Window>, n: int)
    requires forall v :: parse(v).Some? ==> Valid(parse(v).value)
    requires NormalizedDates(values, parse) == Some(ds)
    requires forall k :: Covered(ranges, k) <==> Requested(ds, k)
    requires |ws| == |ranges| && forall j :: 0 <= j < |ranges| ==>
      Ordinal(ranges[j].first) <= Ordinal(ranges[j].last)
      && ws[j] == Window(ranges[j].last, Ordinal(ranges[j].last) - Ordinal(ranges[j].first))
    ensures Crawled(ws, n) <==> Asked(values, parse, n)
  {
    if Crawled(ws, n) {
      var w :| w in ws && Crawls(w, n);
      var j :| 0 <= j < |ws| && ws[j] == w;
      assert InRange(ranges[j], n);
      assert Covered(ranges, n);
      var i :| 0 <= i < |ds| && Ordinal(ds[i]) == n;
      assert ds[i] in ds;
    }
    if Asked(values, parse, n) {
      var v :| v in values && parse(v).Some? && Ordinal(parse(v).value) == n;
      assert parse(v).value in ds;
      var i :| 0 <= i < |ds| && ds[i] == parse(v).value;
      assert Covered(ranges, n);
      var j :| 0 <= j < |ranges| && InRange(ranges[j], n);
      assert ws[j] in ws && Crawls(ws[j], n);
    }
  }
}
