/** The proleptic Gregorian calendar of Python's `date`, and ISO date strings. */
module Calendar {
  import opened Seqs
  import opened Text

  datatype Date = Date(year: int, month: int, day: int)

  const MAX_YEAR := 9999

  predicate Leap(y: int) { y % 4 == 0 && (y % 100 != 0 || y % 400 == 0) }

  function DaysInYear(y: int): int { if Leap(y) then 366 else 365 }

  function DaysInMonth(y: int, m: int): (n: int)
    ensures 28 <= n <= 31
  {
    if m == 2 then (if Leap(y) then 29 else 28)
    else if m in {4, 6, 9, 11} then 30
    else 31
  }

  predicate Valid(d: Date) {
    1 <= d.year <= MAX_YEAR && 1 <= d.month <= 12 && 1 <= d.day <= DaysInMonth(d.year, d.month)
  }

  function DaysBeforeYear(y: int): int {
    if y <= 1 then 0 else DaysBeforeYear(y - 1) + DaysInYear(y - 1)
  }

  function DaysBeforeMonth(y: int, m: int): int {
    if m <= 1 then 0 else DaysBeforeMonth(y, m - 1) + DaysInMonth(y, m - 1)
  }

  function Ordinal(d: Date): int { DaysBeforeYear(d.year) + DaysBeforeMonth(d.year, d.month) + d.day }

  /** The day number of 9999-12-31. */
  const MAX_ORDINAL := 3_652_059

  lemma NextMultiple(a: int)
    ensures a / 4 == (a - 1) / 4 + if a % 4 == 0 then 1 else 0
    ensures a / 100 == (a - 1) / 100 + if a % 100 == 0 then 1 else 0
    ensures a / 400 == (a - 1) / 400 + if a % 400 == 0 then 1 else 0
  {
  }

  function LeapYearsTo(a: int): int { a / 4 - a / 100 + a / 400 }

  lemma OneMoreLeapYear(a: int)
    ensures LeapYearsTo(a) == LeapYearsTo(a - 1) + if Leap(a) then 1 else 0
  {
    NextMultiple(a);
    assert a % 100 == 0 ==> a % 4 == 0;
    assert a % 400 == 0 ==> a % 100 == 0;
  }

  lemma {:induction false} LeapDays(y: int)
    requires y >= 1
    ensures DaysBeforeYear(y) == (y - 1) * 365 + LeapYearsTo(y - 1)
  {
    if y > 1 {
      LeapDays(y - 1);
      OneMoreLeapYear(y - 1);
    }
  }

  lemma YearLimit(y: int)
    requires y >= 1
    ensures y <= MAX_YEAR <==> DaysBeforeYear(y) < MAX_ORDINAL
    ensures y <= MAX_YEAR ==> DaysBeforeYear(y + 1) <= MAX_ORDINAL
  {
    LeapDays(y);
    LeapDays(y + 1);
  }

  lemma {:induction false} LaterYear(y: int, z: int)
    requires y <= z
    ensures DaysBeforeYear(z) >= DaysBeforeYear(y)
    decreases z - y
  {
    if y < z {
      LaterYear(y, z - 1);
    }
  }

  lemma {:induction false} LaterMonth(y: int, m: int, n: int)
    requires 1 <= m < n
    ensures DaysBeforeMonth(y, m) + DaysInMonth(y, m) <= DaysBeforeMonth(y, n)
    decreases n
  {
    if m < n - 1 {
      LaterMonth(y, m, n - 1);
    }
  }

  lemma WholeYear(y: int)
    ensures DaysBeforeMonth(y, 13) == DaysInYear(y)
  {
    var feb := DaysInMonth(y, 2);
    assert DaysBeforeMonth(y, 1) == 0;
    assert DaysBeforeMonth(y, 2) == 31;
    assert DaysBeforeMonth(y, 3) == 31 + feb;
    assert DaysBeforeMonth(y, 4) == 62 + feb;
    assert DaysBeforeMonth(y, 5) == 92 + feb;
    assert DaysBeforeMonth(y, 6) == 123 + feb;
    assert DaysBeforeMonth(y, 7) == 153 + feb;
    assert DaysBeforeMonth(y, 8) == 184 + feb;
    assert DaysBeforeMonth(y, 9) == 215 + feb;
    assert DaysBeforeMonth(y, 10) == 245 + feb;
    assert DaysBeforeMonth(y, 11) == 276 + feb;
    assert DaysBeforeMonth(y, 12) == 306 + feb;
  }

  /** A valid date lies inside its own year and month. */
  lemma OrdinalWithin(d: Date)
    requires Valid(d)
    ensures DaysBeforeYear(d.year) < Ordinal(d) <= DaysBeforeYear(d.year + 1)
    ensures 1 <= Ordinal(d) <= MAX_ORDINAL
  {
    WholeYear(d.year);
    LaterMonth(d.year, d.month, 13);
    FirstMonths(d.year, d.month);
    LaterYear(1, d.year);
    YearLimit(d.year);
  }

  lemma {:induction false} FirstMonths(y: int, m: int)
    ensures DaysBeforeMonth(y, m) >= 0
    decreases m
  {
    if m > 1 {
      FirstMonths(y, m - 1);
    }
  }

  predicate Before(a: Date, b: Date) {
    a.year < b.year || (a.year == b.year && (a.month < b.month || (a.month == b.month && a.day < b.day)))
  }

  lemma BeforeIsSmaller(a: Date, b: Date)
    requires Valid(a) && Valid(b) && Before(a, b)
    ensures Ordinal(a) < Ordinal(b)
  {
    OrdinalWithin(a);
    OrdinalWithin(b);
    if a.year < b.year {
      LaterYear(a.year + 1, b.year);
    } else if a.month < b.month {
      LaterMonth(a.year, a.month, b.month);
    }
  }

  /** Day numbers order dates, and no two dates share one. */
  lemma OrdinalOrder(a: Date, b: Date)
    requires Valid(a) && Valid(b)
    ensures Before(a, b) <==> Ordinal(a) < Ordinal(b)
    ensures a == b <==> Ordinal(a) == Ordinal(b)
  {
    if Before(a, b) {
      BeforeIsSmaller(a, b);
    } else if Before(b, a) {
      BeforeIsSmaller(b, a);
    }
  }

  // ----- from day numbers back to dates -----

  function YearOf(n: int, y: int): (r: int)
    requires 1 <= y <= MAX_YEAR && DaysBeforeYear(y) < n <= MAX_ORDINAL
    ensures y <= r <= MAX_YEAR && DaysBeforeYear(r) < n <= DaysBeforeYear(r + 1)
    decreases n - DaysBeforeYear(y)
  {
    YearLimit(y + 1);
    if n <= DaysBeforeYear(y + 1) then y else YearOf(n, y + 1)
  }

  function MonthOf(y: int, n: int, m: int): (r: int)
    requires 1 <= m <= 12 && DaysBeforeMonth(y, m) < n <= DaysBeforeMonth(y, 13)
    ensures m <= r <= 12 && DaysBeforeMonth(y, r) < n <= DaysBeforeMonth(y, r) + DaysInMonth(y, r)
    decreases n - DaysBeforeMonth(y, m)
  {
    if n <= DaysBeforeMonth(y, m) + DaysInMonth(y, m) then m
    else MonthOf(y, n, m + 1)
  }

  /** `date.fromordinal(n)`, which raises outside the calendar. */
  function FromOrdinal(n: int): (r: Option<Date>)
    ensures r.Some? <==> 1 <= n <= MAX_ORDINAL
    ensures r.Some? ==> Valid(r.value) && Ordinal(r.value) == n
  {
    if 1 <= n <= MAX_ORDINAL then
      var y := YearOf(n, 1);
      WholeYear(y);
      var m := MonthOf(y, n - DaysBeforeYear(y), 1);
      Some(Date(y, m, n - DaysBeforeYear(y) - DaysBeforeMonth(y, m)))
    else None
  }

  /** Dates and the day numbers of the calendar correspond one to one. */
  lemma OrdinalRoundTrip(d: Date)
    requires Valid(d)
    ensures FromOrdinal(Ordinal(d)) == Some(d)
  {
    OrdinalWithin(d);
    OrdinalOrder(FromOrdinal(Ordinal(d)).value, d);
  }

  // ----- ISO strings -----

  function Digit(n: int): char
    requires 0 <= n <= 9
  {
    ('0' as int + n) as char
  }

  function TwoDigits(n: int): string
    requires 0 <= n <= 99
  {
    [Digit(n / 10), Digit(n % 10)]
  }

  function FourDigits(n: int): string
    requires 0 <= n <= 9999
  {
    [Digit(n / 1000), Digit(n / 100 % 10), Digit(n / 10 % 10), Digit(n % 10)]
  }

  /** `d.isoformat()` */
  function Iso(d: Date): string
    requires Valid(d)
  {
    FourDigits(d.year) + "-" + TwoDigits(d.month) + "-" + TwoDigits(d.day)
  }

  lemma {:induction false} StringLessAppend(a: string, b: string, c: string, d: string)
    requires |a| == |b|
    ensures StringLess(a + c, b + d) <==> StringLess(a, b) || (a == b && StringLess(c, d))
  {
    if a == [] {
      assert a + c == c && b + d == d;
    } else {
      assert (a + c)[1..] == a[1..] + c && (b + d)[1..] == b[1..] + d;
      StringLessAppend(a[1..], b[1..], c, d);
      assert a == [a[0]] + a[1..] && b == [b[0]] + b[1..];
    }
  }

  lemma OneDigitOrder(m: int, n: int)
    requires 0 <= m <= 9 && 0 <= n <= 9
    ensures StringLess([Digit(m)], [Digit(n)]) <==> m < n
    ensures Digit(m) == Digit(n) <==> m == n
  {
  }

  lemma TwoDigitOrder(m: int, n: int)
    requires 0 <= m <= 99 && 0 <= n <= 99
    ensures StringLess(TwoDigits(m), TwoDigits(n)) <==> m < n
    ensures TwoDigits(m) == TwoDigits(n) <==> m == n
  {
    OneDigitOrder(m / 10, n / 10);
    OneDigitOrder(m % 10, n % 10);
    assert TwoDigits(m) == [Digit(m / 10)] + [Digit(m % 10)];
    assert TwoDigits(n) == [Digit(n / 10)] + [Digit(n % 10)];
    StringLessAppend([Digit(m / 10)], [Digit(n / 10)], [Digit(m % 10)], [Digit(n % 10)]);
  }

  lemma FourDigitOrder(m: int, n: int)
    requires 0 <= m <= 9999 && 0 <= n <= 9999
    ensures StringLess(FourDigits(m), FourDigits(n)) <==> m < n
    ensures FourDigits(m) == FourDigits(n) <==> m == n
  {
    SplitFour(m);
    SplitFour(n);
    assert m < n <==> m / 100 < n / 100 || (m / 100 == n / 100 && m % 100 < n % 100);
    TwoDigitOrder(m / 100, n / 100);
    TwoDigitOrder(m % 100, n % 100);
    StringLessAppend(TwoDigits(m / 100), TwoDigits(n / 100), TwoDigits(m % 100), TwoDigits(n % 100));
    assert FourDigits(m) == FourDigits(n) ==>
      FourDigits(m)[..2] == FourDigits(n)[..2] && FourDigits(m)[2..] == FourDigits(n)[2..];
  }

  lemma SplitFour(n: int)
    requires 0 <= n <= 9999
    ensures FourDigits(n) == TwoDigits(n / 100) + TwoDigits(n % 100)
    ensures FourDigits(n)[..2] == TwoDigits(n / 100) && FourDigits(n)[2..] == TwoDigits(n % 100)
  {
    assert n == n / 100 * 100 + n % 100;
    assert n / 1000 == n / 100 / 10;
    assert n / 10 == n / 100 * 10 + n % 100 / 10;
  }

  lemma IsoParts(d: Date)
    requires Valid(d)
    ensures |Iso(d)| == 10
    ensures Iso(d)[..4] == FourDigits(d.year) && Iso(d)[5..7] == TwoDigits(d.month) && Iso(d)[8..] == TwoDigits(d.day)
    ensures Iso(d) == (FourDigits(d.year) + "-") + ((TwoDigits(d.month) + "-") + TwoDigits(d.day))
  {
  }

  lemma FieldOrder(a: string, b: string, c: string, d: string)
    requires |a| == |b|
    ensures StringLess(a + "-" + c, b + "-" + d) <==> StringLess(a, b) || (a == b && StringLess(c, d))
  {
    assert a + "-" + c == a + ("-" + c) && b + "-" + d == b + ("-" + d);
    StringLessAppend(a, b, "-" + c, "-" + d);
    StringLessAppend("-", "-", c, d);
  }

  /** Comparing ISO strings is comparing dates, and different dates have different strings. */
  lemma IsoOrder(a: Date, b: Date)
    requires Valid(a) && Valid(b)
    ensures StringLess(Iso(a), Iso(b)) <==> Before(a, b)
    ensures Iso(a) == Iso(b) <==> a == b
  {
    FourDigitOrder(a.year, b.year);
    TwoDigitOrder(a.month, b.month);
    TwoDigitOrder(a.day, b.day);
    IsoParts(a);
    IsoParts(b);
    var ra, rb := TwoDigits(a.month) + "-" + TwoDigits(a.day), TwoDigits(b.month) + "-" + TwoDigits(b.day);
    FieldOrder(TwoDigits(a.month), TwoDigits(b.month), TwoDigits(a.day), TwoDigits(b.day));
    FieldOrder(FourDigits(a.year), FourDigits(b.year), ra, rb);
  }

  // ----- the ranges behind the date expressions -----

  /** An inclusive range of dates; its ISO strings are what the search filter carries. */
  datatype Range = Range(first: Date, last: Date)

  function DigitAt(s: string, i: nat): int
    requires i < |s|
  {
    s[i] as int - '0' as int
  }

  predicate AllDigits(s: string) { forall i :: 0 <= i < |s| ==> '0' <= s[i] <= '9' }

  lemma TwoWords(n: int)
    requires 0 <= n <= 99
    ensures var s := TwoDigits(n); |s| == 2 && AllDigits(s) && n == 10 * DigitAt(s, 0) + DigitAt(s, 1)
  {
  }

  lemma FourPlaces(n: int)
    requires 0 <= n <= 9999
    ensures n == 1000 * (n / 1000) + 100 * (n / 100 % 10) + 10 * (n / 10 % 10) + n % 10
  {
    assert n / 1000 == n / 100 / 10 && n / 100 == n / 10 / 10;
  }

  lemma DigitIs(n: int)
    requires 0 <= n <= 9
    ensures '0' <= Digit(n) <= '9' && Digit(n) as int - '0' as int == n
  {
  }

  lemma FourDigitsAre(n: int)
    requires 0 <= n <= 9999
    ensures var s := FourDigits(n);
      && |s| == 4 && AllDigits(s)
      && DigitAt(s, 0) == n / 1000 && DigitAt(s, 1) == n / 100 % 10 && DigitAt(s, 2) == n / 10 % 10
      && DigitAt(s, 3) == n % 10
  {
    DigitIs(n / 1000);
    DigitIs(n / 100 % 10);
    DigitIs(n / 10 % 10);
    DigitIs(n % 10);
  }

  lemma FourWords(n: int)
    requires 0 <= n <= 9999
    ensures var s := FourDigits(n);
      && |s| == 4 && AllDigits(s)
      && n == 1000 * DigitAt(s, 0) + 100 * DigitAt(s, 1) + 10 * DigitAt(s, 2) + DigitAt(s, 3)
  {
    FourPlaces(n);
    FourDigitsAre(n);
  }

  /** Four digits of the year, two of the month and two of the day, with dashes between. */
  lemma IsoWords(d: Date) returns (year: string, month: string, day: string)
    requires Valid(d)
    ensures Iso(d) == year + "-" + month + "-" + day
    ensures |year| == 4 && AllDigits(year) && |month| == 2 && AllDigits(month) && |day| == 2 && AllDigits(day)
    ensures d.year == 1000 * DigitAt(year, 0) + 100 * DigitAt(year, 1) + 10 * DigitAt(year, 2) + DigitAt(year, 3)
    ensures d.month == 10 * DigitAt(month, 0) + DigitAt(month, 1) && d.day == 10 * DigitAt(day, 0) + DigitAt(day, 1)
  {
    year, month, day := FourDigits(d.year), TwoDigits(d.month), TwoDigits(d.day);
    FourWords(d.year);
    TwoWords(d.month);
    TwoWords(d.day);
  }

  predicate ValidRange(r: Range) { Valid(r.first) && Valid(r.last) }

  function NextMonth(year: int, month: int): Date {
    if month == 12 then Date(year + 1, 1, 1) else Date(year, month + 1, 1)
  }

  /** `_bounds_for_month`; None where the original raises. */
  function MonthRange(year: int, month: int): Option<Range>
    requires 1 <= month <= 12
  {
    var next := NextMonth(year, month);
    if !Valid(next) then None
    else
      var last := FromOrdinal(Ordinal(next) - 1);
      if last.None? then None else Some(Range(Date(year, month, 1), last.value))
  }

  /** `_bounds_for_year` for a year of the calendar. */
  function YearRange(year: int): Range { Range(Date(year, 1, 1), Date(year, 12, 31)) }

  function QuarterRange(year: int, quarter: int): Option<Range>
    requires 1 <= quarter <= 4
  {
    var start := (quarter - 1) * 3 + 1;
    var last := MonthRange(year, start + 2);
    if last.None? then None else Some(Range(Date(year, start, 1), last.value.last))
  }

  function Weekday(d: Date): int { (Ordinal(d) + 6) % 7 }

  /** `_bounds_for_week_offset`: Monday to Sunday of the week `k` weeks away. */
  function WeekRange(today: Date, k: int): Option<Range> {
    var monday := Ordinal(today) - Weekday(today) + 7 * k;
    var first, last := FromOrdinal(monday), FromOrdinal(monday + 6);
    if first.None? || last.None? then None else Some(Range(first.value, last.value))
  }

  /** `_bounds_for_current_week`: Monday to today. */
  function CurrentWeekRange(today: Date): Option<Range> {
    var monday := FromOrdinal(Ordinal(today) - Weekday(today));
    if monday.None? then None else Some(Range(monday.value, today))
  }

  function MonthIndex(d: Date): int { d.year * 12 + d.month - 1 }

  /** `_bounds_for_month_offset`; the divisor is positive, so Python's `//` and `%` agree with Dafny's. */
  function MonthOffsetRange(today: Date, k: int): Option<Range> {
    var index := MonthIndex(today) + k;
    var range := MonthRange(index / 12, index % 12 + 1);
    if range.None? || k != 0 then range else Some(Range(range.value.first, today))
  }

  /** The dates of a range, by the calendar. */
  predicate Between(r: Range, d: Date) { !Before(d, r.first) && !Before(r.last, d) }

  /** The first day of the next month comes right after the days of this one. */
  lemma MonthLength(year: int, month: int)
    requires year >= 1 && 1 <= month <= 12
    ensures Ordinal(NextMonth(year, month)) == Ordinal(Date(year, month, 1)) + DaysInMonth(year, month)
  {
    WholeYear(year);
  }

  lemma MonthExists(year: int, month: int)
    requires 1 <= year <= MAX_YEAR && 1 <= month <= 12 && (year, month) != (MAX_YEAR, 12)
    ensures MonthRange(year, month) == Some(Range(Date(year, month, 1), Date(year, month, DaysInMonth(year, month))))
  {
    var last := Date(year, month, DaysInMonth(year, month));
    assert Valid(last) && Valid(NextMonth(year, month));
    MonthLength(year, month);
    assert Ordinal(last) == Ordinal(NextMonth(year, month)) - 1;
    OrdinalRoundTrip(last);
  }

  lemma NoSuchMonth(year: int, month: int)
    requires 1 <= month <= 12 && (year < 1 || year > MAX_YEAR || (year, month) == (MAX_YEAR, 12))
    ensures MonthRange(year, month) == None
  {
    if year == 0 && month == 12 {
      assert Ordinal(NextMonth(year, month)) == 1;
    } else {
      assert !Valid(NextMonth(year, month));
    }
  }

  /** `_bounds_for_month` fails only outside the calendar and for its very last month. */
  lemma MonthRangeIs(year: int, month: int)
    requires 1 <= month <= 12
    ensures MonthRange(year, month)
      == if 1 <= year <= MAX_YEAR && (year, month) != (MAX_YEAR, 12)
         then Some(Range(Date(year, month, 1), Date(year, month, DaysInMonth(year, month)))) else None
  {
    if 1 <= year <= MAX_YEAR && (year, month) != (MAX_YEAR, 12) {
      MonthExists(year, month);
    } else {
      NoSuchMonth(year, month);
    }
  }

  lemma MonthRangeIsTheMonth(year: int, month: int, d: Date)
    requires 1 <= month <= 12 && MonthRange(year, month).Some? && Valid(d)
    ensures ValidRange(MonthRange(year, month).value)
    ensures Between(MonthRange(year, month).value, d) <==> d.year == year && d.month == month
  {
    MonthRangeIs(year, month);
  }

  lemma YearRangeIsTheYear(year: int, d: Date)
    requires 1 <= year <= MAX_YEAR && Valid(d)
    ensures ValidRange(YearRange(year))
    ensures Between(YearRange(year), d) <==> d.year == year
  {
  }

  lemma QuarterRangeIsTheQuarter(year: int, quarter: int, d: Date)
    requires 1 <= quarter <= 4 && QuarterRange(year, quarter).Some? && Valid(d)
    ensures ValidRange(QuarterRange(year, quarter).value)
    ensures Between(QuarterRange(year, quarter).value, d) <==> d.year == year && (d.month - 1) / 3 + 1 == quarter
  {
    QuarterEnds(year, quarter);
    MonthRangeIs(year, quarter * 3);
  }

  lemma MonthOfIndex(d: Date)
    requires 1 <= d.month <= 12
    ensures MonthIndex(d) / 12 == d.year && MonthIndex(d) % 12 + 1 == d.month
  {
  }

  /** An offset of zero stops at today; every other offset is a whole month. */
  lemma MonthOffsetRangeIsTheMonth(today: Date, k: int, d: Date)
    requires Valid(today) && Valid(d) && MonthOffsetRange(today, k).Some?
    ensures ValidRange(MonthOffsetRange(today, k).value)
    ensures Between(MonthOffsetRange(today, k).value, d)
      <==> MonthIndex(d) == MonthIndex(today) + k && (k == 0 ==> !Before(today, d))
  {
    if k == 0 {
      CurrentMonthRangeIs(today);
      ThisMonthSoFar(today, d);
    } else {
      OtherMonth(today, k, d);
    }
  }

  lemma OtherMonthRangeIs(today: Date, k: int)
    requires k != 0
    ensures MonthOffsetRange(today, k)
      == MonthRange((MonthIndex(today) + k) / 12, (MonthIndex(today) + k) % 12 + 1)
  {
  }

  lemma MonthRangeIsSome(year: int, month: int, d: Date, range: Option<Range>)
    requires 1 <= month <= 12 && range == MonthRange(year, month) && range.Some? && Valid(d)
    ensures ValidRange(range.value) && (Between(range.value, d) <==> d.year == year && d.month == month)
  {
    MonthRangeIsTheMonth(year, month, d);
  }

  lemma OtherMonth(today: Date, k: int, d: Date)
    requires k != 0 && Valid(d) && MonthOffsetRange(today, k).Some?
    ensures ValidRange(MonthOffsetRange(today, k).value)
    ensures Between(MonthOffsetRange(today, k).value, d) <==> MonthIndex(d) == MonthIndex(today) + k
  {
    OtherMonthRangeIs(today, k);
    SameMonth(d, MonthIndex(today) + k);
    MonthRangeIsSome((MonthIndex(today) + k) / 12, (MonthIndex(today) + k) % 12 + 1, d, MonthOffsetRange(today, k));
  }

  lemma CurrentMonthRangeIs(today: Date)
    requires Valid(today) && MonthOffsetRange(today, 0).Some?
    ensures MonthOffsetRange(today, 0).value == Range(Date(today.year, today.month, 1), today)
  {
    MonthOfIndex(today);
    MonthRangeFirst(today.year, today.month);
  }

  lemma SameMonth(d: Date, index: int)
    requires 1 <= d.month <= 12
    ensures MonthIndex(d) == index <==> d.year == index / 12 && d.month == index % 12 + 1
  {
  }

  lemma ThisMonthSoFar(today: Date, d: Date)
    requires Valid(today) && Valid(d)
    ensures ValidRange(Range(Date(today.year, today.month, 1), today))
    ensures Between(Range(Date(today.year, today.month, 1), today), d)
      <==> MonthIndex(d) == MonthIndex(today) && !Before(today, d)
  {
  }

  function WeekIndex(d: Date): int { (Ordinal(d) + 6) / 7 }

  lemma WeekRangeIsTheWeek(today: Date, k: int, d: Date)
    requires Valid(today) && Valid(d) && WeekRange(today, k).Some?
    ensures ValidRange(WeekRange(today, k).value)
    ensures Between(WeekRange(today, k).value, d) <==> WeekIndex(d) == WeekIndex(today) + k
  {
    var range := WeekRange(today, k).value;
    OrdinalOrder(d, range.first);
    OrdinalOrder(range.last, d);
  }

  lemma CurrentWeekRangeIsMondayToToday(today: Date, d: Date)
    requires Valid(today) && Valid(d)
    ensures CurrentWeekRange(today).Some? && ValidRange(CurrentWeekRange(today).value)
    ensures Between(CurrentWeekRange(today).value, d) <==> WeekIndex(d) == WeekIndex(today) && !Before(today, d)
  {
    OrdinalWithin(today);
    var monday := FromOrdinal(Ordinal(today) - Weekday(today)).value;
    OrdinalOrder(d, monday);
    OrdinalOrder(today, d);
  }

  // ----- neighbouring ranges -----

  /** One range ends the day before the other begins. */
  predicate Abut(r: Range, s: Range) { Ordinal(r.last) + 1 == Ordinal(s.first) }

  /** A month's range ends right before the first day of the next month. */
  lemma AdjacentMonths(year: int, month: int)
    requires 1 <= month <= 12 && MonthRange(year, month).Some?
    ensures MonthRange(year, month).value.first == Date(year, month, 1)
    ensures Ordinal(MonthRange(year, month).value.last) + 1 == Ordinal(NextMonth(year, month))
  {
    MonthRangeIs(year, month);
    MonthLength(year, month);
  }

  /** Months leave no gap and share no day, but for the current one, which abuts on the next exactly on its last day. */
  lemma MonthsAbut(today: Date, k: int)
    requires Valid(today) && MonthOffsetRange(today, k).Some? && MonthOffsetRange(today, k + 1).Some?
    ensures Abut(MonthOffsetRange(today, k).value, MonthOffsetRange(today, k + 1).value)
      <==> k != 0 || today.day == DaysInMonth(today.year, today.month)
  {
    if k == 0 {
      CurrentMonthRangeIs(today);
      OffsetFirst(today, 1, today.year, today.month);
      MonthLength(today.year, today.month);
    } else {
      OtherMonthsAbut(today, k);
    }
  }

  lemma OffsetExists(today: Date, k: int, year: int, month: int)
    requires 1 <= month <= 12 && year * 12 + month - 1 == MonthIndex(today) + k && MonthRange(year, month).Some?
    ensures MonthOffsetRange(today, k).Some?
  {
    MonthOfIndex(Date(year, month, 1));
  }

  /** On the first of May the current month ends long before June begins. */
  lemma CurrentMonthLeavesAGap(today: Date)
    requires Valid(today) && today.month == 5 && today.day == 1
    ensures MonthOffsetRange(today, 0).Some? && MonthOffsetRange(today, 1).Some?
    ensures !Abut(MonthOffsetRange(today, 0).value, MonthOffsetRange(today, 1).value)
  {
    MonthRangeIs(today.year, today.month);
    MonthRangeIs(today.year, today.month + 1);
    OffsetExists(today, 0, today.year, today.month);
    OffsetExists(today, 1, today.year, today.month + 1);
    MonthsAbut(today, 0);
  }

  lemma OtherMonthsAbut(today: Date, k: int)
    requires Valid(today) && k != 0 && MonthOffsetRange(today, k).Some? && MonthOffsetRange(today, k + 1).Some?
    ensures Abut(MonthOffsetRange(today, k).value, MonthOffsetRange(today, k + 1).value)
  {
    var index := MonthIndex(today) + k;
    var year, month := index / 12, index % 12 + 1;
    assert MonthOffsetRange(today, k) == MonthRange(year, month);
    OffsetFirst(today, k + 1, year, month);
    AdjacentMonths(year, month);
  }

  /** The month after `(year, month)` is where the next offset begins. */
  lemma OffsetFirst(today: Date, k: int, year: int, month: int)
    requires MonthOffsetRange(today, k).Some?
    requires year * 12 + month == MonthIndex(today) + k && 1 <= month <= 12
    ensures MonthOffsetRange(today, k).value.first == NextMonth(year, month)
  {
    NextIndex(MonthIndex(today) + k, year, month);
    OffsetFirstByIndex(today, k, (MonthIndex(today) + k) / 12, (MonthIndex(today) + k) % 12 + 1);
  }

  lemma OffsetFirstByIndex(today: Date, k: int, year: int, month: int)
    requires MonthOffsetRange(today, k).Some?
    requires year == (MonthIndex(today) + k) / 12 && month == (MonthIndex(today) + k) % 12 + 1
    ensures MonthOffsetRange(today, k).value.first == Date(year, month, 1)
  {
  }

  lemma NextIndex(index: int, year: int, month: int)
    requires year * 12 + month == index && 1 <= month <= 12
    ensures Date(index / 12, index % 12 + 1, 1) == NextMonth(year, month)
  {
    MonthOfIndex(NextMonth(year, month));
  }

  lemma MonthRangeFirst(year: int, month: int)
    requires 1 <= month <= 12 && MonthRange(year, month).Some?
    ensures MonthRange(year, month).value.first == Date(year, month, 1)
  {
  }

  /** The quarter that follows. */
  function NextQuarter(year: int, quarter: int): (int, int) {
    if quarter == 4 then (year + 1, 1) else (year, quarter + 1)
  }

  lemma QuarterEnds(year: int, quarter: int)
    requires 1 <= quarter <= 4 && QuarterRange(year, quarter).Some?
    ensures MonthRange(year, quarter * 3).Some?
    ensures QuarterRange(year, quarter).value
      == Range(Date(year, quarter * 3 - 2, 1), MonthRange(year, quarter * 3).value.last)
  {
    assert (quarter - 1) * 3 + 3 == quarter * 3;
  }

  lemma QuartersAbut(year: int, quarter: int)
    requires 1 <= quarter <= 4
    requires QuarterRange(year, quarter).Some?
    requires QuarterRange(NextQuarter(year, quarter).0, NextQuarter(year, quarter).1).Some?
    ensures Abut(QuarterRange(year, quarter).value,
      QuarterRange(NextQuarter(year, quarter).0, NextQuarter(year, quarter).1).value)
  {
    QuarterEnds(year, quarter);
    QuarterEnds(NextQuarter(year, quarter).0, NextQuarter(year, quarter).1);
    AdjacentMonths(year, quarter * 3);
  }

  lemma YearsAbut(year: int)
    requires 1 <= year < MAX_YEAR
    ensures Abut(YearRange(year), YearRange(year + 1))
  {
    MonthLength(year, 12);
  }

  lemma WeeksAbut(today: Date, k: int)
    requires WeekRange(today, k).Some? && WeekRange(today, k + 1).Some?
    ensures Abut(WeekRange(today, k).value, WeekRange(today, k + 1).value)
  {
  }

  // ----- what the ranges mean to the matcher -----

  /** The two string comparisons the matcher makes. */
  predicate Within(date: string, start: string, end: string) {
    !StringLess(date, start) && !StringLess(end, date)
  }

  /** The ISO strings of a range accept exactly the dates of the range. */
  lemma StringsMeanTheRange(r: Range, d: Date)
    requires ValidRange(r) && Valid(d)
    ensures Within(Iso(d), Iso(r.first), Iso(r.last)) <==> Between(r, d)
  {
    IsoOrder(d, r.first);
    IsoOrder(r.last, d);
  }
}
