/** Calendar dates as Python's `datetime.date` accepts them, the parser's two date
    readers (`DD/MM` with a given year, and `DD/MM/YYYY`), and the ISO rendering
    used by the exporters. */
module Dates {
  import opened Basics
  import opened Text
  import opened Numerals

  datatype Date = Date(year: int, month: int, day: int)

  predicate IsLeapYear(y: int) {
    y % 4 == 0 && (y % 100 != 0 || y % 400 == 0)
  }

  /** The length of month `m` of year `y` in the Gregorian calendar: February has a
      29th day exactly in leap years, and every other month has at least 30 days. */
  function DaysInMonth(y: int, m: int): (n: int)
    requires 1 <= m <= 12
    ensures 28 <= n <= 31
    ensures m == 2 ==> (n == 29 <==> IsLeapYear(y))
    ensures m != 2 ==> n >= 30
  {
    if m == 2 then (if IsLeapYear(y) then 29 else 28)
    else if m == 4 || m == 6 || m == 9 || m == 11 then 30
    else 31
  }

  /** The days of the months before month `m` of year `y`. */
  function DaysBefore(y: int, m: int): (n: nat)
    requires 1 <= m <= 13
    decreases m
  {
    if m == 1 then 0 else DaysBefore(y, m - 1) + DaysInMonth(y, m - 1)
  }

  /** The twelve month lengths add up to the length of the year: 366 days in a
      leap year and 365 otherwise. */
  lemma YearLength(y: int)
    ensures DaysBefore(y, 13) == if IsLeapYear(y) then 366 else 365
  {
    assert DaysBefore(y, 3) == 31 + DaysInMonth(y, 2);
  }

  /** The leap rule is the Gregorian one: centuries are leap years only when they
      divide by 400. */
  lemma GregorianLeapYears()
    ensures IsLeapYear(2024) && !IsLeapYear(2025) && !IsLeapYear(1900) && IsLeapYear(2000)
  {
  }

  /** The arguments `datetime.date(year, month, day)` accepts without `ValueError`:
      years 1 to 9999 and a day that exists in that month of the Gregorian calendar. */
  predicate ValidDate(d: Date) {
    1 <= d.year <= 9999 && 1 <= d.month <= 12 && 1 <= d.day <= DaysInMonth(d.year, d.month)
  }

  /** `datetime.date(year, month, day)`; `None` stands for the `ValueError` it raises. */
  function MakeDate(year: int, month: int, day: int): (r: Option<Date>)
    ensures r.Some? <==> ValidDate(Date(year, month, day))
    ensures r.Some? ==> r.value.year == year && r.value.month == month && r.value.day == day
  {
    var d := Date(year, month, day);
    if ValidDate(d) then Some(d) else None
  }

  /** Python's `int(s)` on a string of ASCII digits; `None` stands for `ValueError`. */
  function IntOf(s: string): (r: Option<nat>)
    ensures r.Some? <==> |s| > 0 && AllDigits(s)
  {
    if |s| > 0 && AllDigits(s) then Some(ValueOf(s)) else None
  }

  /** `\d{2}/\d{2}`, the purchase date the date pattern captures. */
  predicate DayMonthShape(t: string) {
    |t| == 5 && AllDigits(t[..2]) && t[2] == '/' && AllDigits(t[3..])
  }

  /** `\d{2}/\d{2}/\d{4}`, the date the summary patterns capture. */
  predicate FullDateShape(t: string) {
    |t| == 10 && AllDigits(t[..2]) && t[2] == '/' && AllDigits(t[3..5]) && t[5] == '/' && AllDigits(t[6..])
  }

  /** A token of either shape is its own `strip()`, and `split("/")` cuts it into its
      digit fields. */
  lemma DatePieces(t: string)
    ensures DayMonthShape(t) ==> Split(Strip(t), '/') == [t[..2], t[3..]]
    ensures FullDateShape(t) ==> Split(Strip(t), '/') == [t[..2], t[3..5], t[6..]]
  {
    if DayMonthShape(t) {
      var dd, mm := t[..2], t[3..];
      assert t == Join([dd, mm], '/');
      assert forall i :: 0 <= i < |t| ==> IsDigit(t[i]) || t[i] == '/' by {
        forall i | 0 <= i < |t| ensures IsDigit(t[i]) || t[i] == '/' {
          if i < 2 { assert t[i] == dd[i]; } else if i > 2 { assert t[i] == mm[i - 3]; }
        }
      }
      assert t[0] == dd[0] && t[4] == mm[1];
      StripDigitToken(t);
      NoSeparatorInDigits(dd, '/');
      NoSeparatorInDigits(mm, '/');
      SplitJoin([dd, mm], '/');
    }
    if FullDateShape(t) {
      var dd, mm, yyyy := t[..2], t[3..5], t[6..];
      assert [dd, mm, yyyy][1..] == [mm, yyyy];
      assert Join([mm, yyyy], '/') == mm + "/" + yyyy;
      assert t == Join([dd, mm, yyyy], '/');
      assert forall i :: 0 <= i < |t| ==> IsDigit(t[i]) || t[i] == '/' by {
        forall i | 0 <= i < |t| ensures IsDigit(t[i]) || t[i] == '/' {
          if i < 2 { assert t[i] == dd[i]; }
          else if 2 < i < 5 { assert t[i] == mm[i - 3]; }
          else if i > 5 { assert t[i] == yyyy[i - 6]; }
        }
      }
      assert t[0] == dd[0] && t[9] == yyyy[3];
      StripDigitToken(t);
      NoSeparatorInDigits(dd, '/');
      NoSeparatorInDigits(mm, '/');
      NoSeparatorInDigits(yyyy, '/');
      SplitJoin([dd, mm, yyyy], '/');
    }
  }

  /** The parser's `_parse_date`: split the stripped token at `/`, read day and month
      from the first two pieces, and build the date in `year`. `None` stands for the
      `IndexError` or `ValueError` the source raises. On a `DD/MM` token it gives the
      date the token names, exactly when that date exists in `year`. */
  function ParseDate(token: string, year: int): (r: Option<Date>)
    ensures r.Some? ==> ValidDate(r.value) && r.value.year == year
    ensures |Split(Strip(token), '/')| < 2 ==> r.None?
    ensures DayMonthShape(token) ==> var day, month := ValueOf(token[..2]), ValueOf(token[3..]);
      && (r.Some? <==> ValidDate(Date(year, month, day)))
      && (r.Some? ==> r.value == Date(year, month, day))
  {
    DatePieces(token);
    var parts := Split(Strip(token), '/');
    if |parts| < 2 then None
    else
      var day :- IntOf(parts[0]);
      var month :- IntOf(parts[1]);
      MakeDate(year, month, day)
  }

  /** The parser's `_parse_full_date`: pieces are day, month and year. On a
      `DD/MM/YYYY` token it gives the date the token names, exactly when that date
      exists. */
  function ParseFullDate(token: string): (r: Option<Date>)
    ensures r.Some? ==> ValidDate(r.value)
    ensures |Split(Strip(token), '/')| < 3 ==> r.None?
    ensures FullDateShape(token) ==>
      var day, month, year := ValueOf(token[..2]), ValueOf(token[3..5]), ValueOf(token[6..]);
      && (r.Some? <==> ValidDate(Date(year, month, day)))
      && (r.Some? ==> r.value == Date(year, month, day))
  {
    DatePieces(token);
    var parts := Split(Strip(token), '/');
    if |parts| < 3 then None
    else
      var year :- IntOf(parts[2]);
      var month :- IntOf(parts[1]);
      var day :- IntOf(parts[0]);
      MakeDate(year, month, day)
  }

  /** `DD/MM`, the way the statement prints a purchase date. */
  function DayMonthText(d: Date): string
    requires ValidDate(d)
  {
    PadText(d.day, 2) + "/" + PadText(d.month, 2)
  }

  /** `DD/MM/YYYY`, the way the statement prints due, issue and payment dates. */
  function FullDateText(d: Date): string
    requires ValidDate(d)
  {
    PadText(d.day, 2) + "/" + PadText(d.month, 2) + "/" + PadText(d.year, 4)
  }

  /** A printed `DD/MM/YYYY` has the shape the summary patterns capture. */
  lemma FullDateTextShape(d: Date)
    requires ValidDate(d)
    ensures FullDateShape(FullDateText(d))
  {
    var t := FullDateText(d);
    assert t[..2] == PadText(d.day, 2);
    assert t[3..5] == PadText(d.month, 2);
    assert t[6..] == PadText(d.year, 4);
  }

  /** `date.isoformat()`: `YYYY-MM-DD`. */
  function IsoText(d: Date): (r: string)
    requires ValidDate(d)
    ensures |r| == 10 && r[4] == '-' && r[7] == '-'
  {
    PadText(d.year, 4) + "-" + PadText(d.month, 2) + "-" + PadText(d.day, 2)
  }

  /** `date.fromisoformat` on the `YYYY-MM-DD` form. */
  function ParseIso(s: string): (r: Option<Date>)
    ensures r.Some? ==> ValidDate(r.value)
  {
    if |s| != 10 || s[4] != '-' || s[7] != '-' then None
    else
      var year :- IntOf(s[..4]);
      var month :- IntOf(s[5..7]);
      var day :- IntOf(s[8..]);
      MakeDate(year, month, day)
  }

  /** A string made of digits and `/` only, starting and ending with a digit, is
      its own `strip()`. */
  lemma StripDigitToken(s: string)
    requires |s| > 0 && IsDigit(s[0]) && IsDigit(s[|s| - 1])
    requires forall i :: 0 <= i < |s| ==> IsDigit(s[i]) || s[i] == '/'
    ensures Strip(s) == s
  {
    assert s[0..|s|] == s;
    assert PaddedBy(s, s, 0, |s|);
    StripUnique(s, s, 0, |s|);
  }

  /** A digit string contains no separator. */
  lemma NoSeparatorInDigits(s: string, c: char)
    requires AllDigits(s) && !IsDigit(c)
    ensures c !in s
  {
    assert forall i :: 0 <= i < |s| ==> s[i] != c;
  }

  /** A padded field reads back as the number it was written from. */
  lemma PadTextReads(n: nat, width: nat)
    requires width >= 1 && n < Pow10(width)
    ensures IntOf(PadText(n, width)) == Some(n)
  {
    PadTextValue(n, width);
  }

  lemma SmallPowers()
    ensures Pow10(2) == 100 && Pow10(4) == 10000
  {
  }

  /** Reading back a printed `DD/MM` in the date's own year gives the date. */
  lemma {:induction false} ParseDateRoundTrip(d: Date)
    requires ValidDate(d)
    ensures ParseDate(DayMonthText(d), d.year) == Some(d)
  {
    var dd, mm := PadText(d.day, 2), PadText(d.month, 2);
    var s := DayMonthText(d);
    assert s == Join([dd, mm], '/');
    StripDigitToken(s);
    NoSeparatorInDigits(dd, '/');
    NoSeparatorInDigits(mm, '/');
    SplitJoin([dd, mm], '/');
    SmallPowers();
    PadTextReads(d.day, 2);
    PadTextReads(d.month, 2);
    assert Split(Strip(s), '/') == [dd, mm];
  }

  /** Reading back a printed `DD/MM/YYYY` gives the date. */
  lemma {:induction false} ParseFullDateRoundTrip(d: Date)
    requires ValidDate(d)
    ensures ParseFullDate(FullDateText(d)) == Some(d)
  {
    var dd, mm, yyyy := PadText(d.day, 2), PadText(d.month, 2), PadText(d.year, 4);
    var s := FullDateText(d);
    assert [dd, mm, yyyy][1..] == [mm, yyyy];
    assert Join([mm, yyyy], '/') == mm + "/" + yyyy;
    assert s == Join([dd, mm, yyyy], '/');
    StripDigitToken(s);
    NoSeparatorInDigits(dd, '/');
    NoSeparatorInDigits(mm, '/');
    NoSeparatorInDigits(yyyy, '/');
    SplitJoin([dd, mm, yyyy], '/');
    SmallPowers();
    PadTextReads(d.day, 2);
    PadTextReads(d.month, 2);
    PadTextReads(d.year, 4);
    assert Split(Strip(s), '/') == [dd, mm, yyyy];
  }

  /** Reading back an ISO rendering gives the date. */
  lemma IsoRoundTrip(d: Date)
    requires ValidDate(d)
    ensures ParseIso(IsoText(d)) == Some(d)
  {
    var s := IsoText(d);
    assert s[..4] == PadText(d.year, 4);
    assert s[5..7] == PadText(d.month, 2);
    assert s[8..] == PadText(d.day, 2);
    SmallPowers();
    PadTextReads(d.day, 2);
    PadTextReads(d.month, 2);
    PadTextReads(d.year, 4);
  }
}
