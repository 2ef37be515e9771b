/** The details line of a purchase abroad (`CITY 12,34 USD 56,78`), printed the way
    the statement prints it, and read back by the details search and by the third
    pass. */
module DetailsRoundTrip {
  import opened Basics
  import opened Text
  import opened Numerals
  import opened Money
  import opened Patterns
  import opened ItauPatterns
  import opened MainPass
  import opened IntlPass
  import AmountShape
  import LineShapes
  import IntlRoundTrip

  /** An unsigned amount in the `\d+,\d{2}` form of the details line: no grouping. */
  function RateText(cents: nat): string {
    NatText(cents / 100) + "," + PadText(cents % 100, 2)
  }

  /** A city the lazy group gives back whole: a capital, then capitals, `-` and
      spaces, and no space at the end. */
  predicate CityName(city: string) {
    && |city| >= 2 && 'A' <= city[0] <= 'Z' && city[|city| - 1] != ' '
    && forall i :: 0 < i < |city| ==> 'A' <= city[i] <= 'Z' || city[i] == '-' || city[i] == ' '
  }

  /** The details line: the city, the amount in the original currency, the currency
      code and the amount in reais, each amount an `\d+,\d{2}` token. */
  function DetailsText(city: string, orig: string, currency: string, brl: string): string {
    city + " " + orig + " " + currency + " " + brl
  }

  /** The amount reader gives back the cents of an ungrouped amount. */
  lemma RateTextReads(cents: nat)
    ensures ParseBrlAmount(RateText(cents)) == cents
  {
    var whole, frac := NatText(cents / 100), PadText(cents % 100, 2);
    CleanDecimals(whole, frac);
    CleanDigits(whole);
    NatTextValue(cents / 100);
    BodyReads(whole, cents);
    var t := whole + "." + frac;
    assert Clean(RateText(cents)) == t;
    assert DecimalCents(t) == Some(cents as int) by {
      assert t[0] == whole[0];
    }
  }

  /** The shape `\d+,\d{2}`: digits, a comma and two digits. */
  predicate RateShape(x: string) {
    && |x| >= 4 && x[|x| - 3] == ',' && IsDigit(x[|x| - 2]) && IsDigit(x[|x| - 1])
    && forall i :: 0 <= i < |x| - 3 ==> IsDigit(x[i])
  }

  lemma RateTextShape(cents: nat)
    ensures RateShape(RateText(cents))
  {
    var x, whole, frac := RateText(cents), NatText(cents / 100), PadText(cents % 100, 2);
    assert forall i :: 0 <= i < |x| - 3 ==> x[i] == whole[i];
    assert x[|x| - 2] == frac[0] && x[|x| - 1] == frac[1];
  }

  /** `\d+,\d{2}` scans exactly an amount token written at `p`. */
  lemma RateAt(s: string, p: nat, x: string)
    requires RateShape(x) && p + |x| <= |s| && s[p..p + |x|] == x
    ensures RateEnd(s, p) == Some(p + |x|) && IsDigit(s[p])
  {
    var w := |x| - 3;
    assert forall i :: p <= i < p + w ==> s[i] == x[i - p];
    assert s[p + w] == x[w] == ',';
    AmountShape.DigitRunExact(s, p, w, |s| - p);
    assert s[p + w + 1] == x[w + 1] && s[p + w + 2] == x[w + 2];
    assert s[p] == x[0];
  }

  /** A one-character gap: `\s+` consumes the space at `p` and stops at `p + 1`. */
  lemma OneSpace(s: string, p: nat)
    requires p + 1 < |s| && s[p] == ' ' && !IsSpace(s[p + 1])
    ensures SkipEnd(s, p, Spaces(true)) == Some(p + 1)
  {
    assert SpaceRun(s, p) == 1;
  }

  /** `s` holds, from position `n` on, a space, the amount token `x`, a space, a
      currency code, a space and the amount token `y`, and nothing after it. */
  predicate LaidOut(s: string, n: nat, x: string, currency: string, y: string) {
    var a := |x|;
    && |s| == n + a + 6 + |y| && |currency| == 3
    && s[n] == ' ' && s[n + 1..n + 1 + a] == x
    && s[n + 1 + a] == ' ' && s[n + 2 + a..n + 5 + a] == currency
    && s[n + 5 + a] == ' ' && s[n + 6 + a..] == y
  }

  /** A laid-out rest whose amount tokens and currency code are admissible, `a` being
      the length of the first amount token. Requires clauses compare it with `true`, so
      that a caller discharges it as one fact rather than conjunct by conjunct. */
  function Laid(s: string, n: nat, x: string, a: nat, currency: string, y: string): bool {
    a == |x| && currency in Currencies && RateShape(x) && RateShape(y) && LaidOut(s, n, x, currency, y)
  }

  /** A printed details line: the admissible city `city` of length `n`, then a laid-out
      rest. Compared with `true` for the same reason as `Laid`. */
  function Printed(s: string, city: string, n: nat, x: string, a: nat, currency: string, y: string): bool {
    Laid(s, n, x, a, currency, y) && n == |city| && CityName(city) && s[..n] == city
  }

  /** The amount tokens of a laid-out line scan where they were written. */
  lemma LaidOutAmounts(s: string, n: nat, x: string, currency: string, y: string)
    requires RateShape(x) && RateShape(y) && LaidOut(s, n, x, currency, y)
    ensures RateEnd(s, n + 1) == Some(n + 1 + |x|) && IsDigit(s[n + 1])
    ensures RateEnd(s, n + 6 + |x|) == Some(|s|) && IsDigit(s[n + 6 + |x|])
  {
    RateAt(s, n + 1, x);
    assert s[n + 6 + |x|..n + 6 + |x| + |y|] == y;
    RateAt(s, n + 6 + |x|, y);
  }

  /** The currency code of a laid-out line scans where it was written. */
  lemma LaidOutCurrency(s: string, n: nat, x: string, currency: string, y: string)
    requires currency in Currencies && LaidOut(s, n, x, currency, y)
    ensures CurrencyEnd(s, n + 2 + |x|) == Some(n + 5 + |x|) && 'A' <= s[n + 2 + |x|] <= 'Z'
  {
    assert s[n + 2 + |x|] == currency[0];
    assert LiteralAt(s, n + 2 + |x|, currency);
  }

  /** The tokens of a laid-out line scan where they were written, and `\s+` takes
      exactly the one space before each of them. */
  lemma LaidOutScans(s: string, n: nat, x: string, a: nat, currency: string, y: string)
    requires Laid(s, n, x, a, currency, y) == true
    ensures RateEnd(s, n + 1) == Some(n + 1 + a) && CurrencyEnd(s, n + 2 + a) == Some(n + 5 + a)
    ensures RateEnd(s, n + 6 + a) == Some(|s|)
    ensures SkipEnd(s, n, Spaces(true)) == Some(n + 1)
    ensures SkipEnd(s, n + 1 + a, Spaces(true)) == Some(n + 2 + a)
    ensures SkipEnd(s, n + 5 + a, Spaces(true)) == Some(n + 6 + a)
  {
    LaidOutAmounts(s, n, x, currency, y);
    LaidOutCurrency(s, n, x, currency, y);
    assert s[n] == ' ' && s[n + 1 + a] == ' ' && s[n + 5 + a] == ' ';
    OneSpace(s, n);
    OneSpace(s, n + 1 + a);
    OneSpace(s, n + 5 + a);
  }

  /** The last four pieces, `\s+(USD|BRL|EUR)\s+(\d+,\d{2})`, match from `e` to the
      end of the line when one space, a currency, one space and an amount follow `e`. */
  lemma TailMatches(s: string, e: nat)
    requires e + 5 <= |s|
    requires SkipEnd(s, e, Spaces(true)) == Some(e + 1) && CurrencyEnd(s, e + 1) == Some(e + 4)
    requires SkipEnd(s, e + 4, Spaces(true)) == Some(e + 5) && RateEnd(s, e + 5) == Some(|s|)
    ensures MatchPieces(s, e, DetailsRest[2..]) == Some(Match(e, |s|, [Span(e + 1, e + 4), Span(e + 5, |s|)]))
  {
    var ps := [Spaces(true), Group(Currency), Spaces(true), Group(Rate)];
    assert DetailsRest[2..] == ps;
    var m4 := Match(|s|, |s|, []);
    var q3: seq<Piece> := [Group(Rate)];
    assert MatchPieces(s, |s|, q3[1..]) == Some(m4);
    assert ScanToken(s, e + 5, Rate) == Some(|s|);
    LineShapes.GroupStep(s, e + 5, q3, |s|, m4);
    var m3 := Match(e + 5, |s|, [Span(e + 5, |s|)] + m4.spans);
    var q2: seq<Piece> := [Spaces(true), Group(Rate)];
    assert q2[1..] == q3;
    LineShapes.SkipStep(s, e + 4, q2, e + 5, m3);
    var q1: seq<Piece> := [Group(Currency), Spaces(true), Group(Rate)];
    assert q1[1..] == q2;
    assert ScanToken(s, e + 1, Currency) == Some(e + 4);
    LineShapes.GroupStep(s, e + 1, q1, e + 4, Match(e + 4, |s|, m3.spans));
    var m1 := Match(e + 1, |s|, [Span(e + 1, e + 4)] + m3.spans);
    assert m1.spans == [Span(e + 1, e + 4), Span(e + 5, |s|)];
    assert ps[1..] == q1;
    LineShapes.SkipStep(s, e, ps, e + 1, m1);
  }

  /** One space and an amount from `n` to `e`, then any pieces that match from `e`:
      the amount becomes the first captured span. */
  lemma HeadStep(s: string, n: nat, e: nat, tail: seq<Piece>, mt: Match)
    requires n + 1 <= e <= |s|
    requires SkipEnd(s, n, Spaces(true)) == Some(n + 1) && RateEnd(s, n + 1) == Some(e)
    requires MatchPieces(s, e, tail) == Some(mt)
    ensures MatchPieces(s, n, [Spaces(true), Group(Rate)] + tail) == Some(Match(n, mt.end, [Span(n + 1, e)] + mt.spans))
  {
    var q1 := [Group(Rate)] + tail;
    assert q1[1..] == tail;
    assert ScanToken(s, n + 1, Rate) == Some(e);
    LineShapes.GroupStep(s, n + 1, q1, e, mt);
    var ps := [Spaces(true)] + q1;
    assert ps[1..] == q1;
    assert ps == [Spaces(true), Group(Rate)] + tail;
    LineShapes.SkipStep(s, n, ps, n + 1, Match(n + 1, mt.end, [Span(n + 1, e)] + mt.spans));
  }

  /** When one space and an amount token lead from `n` to `e`, and one space, a currency
      code, one space and an amount token lead from `e` to the end of the line, the rest
      of the pattern matches from `n` to the end and captures the two amounts and the
      currency. */
  lemma ScansMatch(s: string, n: nat, e: nat)
    requires n + 1 <= e && e + 5 <= |s|
    requires SkipEnd(s, n, Spaces(true)) == Some(n + 1) && RateEnd(s, n + 1) == Some(e)
    requires SkipEnd(s, e, Spaces(true)) == Some(e + 1) && CurrencyEnd(s, e + 1) == Some(e + 4)
    requires SkipEnd(s, e + 4, Spaces(true)) == Some(e + 5) && RateEnd(s, e + 5) == Some(|s|)
    ensures MatchPieces(s, n, DetailsRest)
      == Some(Match(n, |s|, [Span(n + 1, e), Span(e + 1, e + 4), Span(e + 5, |s|)]))
  {
    TailMatches(s, e);
    var mt := Match(e, |s|, [Span(e + 1, e + 4), Span(e + 5, |s|)]);
    HeadStep(s, n, e, DetailsRest[2..], mt);
    assert [Spaces(true), Group(Rate)] + DetailsRest[2..] == DetailsRest;
    assert [Span(n + 1, e)] + mt.spans == [Span(n + 1, e), Span(e + 1, e + 4), Span(e + 5, |s|)];
  }

  /** On a line laid out as a details line from `n`, the rest of the pattern matches
      from `n` to the end and captures the two amounts and the currency. */
  lemma LaidOutMatches(s: string, n: nat, x: string, a: nat, currency: string, y: string)
    requires Laid(s, n, x, a, currency, y) == true
    ensures MatchPieces(s, n, DetailsRest)
      == Some(Match(n, |s|, [Span(n + 1, n + 1 + a), Span(n + 2 + a, n + 5 + a), Span(n + 6 + a, |s|)]))
  {
    LaidOutScans(s, n, x, a, currency, y);
    ScansMatch(s, n, n + 1 + a);
  }

  /** A details line printed from admissible parts is laid out as one. */
  lemma Layout(city: string, orig: string, currency: string, brl: string)
    requires CityName(city) && currency in Currencies && RateShape(orig) && RateShape(brl)
    ensures Printed(DetailsText(city, orig, currency, brl), city, |city|, orig, |orig|, currency, brl) == true
  {
  }

  /** No position inside the city starts the rest of the pattern: a run of spaces
      there is followed by a letter or a `-`, never by a digit. */
  lemma NoStopInCity(s: string, city: string, i: nat)
    requires CityName(city) && |city| < |s| && s[..|city|] == city && i < |city|
    ensures MatchPieces(s, i, DetailsRest).None?
  {
    var n := |city|;
    assert forall k :: 0 <= k < n ==> s[k] == city[k];
    var ps := DetailsRest;
    if IsSpace(s[i]) {
      var j := i + SpaceRun(s, i);
      assert j < n;
      assert !IsSpace(s[j]) && j > 0;
      assert !IsDigit(s[j]);
      assert DigitRun(s, j, |s| - j) == 0;
      assert ScanToken(s, j, Rate).None?;
      assert ps[1..][0] == Group(Rate);
      assert MatchPieces(s, j, ps[1..]).None?;
      assert SkipEnd(s, i, ps[0]) == Some(j);
    } else {
      assert SkipEnd(s, i, ps[0]).None?;
    }
  }

  /** The lazy group, extended from `e` over city characters none of which starts the
      rest of the pattern, ends at the first position that does. */
  lemma {:induction false} CityEndAt(s: string, e: nat, end: nat, stops: set<nat>)
    requires e <= end <= |s| && end in stops
    requires forall i :: e <= i < end ==> CityChar(s[i]) && i !in stops
    ensures CityEnd(s, e, stops) == Some(end)
    decreases end - e
  {
    if e < end {
      CityEndAt(s, e + 1, end, stops);
    }
  }

  /** Inside an admissible city every character is a city character and none starts
      the rest of the pattern. */
  lemma CityStops(s: string, city: string, stops: set<nat>)
    requires CityName(city) && |city| < |s| && s[..|city|] == city && stops == RestStops(s, DetailsRest)
    ensures forall i :: 1 <= i < |city| ==> CityChar(s[i]) && i !in stops
  {
    forall i | 1 <= i < |city|
      ensures CityChar(s[i]) && i !in stops
    {
      NoStopInCity(s, city, i);
      assert s[i] == city[i];
    }
  }

  /** What the details search returns once it has found its match: the city from
      the match start to the end of the lazy group, and the first two captures. */
  lemma IntlDetailsOfMatch(s: string, k: nat, e: nat, m: Match)
    requires k <= |s|
    requires var stops := RestStops(s, DetailsRest);
      DetailsFrom(s, 0, stops) == Some(k) && DetailsAt(s, k, stops) == Some(e)
    requires e <= |s| && MatchPieces(s, e, DetailsRest) == Some(m)
    ensures |m.spans| == 3 && m.spans[0].start <= m.spans[0].end <= |s|
    ensures m.spans[1].start <= m.spans[1].end <= |s|
    ensures IntlDetails(s) == Some(DetailsLine(s[k..e], s[m.spans[0].start..m.spans[0].end],
                                               s[m.spans[1].start..m.spans[1].end]))
  {
    MatchSpans(s, e, DetailsRest);
    DetailsRestTokens();
    assert Captured(s, m.spans[0], Rate) && Captured(s, m.spans[1], Currency);
  }

  /** On a line that starts with an admissible city after which the rest of the
      pattern matches, the details search finds its match at the start of the line
      and the lazy group ends with the city. */
  lemma DetailsFoundAtStart(s: string, city: string, n: nat)
    requires n == |city| && CityName(city) && n < |s| && s[..n] == city
    requires MatchPieces(s, n, DetailsRest).Some?
    ensures var stops := RestStops(s, DetailsRest);
      DetailsFrom(s, 0, stops) == Some(0) && DetailsAt(s, 0, stops) == Some(n)
  {
    var stops := RestStops(s, DetailsRest);
    assert n in stops;
    CityStops(s, city, stops);
    CityEndAt(s, 2, n, stops);
    assert s[0] == city[0] && s[1] == city[1];
    assert DetailsAt(s, 0, stops) == Some(n);
  }

  /** The details search on a line whose city ends at `n` and whose rest matches with
      the amount at `[n + 1, n + 1 + a)` and the currency after it. */
  lemma DetailsAtSpans(s: string, n: nat, a: nat)
    requires n + 5 + a <= |s|
    requires var stops := RestStops(s, DetailsRest);
      DetailsFrom(s, 0, stops) == Some(0) && DetailsAt(s, 0, stops) == Some(n)
    requires MatchPieces(s, n, DetailsRest)
      == Some(Match(n, |s|, [Span(n + 1, n + 1 + a), Span(n + 2 + a, n + 5 + a), Span(n + 6 + a, |s|)]))
    ensures IntlDetails(s) == Some(DetailsLine(s[..n], s[n + 1..n + 1 + a], s[n + 2 + a..n + 5 + a]))
  {
    var m := Match(n, |s|, [Span(n + 1, n + 1 + a), Span(n + 2 + a, n + 5 + a), Span(n + 6 + a, |s|)]);
    IntlDetailsOfMatch(s, 0, n, m);
    assert m.spans[0] == Span(n + 1, n + 1 + a) && m.spans[1] == Span(n + 2 + a, n + 5 + a);
    assert s[0..n] == s[..n];
  }

  /** The details search on a line whose city ends at `n`, whose rest matches with the
      amount at `[n + 1, n + 1 + a)` and the currency after it, reads the city, that
      amount and that currency. */
  lemma DetailsAtCity(s: string, city: string, n: nat, x: string, a: nat, currency: string)
    requires n + 5 + a <= |s|
    requires var stops := RestStops(s, DetailsRest);
      DetailsFrom(s, 0, stops) == Some(0) && DetailsAt(s, 0, stops) == Some(n)
    requires MatchPieces(s, n, DetailsRest)
      == Some(Match(n, |s|, [Span(n + 1, n + 1 + a), Span(n + 2 + a, n + 5 + a), Span(n + 6 + a, |s|)]))
    requires s[..n] == city && s[n + 1..n + 1 + a] == x && s[n + 2 + a..n + 5 + a] == currency
    ensures IntlDetails(s) == Some(DetailsLine(city, x, currency))
  {
    DetailsAtSpans(s, n, a);
  }

  /** Where the city, the first amount token and the currency of a printed line lie. */
  lemma PrintedSlices(s: string, city: string, n: nat, x: string, a: nat, currency: string, y: string)
    requires Printed(s, city, n, x, a, currency, y) == true
    ensures n + 5 + a <= |s| && s[..n] == city && s[n + 1..n + 1 + a] == x && s[n + 2 + a..n + 5 + a] == currency
  {
  }

  /** On a printed details line the search starts at the start of the line, the lazy
      group ends with the city, and the rest matches with the two amounts and the
      currency where they were laid. */
  lemma FoundAndMatched(s: string, city: string, n: nat, x: string, a: nat, currency: string, y: string)
    requires Printed(s, city, n, x, a, currency, y) == true
    ensures var stops := RestStops(s, DetailsRest);
      DetailsFrom(s, 0, stops) == Some(0) && DetailsAt(s, 0, stops) == Some(n)
    ensures MatchPieces(s, n, DetailsRest)
      == Some(Match(n, |s|, [Span(n + 1, n + 1 + a), Span(n + 2 + a, n + 5 + a), Span(n + 6 + a, |s|)]))
  {
    LaidOutMatches(s, n, x, a, currency, y);
    DetailsFoundAtStart(s, city, n);
  }

  /** The details search reads a printed details line as its city, its first amount
      token and its currency. */
  lemma DetailsOn(s: string, city: string, n: nat, x: string, a: nat, currency: string, y: string)
    requires Printed(s, city, n, x, a, currency, y) == true
    ensures IntlDetails(s) == Some(DetailsLine(city, x, currency))
  {
    PrintedSlices(s, city, n, x, a, currency, y);
    FoundAndMatched(s, city, n, x, a, currency, y);
    DetailsAtCity(s, city, n, x, a, currency);
  }

  /** Every details line printed from an admissible city, a currency code and two
      amount tokens reads back as the city, the first amount and the currency. */
  lemma DetailsRoundTrip(city: string, orig: string, currency: string, brl: string)
    requires CityName(city) && currency in Currencies && RateShape(orig) && RateShape(brl)
    ensures IntlDetails(DetailsText(city, orig, currency, brl)) == Some(DetailsLine(city, orig, currency))
  {
    Layout(city, orig, currency, brl);
    DetailsOn(DetailsText(city, orig, currency, brl), city, |city|, orig, |orig|, currency, brl);
  }

  /** An amount token reads as the value of its digits, in cents. */
  lemma RateShapeReads(x: string)
    requires RateShape(x)
    ensures var w := |x| - 3;
      AllDigits(x[..w]) && AllDigits(x[w + 1..])
      && ParseBrlAmount(x) == ValueOf(x[..w]) * 100 + ValueOf(x[w + 1..])
  {
    var w := |x| - 3;
    var whole, frac := x[..w], x[w + 1..];
    assert forall i :: 0 <= i < |whole| ==> whole[i] == x[i];
    assert frac[0] == x[w + 1] && frac[1] == x[w + 2];
    assert x == whole + "," + frac;
    CleanDecimals(whole, frac);
    CleanDigits(whole);
    UnsignedCentsOfParts(whole, frac);
    var t := whole + "." + frac;
    assert Clean(x) == t;
    assert DecimalCents(t) == UnsignedCents(t) by {
      assert t[0] == whole[0];
    }
  }

  /** A text without small letters. */
  predicate NoSmall(s: string) {
    forall i :: 0 <= i < |s| ==> !('a' <= s[i] <= 'z')
  }

  /** A needle with a small letter does not occur in a text without small letters. */
  lemma SmallAbsent(s: string, t: string)
    requires NoSmall(s) && |t| >= 2 && 'a' <= t[1] <= 'z'
    ensures !Contains(s, t)
  {
  }

  lemma NoSmallConcat(a: string, b: string)
    requires NoSmall(a) && NoSmall(b)
    ensures NoSmall(a + b)
  {
    assert forall i :: |a| <= i < |a + b| ==> (a + b)[i] == b[i - |a|];
  }

  /** A line without small letters is caught by none of the keyword tests of the
      third pass except, possibly, the card-holder test. */
  lemma NoSmallUnmarked(s: string)
    requires NoSmall(s) && !IsCardHeader(s)
    ensures IntlUnmarked(s)
  {
    SmallAbsent(s, "Lançamentos internacionais");
    SmallAbsent(s, "Total transa");
    SmallAbsent(s, "Repasse");
    SmallAbsent(s, "Total lan");
    SmallAbsent(s, "Total dos lan");
    SmallAbsent(s, "Conversão");
  }

  /** A line that does not start with a digit does not start with a date. */
  lemma NoLeadingDate(s: string)
    requires |s| > 0 && !IsDigit(s[0])
    ensures LeadingDate(s).None?
  {
    assert DigitRun(s, 0, 2) == 0;
  }

  /** A details line has no small letters. */
  lemma DetailsNoSmall(city: string, orig: string, currency: string, brl: string)
    requires CityName(city) && currency in Currencies && RateShape(orig) && RateShape(brl)
    ensures NoSmall(DetailsText(city, orig, currency, brl))
  {
    assert NoSmall(currency);
    NoSmallConcat(city, " ");
    NoSmallConcat(city + " ", orig);
    NoSmallConcat(city + " " + orig, " ");
    NoSmallConcat(city + " " + orig + " ", currency);
    NoSmallConcat(city + " " + orig + " " + currency, " ");
    NoSmallConcat(city + " " + orig + " " + currency + " ", brl);
  }

  /** None of the keyword tests of the third pass catches a details line, and it does
      not start with a date. */
  lemma DetailsUnmarked(city: string, orig: string, currency: string, brl: string)
    requires CityName(city) && currency in Currencies && RateShape(orig) && RateShape(brl)
    requires !IsCardHeader(DetailsText(city, orig, currency, brl))
    ensures IntlUnmarked(DetailsText(city, orig, currency, brl))
    ensures LeadingDate(DetailsText(city, orig, currency, brl)).None?
  {
    var s := DetailsText(city, orig, currency, brl);
    DetailsNoSmall(city, orig, currency, brl);
    NoSmallUnmarked(s);
    assert s[0] == city[0];
    NoLeadingDate(s);
  }

  /** Inside the section, with a purchase pending, a printed details line fills the
      pending purchase with the city, the original amount read from its token and
      the currency, and changes nothing else. */
  lemma DetailsLineFills(city: string, orig: string, currency: string, brl: string, year: int, st: IntlState)
    requires CityName(city) && currency in Currencies && RateShape(orig) && RateShape(brl)
    requires !IsCardHeader(DetailsText(city, orig, currency, brl))
    requires st.inSection && st.pending.Some?
    ensures var p := st.pending.value;
      IntlStep(DetailsText(city, orig, currency, brl), year, st)
        == IntlOut(None, None, st.(pending := Some(p.(details := Some(Details(city, ParseBrlAmount(orig), currency))))))
  {
    var line := DetailsText(city, orig, currency, brl);
    DetailsUnmarked(city, orig, currency, brl);
    DetailsRoundTrip(city, orig, currency, brl);
    IntlRoundTrip.DetailsFilled(line, year, st);
  }
}
