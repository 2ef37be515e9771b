/** Purchase lines as the statement prints them, `DD/MM description amount`, and what
    the line patterns make of them: the date token and the rest after it, no
    installment suffix when the line carries no `/` after the date, and the
    description and amount split exactly where the printed amount begins. */
module LineShapes {
  import opened Basics
  import opened Text
  import opened Numerals
  import opened Dates
  import opened Money
  import opened Patterns
  import opened AmountShape
  import opened ItauPatterns

  /** A printed amount is made of amount characters only and ends with a digit. */
  lemma FormatChars(cents: int)
    ensures var f := FormatBrl(cents);
      |f| > 0 && IsDigit(f[|f| - 1]) && forall i :: 0 <= i < |f| ==> AmountChar(f[i])
  {
    FormatAmountChars(cents);
    FormatLastDigit(cents);
  }

  lemma FormatAmountChars(cents: int)
    ensures var f := FormatBrl(cents); forall i :: 0 <= i < |f| ==> AmountChar(f[i])
  {
    var f := FormatBrl(cents);
    assert "" + f + "" == f;
    RenderedAmountScans("", cents, "");
    AmountChars(f, 0, Sign.OptionalMinusSpaces, false);
  }

  lemma FormatLastDigit(cents: int)
    ensures var f := FormatBrl(cents); |f| > 0 && IsDigit(f[|f| - 1])
  {
    var f := FormatBrl(cents);
    var a := if cents < 0 then -cents else cents;
    var frac := PadText(a % 100, 2);
    assert f == CreditMark(cents < 0) + Grouped(a / 100) + "," + frac;
    assert f[|f| - 1] == frac[1];
  }

  /** The text after the date: the description, a space and the amount. */
  function PurchaseRest(description: string, cents: int): string {
    description + " " + FormatBrl(cents)
  }

  /** A purchase line as printed: the date, a space, the description, a space and
      the amount. */
  function PurchaseLine(d: Date, description: string, cents: int): string
    requires ValidDate(d)
  {
    DayMonthText(d) + " " + PurchaseRest(description, cents)
  }

  /** A description that ends the way printed descriptions do: with a character an
      amount cannot contain. */
  predicate Describes(description: string) {
    |description| > 0 && Trimmed(description) && !AmountChar(description[|description| - 1])
  }

  /** The rest of a printed purchase line is its own `strip()`. */
  lemma RestStripped(description: string, cents: int)
    requires Describes(description)
    ensures Strip(PurchaseRest(description, cents)) == PurchaseRest(description, cents)
  {
    var r := PurchaseRest(description, cents);
    FormatChars(cents);
    var f := FormatBrl(cents);
    assert r[0] == description[0];
    assert r[|r| - 1] == f[|f| - 1];
    TrimmedIsStripped(r);
  }

  /** A printed purchase line is its own `strip()`. */
  lemma LineStripped(d: Date, description: string, cents: int)
    requires ValidDate(d) && Describes(description)
    ensures Strip(PurchaseLine(d, description, cents)) == PurchaseLine(d, description, cents)
  {
    var line := PurchaseLine(d, description, cents);
    var r := PurchaseRest(description, cents);
    FormatChars(cents);
    var f := FormatBrl(cents);
    assert line[0] == DayMonthText(d)[0] == PadText(d.day, 2)[0];
    assert line[|line| - 1] == r[|r| - 1] == f[|f| - 1];
    TrimmedIsStripped(line);
  }

  /** The date pattern reads the printed date and leaves the rest of the line. */
  lemma LineDate(d: Date, description: string, cents: int)
    requires ValidDate(d) && Describes(description)
    ensures LeadingDate(PurchaseLine(d, description, cents))
      == Some(DateSplit(DayMonthText(d), PurchaseRest(description, cents)))
  {
    var line := PurchaseLine(d, description, cents);
    var dm, r := DayMonthText(d), PurchaseRest(description, cents);
    var dd, mm := PadText(d.day, 2), PadText(d.month, 2);
    assert line[0] == dd[0] && line[1] == dd[1] && line[2] == '/';
    assert line[3] == mm[0] && line[4] == mm[1];
    assert DateEnd(line, 0, false) == Some(5);
    assert line[5] == ' ' && line[6] == description[0];
    assert SpaceRun(line, 5) == 1;
    assert line[..5] == dm;
    assert line[6..] == r;
    RestStripped(description, cents);
  }

  /** A match of the installment pattern has a `/` two characters after its start. */
  lemma InstallmentNeedsSlash(s: string, j: nat)
    requires j <= |s| && MatchPieces(s, j, InstallmentPattern).Some?
    ensures j + 2 < |s| && s[j + 2] == '/'
  {
    var ps := InstallmentPattern;
    var e := ScanToken(s, j, Digits(2)).value;
    assert MatchPieces(s, e, ps[1..]).Some?;
    assert ps[1..][0] == Lit("/");
    assert SkipEnd(s, e, Lit("/")).Some?;
    assert s[e..e + 1] == "/";
  }

  /** Without a `/`, a text has no installment suffix. */
  lemma NoInstallment(s: string)
    requires '/' !in s
    ensures InstallmentTail(s).None?
  {
    forall j | 0 <= j <= |s| && MatchesToEnd(s, j, InstallmentPattern)
      ensures false
    {
      InstallmentNeedsSlash(s, j);
    }
  }

  /** The amount pattern matches a printed amount at the end of a text, from the
      amount's first character on. */
  lemma AmountRunsToEnd(u: string, cents: int)
    ensures var r := u + FormatBrl(cents);
      MatchPieces(r, |u|, AmountPattern) == Some(Match(|u|, |r|, [Span(|u|, |r|)]))
  {
    var f := FormatBrl(cents);
    var r := u + f;
    RenderedAmountScans(u, cents, "");
    assert u + f + "" == r;
    AmountTokenToEnd(r, |u|);
  }

  /** An amount token that runs from `j` to the end is a match of the amount
      pattern there. */
  lemma AmountTokenToEnd(r: string, j: nat)
    requires j <= |r| && AmountEnd(r, j, Sign.OptionalMinusSpaces, false) == Some(|r|)
    ensures MatchPieces(r, j, AmountPattern) == Some(Match(j, |r|, [Span(j, |r|)]))
  {
    assert ScanToken(r, j, LineAmount) == Some(|r|);
    assert AmountPattern[0] == Group(LineAmount) && AmountPattern[1..] == [];
    assert MatchPieces(r, |r|, AmountPattern[1..]) == Some(Match(|r|, |r|, []));
    assert [Span(j, |r|)] + [] == [Span(j, |r|)];
  }

  /** The amount pattern matches the printed amount, from its first character to the
      end of the rest. */
  lemma AmountAtEnd(description: string, cents: int)
    ensures var r := PurchaseRest(description, cents);
      var j := |description| + 1;
      MatchPieces(r, j, AmountPattern) == Some(Match(j, |r|, [Span(j, |r|)]))
  {
    AmountRunsToEnd(description + " ", cents);
  }

  /** The amount pattern reaches the end from `j` exactly when the amount token
      starting at `j` runs to the end. */
  lemma AmountPatternEnd(s: string, j: nat)
    requires j <= |s|
    ensures MatchesToEnd(s, j, AmountPattern) <==>
      AmountEnd(s, j, Sign.OptionalMinusSpaces, false) == Some(|s|)
  {
    assert AmountPattern[0] == Group(LineAmount) && AmountPattern[1..] == [];
    var e := ScanToken(s, j, LineAmount);
    if e.Some? {
      assert MatchPieces(s, e.value, AmountPattern[1..]) == Some(Match(e.value, e.value, []));
    }
  }

  /** No match of the amount pattern that reaches the end starts inside the
      description or at the space after it. */
  lemma NoEarlierAmount(description: string, cents: int, j: nat)
    requires Describes(description) && j <= |description|
    ensures !MatchesToEnd(PurchaseRest(description, cents), j, AmountPattern)
  {
    var r := PurchaseRest(description, cents);
    AmountPatternEnd(r, j);
    if j < |description| {
      assert r[|description| - 1] == description[|description| - 1];
      if AmountEnd(r, j, Sign.OptionalMinusSpaces, false).Some? {
        AmountChars(r, j, Sign.OptionalMinusSpaces, false);
      }
    } else {
      assert r[j] == ' ';
      assert SignEnd(r, j, Sign.OptionalMinusSpaces) == j;
    }
  }

  /** The leftmost amount match that reaches the end of a printed rest starts at the
      printed amount. */
  lemma AmountFound(description: string, cents: int)
    requires Describes(description)
    ensures var r := PurchaseRest(description, cents);
      var j := |description| + 1;
      SearchToEnd(r, AmountPattern) == Some(Match(j, |r|, [Span(j, |r|)]))
  {
    var r := PurchaseRest(description, cents);
    var j0 := |description| + 1;
    AmountAtEnd(description, cents);
    forall k | 0 <= k < j0
      ensures !MatchesToEnd(r, k, AmountPattern)
    {
      NoEarlierAmount(description, cents, k);
    }
    SearchFindsFirst(r, AmountPattern, j0);
  }

  /** A search to the end reports the first start from which the pattern reaches
      the end. */
  lemma SearchFindsFirst(s: string, ps: seq<Piece>, j: nat)
    requires j <= |s| && MatchesToEnd(s, j, ps)
    requires forall k :: 0 <= k < j ==> !MatchesToEnd(s, k, ps)
    ensures SearchToEnd(s, ps) == MatchPieces(s, j, ps)
  {
    var m := SearchToEnd(s, ps);
    assert m.Some?;
    assert m.value.start == j;
  }

  /** The amount pattern splits a printed rest into its description and its amount. */
  lemma RestAmountTail(description: string, cents: int)
    requires Describes(description)
    ensures AmountTail(PurchaseRest(description, cents))
      == Some(AmountSplit(description, FormatBrl(cents)))
  {
    var r := PurchaseRest(description, cents);
    var j0 := |description| + 1;
    AmountFound(description, cents);
    assert r[..j0] == description + " ";
    assert PaddedBy(description + " ", description, 0, |description|);
    StripUnique(description + " ", description, 0, |description|);
    assert r[j0..|r|] == FormatBrl(cents);
  }

  /** The installment marker as printed: two digits, a slash, two digits. */
  function InstallmentText(current: nat, total: nat): string {
    PadText(current, 2) + "/" + PadText(total, 2)
  }

  /** What comes before the installment marker: the description and a space, or
      nothing when the description is empty. */
  function Lead(description: string): string {
    if description == "" then "" else description + " "
  }

  /** The text after the date of a printed installment line. */
  function InstallmentRest(description: string, current: nat, total: nat, cents: int): string {
    Lead(description) + InstallmentText(current, total) + " " + FormatBrl(cents)
  }

  /** Matching a group piece: its token, then the remaining pieces. */
  lemma GroupStep(s: string, p: nat, ps: seq<Piece>, e: nat, m: Match)
    requires p <= |s| && |ps| > 0 && ps[0].Group?
    requires ScanToken(s, p, ps[0].token) == Some(e) && MatchPieces(s, e, ps[1..]) == Some(m)
    ensures MatchPieces(s, p, ps) == Some(Match(p, m.end, [Span(p, e)] + m.spans))
  {
  }

  /** Matching an uncaptured piece: skip it, then the remaining pieces. */
  lemma SkipStep(s: string, p: nat, ps: seq<Piece>, q: nat, m: Match)
    requires p <= |s| && |ps| > 0 && !ps[0].Group?
    requires SkipEnd(s, p, ps[0]) == Some(q) && MatchPieces(s, q, ps[1..]) == Some(m)
    ensures MatchPieces(s, p, ps) == Some(Match(p, m.end, m.spans))
  {
  }

  /** Where the parts of a printed installment rest sit. */
  lemma InstallmentLayout(description: string, current: nat, total: nat, cents: int)
    ensures var r := InstallmentRest(description, current, total, cents);
      var j := |Lead(description)|;
      var cc, tt, f := PadText(current, 2), PadText(total, 2), FormatBrl(cents);
      && r == (Lead(description) + InstallmentText(current, total) + " ") + f
      && |r| == j + 6 + |f|
      && r[..j] == Lead(description)
      && r[j..j + 2] == cc && r[j + 2] == '/' && r[j + 3..j + 5] == tt && r[j + 5] == ' '
      && r[j + 6..] == f
  {
  }

  /** A printed amount starts with a digit or with the minus of a credit. */
  lemma FormatFirst(cents: int)
    ensures var f := FormatBrl(cents); |f| > 0 && (IsDigit(f[0]) || f[0] == '-')
  {
    var a := if cents < 0 then -cents else cents;
    var g := Grouped(a / 100);
    if cents >= 0 {
      assert FormatBrl(cents)[0] == g[0];
    }
  }

  /** The last two pieces of the installment pattern: one space, then the amount. */
  lemma AmountAfterSpace(s: string, p: nat, e: nat)
    requires p + 1 < |s| && s[p] == ' ' && !IsSpace(s[p + 1])
    requires MatchPieces(s, p + 1, AmountPattern) == Some(Match(p + 1, e, [Span(p + 1, e)]))
    ensures MatchPieces(s, p, InstallmentPattern[3..]) == Some(Match(p, e, [Span(p + 1, e)]))
  {
    var ps := InstallmentPattern[3..];
    assert ps[0] == Spaces(true) && ps[1..] == AmountPattern;
    assert SpaceRun(s, p + 1) == 0;
    assert SpaceRun(s, p) == 1;
    SkipStep(s, p, ps, p + 1, Match(p + 1, e, [Span(p + 1, e)]));
  }

  /** The installment pattern from the total on: two digits, a space, the amount. */
  lemma TotalThenAmount(s: string, p: nat, e: nat)
    requires p + 3 < |s| && IsDigit(s[p]) && IsDigit(s[p + 1])
    requires MatchPieces(s, p + 2, InstallmentPattern[3..]) == Some(Match(p + 2, e, [Span(p + 3, e)]))
    ensures MatchPieces(s, p, InstallmentPattern[2..])
      == Some(Match(p, e, [Span(p, p + 2), Span(p + 3, e)]))
  {
    var ps := InstallmentPattern[2..];
    assert ps[0] == Group(Digits(2)) && ps[1..] == InstallmentPattern[3..];
    assert DigitRun(s, p + 2, 0) == 0 && DigitRun(s, p + 1, 1) == 1;
    assert ScanToken(s, p, ps[0].token) == Some(p + 2);
    assert [Span(p, p + 2)] + [Span(p + 3, e)] == [Span(p, p + 2), Span(p + 3, e)];
    GroupStep(s, p, ps, p + 2, Match(p + 2, e, [Span(p + 3, e)]));
  }

  /** The installment pattern from the slash on. */
  lemma SlashThenTotal(s: string, p: nat, e: nat)
    requires p + 4 < |s| && s[p] == '/'
    requires MatchPieces(s, p + 1, InstallmentPattern[2..])
      == Some(Match(p + 1, e, [Span(p + 1, p + 3), Span(p + 4, e)]))
    ensures MatchPieces(s, p, InstallmentPattern[1..])
      == Some(Match(p, e, [Span(p + 1, p + 3), Span(p + 4, e)]))
  {
    var ps := InstallmentPattern[1..];
    assert ps[0] == Lit("/") && ps[1..] == InstallmentPattern[2..];
    assert s[p..p + 1] == "/";
    SkipStep(s, p, ps, p + 1, Match(p + 1, e, [Span(p + 1, p + 3), Span(p + 4, e)]));
  }

  /** The whole installment pattern, from the current installment's two digits. */
  lemma CurrentThenSlash(s: string, p: nat, e: nat)
    requires p + 6 < |s| && IsDigit(s[p]) && IsDigit(s[p + 1])
    requires MatchPieces(s, p + 2, InstallmentPattern[1..])
      == Some(Match(p + 2, e, [Span(p + 3, p + 5), Span(p + 6, e)]))
    ensures MatchPieces(s, p, InstallmentPattern)
      == Some(Match(p, e, [Span(p, p + 2), Span(p + 3, p + 5), Span(p + 6, e)]))
  {
    var ps := InstallmentPattern;
    assert ps[0] == Group(Digits(2));
    assert DigitRun(s, p + 2, 0) == 0 && DigitRun(s, p + 1, 1) == 1;
    assert ScanToken(s, p, ps[0].token) == Some(p + 2);
    assert [Span(p, p + 2)] + [Span(p + 3, p + 5), Span(p + 6, e)]
      == [Span(p, p + 2), Span(p + 3, p + 5), Span(p + 6, e)];
    GroupStep(s, p, ps, p + 2, Match(p + 2, e, [Span(p + 3, p + 5), Span(p + 6, e)]));
  }

  /** The installment pattern matches the printed marker and amount, with its three
      groups on the two numbers and the amount. */
  lemma InstallmentAt(description: string, current: nat, total: nat, cents: int)
    ensures var r := InstallmentRest(description, current, total, cents);
      var j := |Lead(description)|;
      MatchPieces(r, j, InstallmentPattern)
        == Some(Match(j, |r|, [Span(j, j + 2), Span(j + 3, j + 5), Span(j + 6, |r|)]))
  {
    var u := Lead(description) + InstallmentText(current, total) + " ";
    var j := |Lead(description)|;
    var cc, tt := PadText(current, 2), PadText(total, 2);
    assert u == Lead(description) + cc + "/" + tt + " ";
    assert u[j] == cc[0] && u[j + 1] == cc[1] && u[j + 3] == tt[0] && u[j + 4] == tt[1];
    MarkerThenAmount(u, cents);
  }

  /** The installment pattern matches a text that ends in `DD/DD ` followed by a
      printed amount, from the first of those digits to the end. */
  lemma MarkerThenAmount(u: string, cents: int)
    requires |u| >= 6 && IsDigit(u[|u| - 6]) && IsDigit(u[|u| - 5]) && u[|u| - 4] == '/'
    requires IsDigit(u[|u| - 3]) && IsDigit(u[|u| - 2]) && u[|u| - 1] == ' '
    ensures var r := u + FormatBrl(cents); var j := |u| - 6;
      MatchPieces(r, j, InstallmentPattern)
        == Some(Match(j, |r|, [Span(j, j + 2), Span(j + 3, j + 5), Span(j + 6, |r|)]))
  {
    var f := FormatBrl(cents);
    var r := u + f;
    var j := |u| - 6;
    AmountRunsToEnd(u, cents);
    FormatFirst(cents);
    assert r[j + 6] == f[0];
    AmountAfterSpace(r, j + 5, |r|);
    TotalThenAmount(r, j + 3, |r|);
    SlashThenTotal(r, j + 2, |r|);
    CurrentThenSlash(r, j, |r|);
  }

  /** Every character of a printed installment rest other than the marker's slash
      is not a slash. */
  lemma OneSlash(description: string, current: nat, total: nat, cents: int, i: nat)
    requires '/' !in description
    requires i < |InstallmentRest(description, current, total, cents)| && i != |Lead(description)| + 2
    ensures InstallmentRest(description, current, total, cents)[i] != '/'
  {
    var r := InstallmentRest(description, current, total, cents);
    var lead, marker, f := Lead(description), InstallmentText(current, total) + " ", FormatBrl(cents);
    assert r == lead + marker + f;
    if i < |lead| {
      LeadChars(description, i);
      assert r[i] == lead[i];
    } else if i < |lead| + 6 {
      MarkerChars(current, total, i - |lead|);
      assert r[i] == marker[i - |lead|];
    } else {
      FormatChars(cents);
      assert r[i] == f[i - |lead| - 6];
    }
  }

  /** The lead is the description's characters followed by at most a space. */
  lemma LeadChars(description: string, i: nat)
    requires i < |Lead(description)|
    ensures Lead(description)[i] == ' ' || Lead(description)[i] in description
  {
    if i < |description| {
      assert Lead(description)[i] == description[i];
    }
  }

  /** The printed marker `CC/TT ` has its only slash at position 2. */
  lemma MarkerChars(current: nat, total: nat, k: nat)
    requires k < 6 && k != 2
    ensures |InstallmentText(current, total) + " "| == 6 && (InstallmentText(current, total) + " ")[k] != '/'
  {
    var cc, tt := PadText(current, 2), PadText(total, 2);
    var m := InstallmentText(current, total) + " ";
    assert m == cc + "/" + tt + " ";
    if k < 2 {
      assert m[k] == cc[k];
    } else if k < 5 {
      assert m[k] == tt[k - 3];
    }
  }

  /** The leftmost installment match that reaches the end of a printed installment
      rest starts at the printed marker. */
  lemma InstallmentFound(description: string, current: nat, total: nat, cents: int)
    requires '/' !in description
    ensures var r := InstallmentRest(description, current, total, cents);
      var j := |Lead(description)|;
      SearchToEnd(r, InstallmentPattern)
        == Some(Match(j, |r|, [Span(j, j + 2), Span(j + 3, j + 5), Span(j + 6, |r|)]))
  {
    var r := InstallmentRest(description, current, total, cents);
    var j0 := |Lead(description)|;
    InstallmentAt(description, current, total, cents);
    assert MatchesToEnd(r, j0, InstallmentPattern);
    var m := SearchToEnd(r, InstallmentPattern).value;
    if m.start < j0 {
      InstallmentNeedsSlash(r, m.start);
      OneSlash(description, current, total, cents, m.start + 2);
    }
  }

  /** A number below 100 printed in two digits reads back as itself. */
  lemma TwoDigitsRead(n: nat)
    requires n < 100
    ensures ValueOf(PadText(n, 2)) == n
  {
    SmallPowers();
    PadTextValue(n, 2);
  }

  /** What `InstallmentTail` reads from a text whose leftmost installment match
      sits at `j`. */
  lemma TailOfMatch(rest: string, j: nat)
    requires j + 6 <= |rest| && AllDigits(rest[j..j + 2]) && AllDigits(rest[j + 3..j + 5])
    requires SearchToEnd(rest, InstallmentPattern)
      == Some(Match(j, |rest|, [Span(j, j + 2), Span(j + 3, j + 5), Span(j + 6, |rest|)]))
    ensures InstallmentTail(rest) == Some(InstallmentSplit(Strip(rest[..j]),
      ValueOf(rest[j..j + 2]), ValueOf(rest[j + 3..j + 5]), rest[j + 6..]))
  {
    var m := Match(j, |rest|, [Span(j, j + 2), Span(j + 3, j + 5), Span(j + 6, |rest|)]);
    var toks := [Digits(2), Digits(2), LineAmount];
    assert FindToEnd(rest, InstallmentPattern) == Some(m);
    InstallmentTokens();
    assert GroupText(rest, m, toks, 0) == rest[j..j + 2];
    assert GroupText(rest, m, toks, 1) == rest[j + 3..j + 5];
    assert GroupText(rest, m, toks, 2) == rest[j + 6..];
  }

  /** The installment pattern splits a printed installment rest into its
      description, the two numbers and the amount. */
  lemma InstallmentRestTail(description: string, current: nat, total: nat, cents: int)
    requires Trimmed(description) && '/' !in description
    requires current < 100 && total < 100
    ensures InstallmentTail(InstallmentRest(description, current, total, cents))
      == Some(InstallmentSplit(description, current, total, FormatBrl(cents)))
  {
    var r := InstallmentRest(description, current, total, cents);
    var j0 := |Lead(description)|;
    InstallmentFound(description, current, total, cents);
    InstallmentLayout(description, current, total, cents);
    var cc, tt := PadText(current, 2), PadText(total, 2);
    assert r[j0..j0 + 2] == cc && r[j0 + 3..j0 + 5] == tt;
    TailOfMatch(r, j0);
    assert PaddedBy(Lead(description), description, 0, |description|);
    StripUnique(Lead(description), description, 0, |description|);
    assert Strip(r[..j0]) == description;
    TwoDigitsRead(current);
    TwoDigitsRead(total);
  }

  /** A line as printed: the date, a space and the rest. */
  function DatedLine(d: Date, rest: string): string
    requires ValidDate(d)
  {
    DayMonthText(d) + " " + rest
  }

  /** A dated line whose rest is trimmed is its own `strip()`, and the date pattern
      reads the date and leaves the rest. */
  lemma DatedLineReads(d: Date, rest: string)
    requires ValidDate(d) && |rest| > 0 && Trimmed(rest)
    ensures Strip(DatedLine(d, rest)) == DatedLine(d, rest)
    ensures LeadingDate(DatedLine(d, rest)) == Some(DateSplit(DayMonthText(d), rest))
  {
    var line := DatedLine(d, rest);
    var dm := DayMonthText(d);
    var dd, mm := PadText(d.day, 2), PadText(d.month, 2);
    assert line[0] == dd[0] && line[1] == dd[1] && line[2] == '/';
    assert line[|line| - 1] == rest[|rest| - 1];
    TrimmedIsStripped(line);
    assert line[3] == mm[0] && line[4] == mm[1];
    assert DateEnd(line, 0, false) == Some(5);
    assert line[5] == ' ' && line[6] == rest[0];
    assert SpaceRun(line, 5) == 1;
    assert line[..5] == dm;
    assert line[6..] == rest;
    TrimmedIsStripped(rest);
  }

  /** A printed installment rest with a trimmed description is trimmed. */
  lemma InstallmentRestTrimmed(description: string, current: nat, total: nat, cents: int)
    requires Trimmed(description)
    ensures var r := InstallmentRest(description, current, total, cents); |r| > 0 && Trimmed(r)
  {
    var r := InstallmentRest(description, current, total, cents);
    InstallmentLayout(description, current, total, cents);
    FormatChars(cents);
    var f, cc := FormatBrl(cents), PadText(current, 2);
    if description == "" {
      assert r[0] == cc[0];
    } else {
      assert r[0] == description[0];
    }
    assert r[|r| - 1] == f[|f| - 1];
  }
}
