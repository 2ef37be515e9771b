/** The regular expressions of the Itaú parser, each as a sequence of pattern
    pieces, and the two patterns whose backtracking behaviour the greedy pieces do
    not capture (the lazy category group of the category/location line, and the lazy
    city group of the international details line), written out by hand. */
module ItauPatterns {
  import opened Basics
  import opened Text
  import opened Numerals
  import opened Patterns

  /** The amount token of the transaction lines: `(?:-\s*)?\d{1,3}(?:[\. ]\d{3})*,\d{2}`. */
  const LineAmount: Token := Amount(Sign.OptionalMinusSpaces, false)

  /** The amount token of the summary lines: `-?\d{1,3}(?:[\. ]\d{3})*,\d{2}`. */
  const SummaryAmount: Token := Amount(Sign.OptionalMinus, false)

  /** `^(\d{2}/\d{2})\s+`, used with `re.match`. */
  const DatePattern: seq<Piece> := [Group(DayMonth), Spaces(true)]

  /** `(amount)$`. */
  const AmountPattern: seq<Piece> := [Group(LineAmount)]

  /** `(\d{2})/(\d{2})\s+(amount)$`. */
  const InstallmentPattern: seq<Piece> :=
    [Group(Digits(2)), Lit("/"), Group(Digits(2)), Spaces(true), Group(LineAmount)]

  /** `final\s*(\d{4})`. */
  const CardFinalPattern: seq<Piece> := [Lit("final"), Spaces(false), Group(Digits(4))]

  /** `Total\s*desta\s*fatura\s+(amount)`. */
  const TotalFaturaPattern: seq<Piece> :=
    [Lit("Total"), Spaces(false), Lit("desta"), Spaces(false), Lit("fatura"), Spaces(true),
     Group(SummaryAmount)]

  /** `Total\s*da\s*fatura\s*anterior\s+(amount)`. */
  const PreviousBalancePattern: seq<Piece> :=
    [Lit("Total"), Spaces(false), Lit("da"), Spaces(false), Lit("fatura"), Spaces(false),
     Lit("anterior"), Spaces(true), Group(SummaryAmount)]

  /** `Pagamento\s*efetuado\s*em\s*(\d{2}/\d{2}/\d{4})\s*[-\s]+(\d{1,3}(?:[.\s]\d{3})*,\d{2})`. */
  const PaymentPattern: seq<Piece> :=
    [Lit("Pagamento"), Spaces(false), Lit("efetuado"), Spaces(false), Lit("em"), Spaces(false),
     Group(FullDate), DashesOrSpaces, Group(Amount(Sign.Unsigned, true))]

  /** `Lançamentos\s*atuais\s+(amount)`. */
  const CurrentChargesPattern: seq<Piece> :=
    [Lit("Lançamentos"), Spaces(false), Lit("atuais"), Spaces(true), Group(SummaryAmount)]

  /** `Vencimento\s*:\s*(\d{2}/\d{2}/\d{4})`. */
  const DueDatePattern: seq<Piece> :=
    [Lit("Vencimento"), Spaces(false), Lit(":"), Spaces(false), Group(FullDate)]

  /** `Emissão\s*:\s*(\d{2}/\d{2}/\d{4})`. */
  const StatementDatePattern: seq<Piece> :=
    [Lit("Emissão"), Spaces(false), Lit(":"), Spaces(false), Group(FullDate)]

  /** `Repasse\s*de\s*IOF\s*em\s*R\s*\$\s*(amount)`. */
  const IofPattern: seq<Piece> :=
    [Lit("Repasse"), Spaces(false), Lit("de"), Spaces(false), Lit("IOF"), Spaces(false),
     Lit("em"), Spaces(false), Lit("R"), Spaces(false), Lit("$"), Spaces(false),
     Group(SummaryAmount)]

  /** `Dólar\s*de\s*Conversão\s*R\s*\$\s*(\d+,\d{2})`. */
  const ExchangeRatePattern: seq<Piece> :=
    [Lit("Dólar"), Spaces(false), Lit("de"), Spaces(false), Lit("Conversão"), Spaces(false),
     Lit("R"), Spaces(false), Lit("$"), Spaces(false), Group(Rate)]

  /** `re.search` together with what it guarantees about the groups. */
  function Find(s: string, ps: seq<Piece>): (r: Option<Match>)
    ensures r.Some? ==> r.value.start <= r.value.end <= |s|
    ensures r.Some? ==> SpansOf(s, r.value.spans, Tokens(ps))
    ensures r.Some? ==> MatchPieces(s, r.value.start, ps) == r && NoMatchBefore(s, ps, r.value.start)
    ensures r.Some? <==> exists j :: 0 <= j <= |s| && MatchPieces(s, j, ps).Some?
  {
    var r := Search(s, ps);
    if r.Some? then
      MatchSpans(s, r.value.start, ps);
      assert MatchPieces(s, r.value.start, ps).Some?;
      r
    else r
  }

  /** A match at `k` with none before it is the one `re.search` reports. */
  lemma FindAt(s: string, ps: seq<Piece>, k: nat)
    requires NoMatchBefore(s, ps, k) && MatchPieces(s, k, ps).Some?
    ensures Find(s, ps) == MatchPieces(s, k, ps)
  {
    var r := Find(s, ps);
    assert r.Some?;
  }

  /** `re.search` for a pattern ending in `$`, with what it guarantees about the groups. */
  function FindToEnd(s: string, ps: seq<Piece>): (r: Option<Match>)
    ensures r.Some? ==> r.value.start <= r.value.end == |s|
    ensures r.Some? ==> MatchPieces(s, r.value.start, ps) == r
    ensures r.Some? ==> SpansOf(s, r.value.spans, Tokens(ps))
    ensures r.Some? <==> exists j :: 0 <= j <= |s| && MatchesToEnd(s, j, ps)
  {
    var r := SearchToEnd(s, ps);
    if r.Some? then
      MatchSpans(s, r.value.start, ps);
      assert MatchesToEnd(s, r.value.start, ps);
      r
    else r
  }

  /** A pattern without groups has no tokens. */
  lemma {:induction false} NoTokens(ps: seq<Piece>)
    requires forall i :: 0 <= i < |ps| ==> !ps[i].Group?
    ensures Tokens(ps) == []
    decreases |ps|
  {
    if |ps| > 0 {
      NoTokens(ps[1..]);
    }
  }

  /** A pattern with exactly one group, at index `g`, has that group's token only. */
  lemma {:induction false} OneToken(ps: seq<Piece>, g: nat)
    requires g < |ps| && ps[g].Group?
    requires forall i :: 0 <= i < |ps| && i != g ==> !ps[i].Group?
    ensures Tokens(ps) == [ps[g].token]
    decreases |ps|
  {
    if g == 0 {
      NoTokens(ps[1..]);
    } else {
      OneToken(ps[1..], g - 1);
    }
  }

  /** The tokens of a pattern are those of its two parts. */
  lemma {:induction false} TokensSplit(ps: seq<Piece>, k: nat)
    requires k <= |ps|
    ensures Tokens(ps) == Tokens(ps[..k]) + Tokens(ps[k..])
    decreases k
  {
    if k > 0 {
      TokensSplit(ps[1..], k - 1);
      assert ps[1..][..k - 1] == ps[..k][1..];
      assert ps[1..][k - 1..] == ps[k..];
    } else {
      NoTokens(ps[..0]);
    }
  }

  /** The text of the only group of a one-group match. */
  function OnlyGroup(s: string, m: Match, tok: Token): (t: string)
    requires SpansOf(s, m.spans, [tok])
    ensures Captured(s, m.spans[0], tok) && t == s[m.spans[0].start..m.spans[0].end]
  {
    GroupText(s, m, [tok], 0)
  }

  /** `t` is the text of group `i` of the leftmost match of `ps` in `s`. */
  predicate LeftmostCapture(s: string, ps: seq<Piece>, i: nat, t: string) {
    match Find(s, ps)
    case None => false
    case Some(m) =>
      i < |m.spans| && m.spans[i].start <= m.spans[i].end <= |s| && t == s[m.spans[i].start..m.spans[i].end]
  }

  /** The text the one group of `ps` captures in the leftmost match. A digit field
      captures exactly its digits, and an unsigned token never captures a minus. */
  function FindOne(s: string, ps: seq<Piece>, tok: Token): (r: Option<string>)
    requires Tokens(ps) == [tok]
    ensures r.Some? <==> Find(s, ps).Some?
    ensures r.Some? ==> LeftmostCapture(s, ps, 0, r.value)
    ensures r.Some? && tok.Digits? ==> |r.value| == tok.count && AllDigits(r.value)
    ensures r.Some? && UnsignedToken(tok) ==> '-' !in r.value
  {
    match Find(s, ps)
    case None => None
    case Some(m) =>
      var t := OnlyGroup(s, m, tok);
      CaptureFacts(s, m.spans[0], tok);
      Some(t)
  }

  /** What a capture's text is made of, for digit fields and unsigned tokens. */
  lemma CaptureFacts(s: string, sp: Span, tok: Token)
    requires Captured(s, sp, tok)
    ensures var t := s[sp.start..sp.end];
      (tok.Digits? ==> |t| == tok.count && AllDigits(t)) && (UnsignedToken(tok) ==> '-' !in t)
  {
    var t := s[sp.start..sp.end];
    if tok.Digits? {
      assert forall i :: 0 <= i < |t| ==> t[i] == s[sp.start + i];
    }
    if UnsignedToken(tok) {
      UnsignedCapture(s, sp.start, tok);
      assert forall i :: 0 <= i < |t| ==> t[i] == s[sp.start + i];
    }
  }

  /** A date at the start of a line, and the stripped rest of the line after the
      whitespace that follows it. */
  datatype DateSplit = DateSplit(date: string, rest: string)

  /** `DATE_PATTERN.match(line)`, with `line[match.end():].strip()`. */
  function LeadingDate(line: string): (r: Option<DateSplit>)
    ensures r.Some? <==> MatchStart(line, DatePattern).Some?
    ensures r.Some? ==> |r.value.date| == 5 && StartsWith(line, r.value.date)
    ensures r.Some? ==> r.value.date[2] == '/' && 5 < |line| && IsSpace(line[5])
  {
    DatePatternReads(line);
    if DateEnd(line, 0, false).Some? && SpaceRun(line, 5) >= 1 then
      Some(DateSplit(line[..5], Strip(line[5 + SpaceRun(line, 5)..])))
    else None
  }

  /** The date pattern matches exactly when a `DD/MM` token starts the line and
      whitespace follows it; the match ends after that whitespace. */
  lemma DatePatternReads(line: string)
    ensures MatchStart(line, DatePattern).Some? <==>
      DateEnd(line, 0, false).Some? && SpaceRun(line, 5) >= 1
    ensures MatchStart(line, DatePattern).Some? ==>
      MatchStart(line, DatePattern).value.end == 5 + SpaceRun(line, 5)
  {
    var tail := DatePattern[1..];
    assert tail == [Spaces(true)];
    assert tail[1..] == [];
    if DateEnd(line, 0, false).Some? {
      assert MatchPieces(line, 0, DatePattern).Some? <==> MatchPieces(line, 5, tail).Some?;
    }
  }

  /** The card number of a `final NNNN` mention: four digits. */
  function CardFinal(line: string): (r: Option<string>)
    ensures r.Some? <==> Find(line, CardFinalPattern).Some?
    ensures r.Some? ==> LeftmostCapture(line, CardFinalPattern, 0, r.value)
    ensures r.Some? ==> |r.value| == 4 && AllDigits(r.value)
  {
    OneToken(CardFinalPattern, 2);
    FindOne(line, CardFinalPattern, Digits(4))
  }

  /** The amount after `Total desta fatura`. */
  function TotalFatura(text: string): (r: Option<string>)
    ensures r.Some? <==> Find(text, TotalFaturaPattern).Some?
    ensures r.Some? ==> LeftmostCapture(text, TotalFaturaPattern, 0, r.value)
  {
    OneToken(TotalFaturaPattern, 6);
    FindOne(text, TotalFaturaPattern, SummaryAmount)
  }

  /** The amount after `Total da fatura anterior`. */
  function PreviousBalance(text: string): (r: Option<string>)
    ensures r.Some? <==> Find(text, PreviousBalancePattern).Some?
    ensures r.Some? ==> LeftmostCapture(text, PreviousBalancePattern, 0, r.value)
  {
    OneToken(PreviousBalancePattern, 8);
    FindOne(text, PreviousBalancePattern, SummaryAmount)
  }

  /** The amount after `Lançamentos atuais`. */
  function CurrentCharges(text: string): (r: Option<string>)
    ensures r.Some? <==> Find(text, CurrentChargesPattern).Some?
    ensures r.Some? ==> LeftmostCapture(text, CurrentChargesPattern, 0, r.value)
  {
    OneToken(CurrentChargesPattern, 4);
    FindOne(text, CurrentChargesPattern, SummaryAmount)
  }

  /** The date after `Vencimento:`. */
  function DueDate(text: string): (r: Option<string>)
    ensures r.Some? <==> Find(text, DueDatePattern).Some?
    ensures r.Some? ==> LeftmostCapture(text, DueDatePattern, 0, r.value)
  {
    OneToken(DueDatePattern, 4);
    FindOne(text, DueDatePattern, FullDate)
  }

  /** The date after `Emissão:`. */
  function StatementDate(text: string): (r: Option<string>)
    ensures r.Some? <==> Find(text, StatementDatePattern).Some?
    ensures r.Some? ==> LeftmostCapture(text, StatementDatePattern, 0, r.value)
  {
    OneToken(StatementDatePattern, 4);
    FindOne(text, StatementDatePattern, FullDate)
  }

  /** The amount after `Repasse de IOF em R$`. */
  function IofAmount(line: string): (r: Option<string>)
    ensures r.Some? <==> Find(line, IofPattern).Some?
    ensures r.Some? ==> LeftmostCapture(line, IofPattern, 0, r.value)
  {
    OneToken(IofPattern, 12);
    FindOne(line, IofPattern, SummaryAmount)
  }

  /** The rate after `Dólar de Conversão R$`; it never carries a minus. */
  function ExchangeRate(line: string): (r: Option<string>)
    ensures r.Some? <==> Find(line, ExchangeRatePattern).Some?
    ensures r.Some? ==> LeftmostCapture(line, ExchangeRatePattern, 0, r.value)
    ensures r.Some? ==> '-' !in r.value
  {
    OneToken(ExchangeRatePattern, 10);
    FindOne(line, ExchangeRatePattern, Rate)
  }

  /** The date and the amount of the payment line. */
  datatype PaymentSplit = PaymentSplit(date: string, amount: string)

  lemma PaymentTokens()
    ensures Tokens(PaymentPattern) == [FullDate, Amount(Sign.Unsigned, true)]
  {
    var ps := PaymentPattern;
    TokensSplit(ps, 7);
    OneToken(ps[..7], 6);
    OneToken(ps[7..], 1);
  }

  /** `PAYMENT_PATTERN.search(text)`: the paid amount never carries a minus. */
  function Payment(text: string): (r: Option<PaymentSplit>)
    ensures r.Some? <==> Find(text, PaymentPattern).Some?
    ensures r.Some? ==>
      LeftmostCapture(text, PaymentPattern, 0, r.value.date) && LeftmostCapture(text, PaymentPattern, 1, r.value.amount)
    ensures r.Some? ==> '-' !in r.value.amount
  {
    PaymentTokens();
    var toks := [FullDate, Amount(Sign.Unsigned, true)];
    var m :- Find(text, PaymentPattern);
    CaptureFacts(text, m.spans[1], toks[1]);
    Some(PaymentSplit(GroupText(text, m, toks, 0), GroupText(text, m, toks, 1)))
  }

  /** A transaction line's rest split at a trailing `NN/NN amount`. */
  datatype InstallmentSplit =
    InstallmentSplit(description: string, current: nat, total: nat, amount: string)

  lemma InstallmentTokens()
    ensures Tokens(InstallmentPattern) == [Digits(2), Digits(2), LineAmount]
  {
    var ps := InstallmentPattern;
    TokensSplit(ps, 1);
    OneToken(ps[..1], 0);
    TokensSplit(ps[1..], 2);
    assert ps[1..][..2] == [Lit("/"), Group(Digits(2))];
    assert ps[1..][2..] == [Spaces(true), Group(LineAmount)];
    OneToken(ps[1..][..2], 1);
    OneToken(ps[1..][2..], 1);
  }

  /** `INSTALLMENT_PATTERN.search(rest)`: the stripped text before the match, the two
      installment numbers as `int` reads them, and the amount text. */
  function InstallmentTail(rest: string): (r: Option<InstallmentSplit>)
    ensures r.Some? <==> exists j :: 0 <= j <= |rest| && MatchesToEnd(rest, j, InstallmentPattern)
    ensures r.Some? ==> r.value.current < 100 && r.value.total < 100
  {
    InstallmentTokens();
    var toks := [Digits(2), Digits(2), LineAmount];
    var m :- FindToEnd(rest, InstallmentPattern);
    var cur, tot := GroupText(rest, m, toks, 0), GroupText(rest, m, toks, 1);
    CaptureFacts(rest, m.spans[0], toks[0]);
    CaptureFacts(rest, m.spans[1], toks[1]);
    ValueOfBound(cur);
    ValueOfBound(tot);
    assert Pow10(2) == 100;
    Some(InstallmentSplit(Strip(rest[..m.start]), ValueOf(cur), ValueOf(tot), GroupText(rest, m, toks, 2)))
  }

  /** A transaction line's rest split at a trailing amount. */
  datatype AmountSplit = AmountSplit(description: string, amount: string)

  /** `AMOUNT_PATTERN.search(rest)`: the stripped text before the match and the
      amount text, which runs to the end of `rest`. */
  function AmountTail(rest: string): (r: Option<AmountSplit>)
    ensures r.Some? <==> exists j :: 0 <= j <= |rest| && MatchesToEnd(rest, j, AmountPattern)
  {
    OneToken(AmountPattern, 0);
    var m :- FindToEnd(rest, AmountPattern);
    Some(AmountSplit(Strip(rest[..m.start]), GroupText(rest, m, [LineAmount], 0)))
  }

  /** `[A-ZÇÃÕÉÊÍÓÚÀÂÔÜ]`, the letters of a category. */
  predicate CategoryLetter(c: char) {
    || 'A' <= c <= 'Z'
    || c == 'Ç' || c == 'Ã' || c == 'Õ' || c == 'É' || c == 'Ê' || c == 'Í'
    || c == 'Ó' || c == 'Ú' || c == 'À' || c == 'Â' || c == 'Ô' || c == 'Ü'
  }

  /** `[A-Za-zçãõéêíóúàâôü ]`, the characters of a location. */
  predicate LocationChar(c: char) {
    || 'A' <= c <= 'Z' || 'a' <= c <= 'z' || c == ' '
    || c == 'ç' || c == 'ã' || c == 'õ' || c == 'é' || c == 'ê' || c == 'í'
    || c == 'ó' || c == 'ú' || c == 'à' || c == 'â' || c == 'ô' || c == 'ü'
  }

  /** The line under a purchase that names its category and city. */
  datatype CategoryLine = CategoryLine(category: string, location: string)

  /** `CATEGORY_LOCATION_PATTERN.match(line)`, then `group(1).strip()` and
      `group(2).strip().upper()`. Neither character class of the pattern contains the
      point, so the line splits at its first point. */
  function CategoryLocation(line: string): (r: Option<CategoryLine>)
    ensures r.Some? ==> '.' in line
    ensures r.Some? ==> |r.value.category| > 0 && CategoryLetter(r.value.category[0])
    ensures r.Some? ==> CategoryShaped(line)
  {
    var d := IndexOf(line, '.');
    if d == |line| then None else CategoryParts(line[..d], line[d + 1..])
  }

  /** Category letters and whitespace only. */
  predicate CategoryText(t: string) {
    forall i :: 0 <= i < |t| ==> CategoryLetter(t[i]) || IsSpace(t[i])
  }

  /** Location characters and whitespace only; in particular no point. */
  predicate LocationText(t: string) {
    forall i :: 0 <= i < |t| ==> LocationChar(t[i]) || IsSpace(t[i])
  }

  /** What a line the category/location pattern matches is made of: before its
      first point, a category letter followed by category letters and whitespace;
      after it, location characters and whitespace, so no second point. */
  predicate CategoryShaped(line: string) {
    var d := IndexOf(line, '.');
    && 0 < d < |line| && CategoryLetter(line[0])
    && CategoryText(line[..d]) && LocationText(line[d + 1..])
  }

  /** A line that starts with a date is never a category line, so the purchase
      line after a purchase is not taken as its category. */
  lemma DatedLineIsNoCategory(line: string)
    requires LeadingDate(line).Some?
    ensures CategoryLocation(line).None?
  {
    DatePatternReads(line);
    DigitFirstIsNoCategory(line);
  }

  /** A line that starts with `\d{2}/\d{2}` is not category-shaped. */
  lemma DigitFirstIsNoCategory(line: string)
    requires DateEnd(line, 0, false).Some?
    ensures !CategoryShaped(line)
  {
    var c := line[0];
    assert IsDigit(c);
  }

  /** The pattern `^([U][U ]*?)\s*\.\s*([L ]+)$` around a point with `head` before it
      and `tail` after it. Before the point, the lazy group stops at the trailing
      whitespace, which must follow a run of `[U ]` that starts with a letter. After
      it, `\s*` takes the leading whitespace and the group must run to the end; when
      only whitespace follows the point, the regex gives one character back to the
      group, which therefore needs a final space. */
  function CategoryParts(head: string, tail: string): (r: Option<CategoryLine>)
    ensures r.Some? ==> |r.value.category| > 0 && CategoryLetter(r.value.category[0])
    ensures r.Some? ==> |head| > 0 && CategoryLetter(head[0]) && CategoryText(head) && LocationText(tail)
  {
    if CategoryRun(head) && LocationRun(tail) then
      HeadText(head);
      TailText(tail);
      var j := LeadingSpaces(tail);
      var group2 := if j < |tail| then tail[j..] else tail[|tail| - 1..];
      Some(CategoryLine(CategoryGroup(head), Upper(Strip(group2))))
    else None
  }

  /** Before the trailing whitespace, `head` is a category letter followed by
      category letters and spaces. */
  predicate CategoryRun(head: string) {
    var k := |head| - TrailingSpaces(head);
    k >= 1 && CategoryLetter(head[0]) && forall i :: 0 <= i < k ==> CategoryLetter(head[i]) || head[i] == ' '
  }

  /** After the leading whitespace, `tail` is location characters to its end, or,
      when it is all whitespace, it ends in a space. */
  predicate LocationRun(tail: string) {
    var j := LeadingSpaces(tail);
    if j < |tail| then forall i :: j <= i < |tail| ==> LocationChar(tail[i])
    else |tail| > 0 && tail[|tail| - 1] == ' '
  }

  /** `group(1).strip()`: the head without its trailing whitespace. */
  function CategoryGroup(head: string): (g: string)
    requires CategoryRun(head)
    ensures g == Strip(head[..|head| - TrailingSpaces(head)])
    ensures |g| > 0 && CategoryLetter(g[0])
  {
    var g := head[..|head| - TrailingSpaces(head)];
    TrimmedIsStripped(g);
    g
  }

  /** The category run before the trailing whitespace makes the head category text. */
  lemma HeadText(head: string)
    requires CategoryRun(head)
    ensures CategoryText(head)
  {
  }

  /** Leading whitespace and a run of location characters make the tail location
      text. */
  lemma TailText(tail: string)
    requires LocationRun(tail)
    ensures LocationText(tail)
  {
  }

  /** A string without whitespace at its ends is its own `strip()`. */
  lemma TrimmedIsStripped(s: string)
    requires Trimmed(s)
    ensures Strip(s) == s
  {
    assert PaddedBy(s, s, 0, |s|);
    StripUnique(s, s, 0, |s|);
  }

  /** The head `category + " "` leaves the category as the first group. */
  lemma CategoryHead(category: string)
    requires |category| > 0 && Trimmed(category)
    ensures var head := category + " ";
      TrailingSpaces(head) == 1 && head[..|category|] == category
  {
    var head := category + " ";
    assert head[..|head| - 1] == category;
  }

  /** The tail `" " + location` leaves the location as the second group. */
  lemma LocationTail(location: string)
    requires |location| > 0 && Trimmed(location)
    ensures var tail := " " + location;
      LeadingSpaces(tail) == 1 && tail[1..] == location
  {
    var tail := " " + location;
    assert tail[1..] == location;
  }

  /** The two groups around the point of a printed category line. */
  lemma CategoryPartsRoundTrip(category: string, location: string)
    requires |category| > 0 && CategoryLetter(category[0]) && Trimmed(category)
    requires forall i :: 0 <= i < |category| ==> CategoryLetter(category[i]) || category[i] == ' '
    requires |location| > 0 && Trimmed(location)
    requires forall i :: 0 <= i < |location| ==> LocationChar(location[i])
    ensures CategoryParts(category + " ", " " + location)
      == Some(CategoryLine(category, Upper(location)))
  {
    var head, tail := category + " ", " " + location;
    CategoryHead(category);
    LocationTail(location);
    var k, j := |head| - TrailingSpaces(head), LeadingSpaces(tail);
    assert k == |category| && j == 1 < |tail|;
    assert forall i :: 0 <= i < k ==> CategoryLetter(head[i]) || head[i] == ' ' by {
      assert forall i :: 0 <= i < |category| ==> head[i] == category[i];
    }
    assert forall i :: j <= i < |tail| ==> LocationChar(tail[i]) by {
      assert forall i :: 1 <= i < |tail| ==> tail[i] == location[i - 1];
    }
    TrimmedIsStripped(category);
    TrimmedIsStripped(location);
    assert CategoryParts(head, tail) == Some(CategoryLine(Strip(head[..k]), Upper(Strip(tail[j..]))));
  }

  /** A category and a location written as the statement prints them, `CATEGORY .
      location`, read back as that category and the location in capitals. */
  lemma CategoryLocationRoundTrip(category: string, location: string)
    requires |category| > 0 && CategoryLetter(category[0]) && Trimmed(category)
    requires forall i :: 0 <= i < |category| ==> CategoryLetter(category[i]) || category[i] == ' '
    requires |location| > 0 && Trimmed(location)
    requires forall i :: 0 <= i < |location| ==> LocationChar(location[i])
    ensures CategoryLocation(category + " . " + location)
      == Some(CategoryLine(category, Upper(location)))
  {
    var head, tail := category + " ", " " + location;
    var line := head + "." + tail;
    assert category + " . " + location == line;
    assert '.' !in head by {
      assert forall i :: 0 <= i < |head| ==> head[i] == ' ' || CategoryLetter(head[i]);
    }
    IndexOfAfterPiece(head, '.', tail);
    assert line[..|head|] == head && line[|head| + 1..] == tail;
    CategoryPartsRoundTrip(category, location);
  }

  /** `[A-Z0-9\- ]`, the characters after the first letter of a city. */
  predicate CityChar(c: char) {
    'A' <= c <= 'Z' || IsDigit(c) || c == '-' || c == ' '
  }

  /** What follows the city on a details line: `\s+(\d+,\d{2})\s+(USD|BRL|EUR)\s+(\d+,\d{2})`. */
  const DetailsRest: seq<Piece> :=
    [Spaces(true), Group(Rate), Spaces(true), Group(Currency), Spaces(true), Group(Rate)]

  lemma DetailsRestTokens()
    ensures Tokens(DetailsRest) == [Rate, Currency, Rate]
  {
    var ps := DetailsRest;
    TokensSplit(ps, 2);
    OneToken(ps[..2], 1);
    TokensSplit(ps[2..], 2);
    assert ps[2..][..2] == [Spaces(true), Group(Currency)];
    assert ps[2..][2..] == [Spaces(true), Group(Rate)];
    OneToken(ps[2..][..2], 1);
    OneToken(ps[2..][2..], 1);
  }

  /** The positions from which the pieces after the city match. */
  function RestStops(s: string, rest: seq<Piece>): (stops: set<nat>)
    ensures forall i: nat :: i in stops <==> i <= |s| && MatchPieces(s, i, rest).Some?
  {
    set i: nat | i <= |s| && MatchPieces(s, i, rest).Some?
  }

  /** The lazy `[A-Z0-9\- ]+?` followed by the rest of the pattern: the first end `e`
      of the city, from `e` on, at which the rest matches (a position in `stops`),
      the city extending one character at a time while the next character is a
      city character. */
  function CityEnd(s: string, e: nat, stops: set<nat>): (r: Option<nat>)
    requires e <= |s|
    ensures r.Some? ==> e <= r.value <= |s| && r.value in stops
    decreases |s| - e
  {
    if e in stops then Some(e)
    else if e < |s| && CityChar(s[e]) then CityEnd(s, e + 1, stops)
    else None
  }

  /** The city is as short as the rest of the pattern allows, and made of city
      characters. */
  lemma {:induction false} CityEndLazy(s: string, e: nat, stops: set<nat>)
    requires e <= |s| && CityEnd(s, e, stops).Some?
    ensures forall i :: e <= i < CityEnd(s, e, stops).value ==> CityChar(s[i])
    ensures forall i: nat :: e <= i < CityEnd(s, e, stops).value ==> i !in stops
    decreases |s| - e
  {
    if e !in stops {
      CityEndLazy(s, e + 1, stops);
    }
  }

  /** Where the city of a details match starting at `k` ends: an upper-case letter,
      at least one city character, then the lazy extension up to the rest. */
  function DetailsAt(s: string, k: nat, stops: set<nat>): (r: Option<nat>)
    requires k <= |s|
    ensures r.Some? ==> k + 2 <= r.value <= |s| && r.value in stops
    ensures r.Some? ==> 'A' <= s[k] <= 'Z' && forall i :: k < i < r.value ==> CityChar(s[i])
  {
    if k + 2 <= |s| && 'A' <= s[k] <= 'Z' && CityChar(s[k + 1]) then
      var r := CityEnd(s, k + 2, stops);
      if r.Some? then CityEndLazy(s, k + 2, stops); r else r
    else None
  }

  /** A details match starts at `k`. */
  predicate DetailsStart(s: string, k: nat, stops: set<nat>)
    requires k <= |s|
  {
    DetailsAt(s, k, stops).Some?
  }

  /** `re.search` from `k` on: the leftmost start of a details match. */
  function DetailsFrom(s: string, k: nat, stops: set<nat>): (r: Option<nat>)
    requires k <= |s|
    ensures r.Some? ==> k <= r.value <= |s| && DetailsStart(s, r.value, stops)
    ensures r.Some? ==> forall j :: k <= j < r.value ==> !DetailsStart(s, j, stops)
    ensures r.None? ==> forall j :: k <= j <= |s| ==> !DetailsStart(s, j, stops)
    decreases |s| - k
  {
    if DetailsStart(s, k, stops) then Some(k)
    else if k == |s| then None
    else DetailsFrom(s, k + 1, stops)
  }

  /** The city, the original amount and the currency of a purchase abroad, as the
      details line spells them. */
  datatype DetailsLine = DetailsLine(city: string, origAmount: string, currency: string)

  /** `INTL_DETAILS_PATTERN.search(line)` and its first three groups: the city as
      captured (not stripped), the original amount text and the currency code. */
  function IntlDetails(line: string): (r: Option<DetailsLine>)
    ensures r.Some? <==> exists k :: 0 <= k <= |line| && DetailsStart(line, k, RestStops(line, DetailsRest))
    ensures r.Some? ==> r.value.currency in Currencies
    ensures r.Some? ==> |r.value.city| >= 2 && 'A' <= r.value.city[0] <= 'Z'
    ensures r.Some? ==> forall i :: 0 < i < |r.value.city| ==> CityChar(r.value.city[i])
    ensures r.Some? ==> '-' !in r.value.origAmount
  {
    var stops := RestStops(line, DetailsRest);
    match DetailsFrom(line, 0, stops)
    case None => None
    case Some(k) =>
      var e := DetailsAt(line, k, stops).value;
      var m := MatchPieces(line, e, DetailsRest).value;
      MatchSpans(line, e, DetailsRest);
      DetailsRestTokens();
      var toks := [Rate, Currency, Rate];
      CaptureFacts(line, m.spans[0], Rate);
      assert Captured(line, m.spans[1], Currency);
      Some(DetailsLine(line[k..e], GroupText(line, m, toks, 0), GroupText(line, m, toks, 1)))
  }
}
