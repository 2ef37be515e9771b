/** The summary and header lookups read back what the statement prints: a line
    written the way the statement writes it, anywhere in a page and with no earlier
    match, gives back its own figure. */
module LookupReads {
  import opened Basics
  import opened Text
  import opened Money
  import opened Dates
  import opened Patterns
  import opened ItauPatterns
  import opened Spellings
  import AmountShape
  import DetailsRoundTrip
  import LineShapes
  import MainPass
  import IntlPass

  /** `w0\s*w1\s*...wk\s*` followed by `tail`: the shape every lookup pattern
      begins with. */
  function Phrase(words: seq<string>, tail: seq<Piece>): seq<Piece>
    decreases |words|
  {
    if |words| == 0 then tail else [Lit(words[0]), Spaces(false)] + Phrase(words[1..], tail)
  }

  /** The words of a phrase, each followed by its gap, one text per piece. */
  function PhraseTexts(words: seq<string>, gaps: seq<string>, tailTexts: seq<string>): seq<string>
    requires |gaps| == |words|
    decreases |words|
  {
    if |words| == 0 then tailTexts else [words[0], gaps[0]] + PhraseTexts(words[1..], gaps[1..], tailTexts)
  }

  /** The words of a phrase with their gaps, as one text. */
  function Joined(words: seq<string>, gaps: seq<string>): string
    requires |gaps| == |words|
    decreases |words|
  {
    if |words| == 0 then "" else words[0] + (gaps[0] + Joined(words[1..], gaps[1..]))
  }

  /** Words that begin with a character other than whitespace, each followed by a
      run of whitespace. */
  predicate Spaced(words: seq<string>, gaps: seq<string>) {
    && |gaps| == |words|
    && (forall i :: 0 <= i < |words| ==> |words[i]| > 0 && !IsSpace(words[i][0]))
    && (forall i :: 0 <= i < |gaps| ==> AllSpace(gaps[i]))
  }

  /** A text that begins with a character other than whitespace. */
  predicate Solid(t: string) {
    |t| > 0 && !IsSpace(t[0])
  }

  /** The rest of spaced words is spaced. */
  lemma SpacedRest(words: seq<string>, gaps: seq<string>)
    requires Spaced(words, gaps) && |words| > 0
    ensures Spaced(words[1..], gaps[1..]) && Solid(words[0]) && AllSpace(gaps[0])
  {
    forall i | 0 <= i < |words| - 1
      ensures |words[1..][i]| > 0 && !IsSpace(words[1..][i][0]) && AllSpace(gaps[1..][i])
    {
      assert words[1..][i] == words[i + 1] && gaps[1..][i] == gaps[i + 1];
    }
  }

  /** One word and its gap in front of a spelling that begins with a character
      other than whitespace. */
  lemma WordSpelling(w: string, g: string, ps: seq<Piece>, texts: seq<string>)
    requires Solid(w) && AllSpace(g) && Spelling(ps, texts) && Solid(Concat(texts))
    ensures Spelling([Lit(w), Spaces(false)] + ps, [w, g] + texts)
    ensures Concat([w, g] + texts) == w + (g + Concat(texts))
    ensures Solid(w + (g + Concat(texts)))
  {
    SpellingCons(Spaces(false), g, ps, texts);
    SpellingCons(Lit(w), w, [Spaces(false)] + ps, [g] + texts);
    assert [Lit(w)] + ([Spaces(false)] + ps) == [Lit(w), Spaces(false)] + ps;
    assert [w] + ([g] + texts) == [w, g] + texts;
    assert (w + (g + Concat(texts)))[0] == w[0];
  }

  /** Spaced words in front of a spelled tail spell the whole phrase. */
  lemma {:induction false} PhraseSpelling(words: seq<string>, gaps: seq<string>, tail: seq<Piece>, tailTexts: seq<string>)
    requires Spaced(words, gaps) && Spelling(tail, tailTexts) && Solid(Concat(tailTexts))
    ensures Spelling(Phrase(words, tail), PhraseTexts(words, gaps, tailTexts))
    ensures Concat(PhraseTexts(words, gaps, tailTexts)) == Joined(words, gaps) + Concat(tailTexts)
    ensures Solid(Concat(PhraseTexts(words, gaps, tailTexts)))
    decreases |words|
  {
    if |words| > 0 {
      var w, g := words[0], gaps[0];
      var texts, rest := PhraseTexts(words[1..], gaps[1..], tailTexts), Joined(words[1..], gaps[1..]);
      SpacedRest(words, gaps);
      PhraseSpelling(words[1..], gaps[1..], tail, tailTexts);
      WordSpelling(w, g, Phrase(words[1..], tail), texts);
      assert w + (g + (rest + Concat(tailTexts))) == w + (g + rest) + Concat(tailTexts);
    }
  }

  /** A phrase's own pieces carry no group. */
  lemma {:induction false} PhraseTokens(words: seq<string>, tail: seq<Piece>)
    ensures Tokens(Phrase(words, tail)) == Tokens(tail)
    decreases |words|
  {
    if |words| > 0 {
      PhraseTokens(words[1..], tail);
      assert Phrase(words, tail)[1..][1..] == Phrase(words[1..], tail);
    }
  }

  /** The groups of a phrase read the texts of its tail's groups. */
  lemma {:induction false} PhraseGroups(words: seq<string>, gaps: seq<string>, tail: seq<Piece>, tailTexts: seq<string>)
    requires |gaps| == |words| && |tailTexts| == |tail|
    ensures |PhraseTexts(words, gaps, tailTexts)| == |Phrase(words, tail)|
    ensures GroupTexts(Phrase(words, tail), PhraseTexts(words, gaps, tailTexts)) == GroupTexts(tail, tailTexts)
    decreases |words|
  {
    if |words| > 0 {
      PhraseGroups(words[1..], gaps[1..], tail, tailTexts);
      assert Phrase(words, tail)[1..][1..] == Phrase(words[1..], tail);
      assert PhraseTexts(words, gaps, tailTexts)[1..][1..] == PhraseTexts(words[1..], gaps[1..], tailTexts);
    }
  }

  /** A spelled line inside a page, with no earlier match: the one group of the
      pattern reads the line's text for it. */
  lemma LineReads(u: string, ps: seq<Piece>, tok: Token, texts: seq<string>, v: string)
    requires Tokens(ps) == [tok] && Spelling(ps, texts)
    requires NoMatchBefore(u + Concat(texts) + v, ps, |u|)
    ensures FindOne(u + Concat(texts) + v, ps, tok) == Some(GroupTexts(ps, texts)[0])
  {
    AmountShape.PlacedAfter(u, Concat(texts), v);
    FindOneReads(u + Concat(texts) + v, ps, tok, texts, |u|);
  }

  /** A phrase in front of a spelled tail with one group: the group reads its text. */
  lemma PhraseReads(u: string, words: seq<string>, gaps: seq<string>, tail: seq<Piece>,
                    tailTexts: seq<string>, tok: Token, v: string)
    requires Spaced(words, gaps) && Spelling(tail, tailTexts) && Solid(Concat(tailTexts))
    requires Tokens(tail) == [tok]
    requires NoMatchBefore(u + (Joined(words, gaps) + Concat(tailTexts)) + v, Phrase(words, tail), |u|)
    ensures Tokens(Phrase(words, tail)) == [tok]
    ensures FindOne(u + (Joined(words, gaps) + Concat(tailTexts)) + v, Phrase(words, tail), tok)
         == Some(GroupTexts(tail, tailTexts)[0])
  {
    var ps, texts := Phrase(words, tail), PhraseTexts(words, gaps, tailTexts);
    PhraseSpelling(words, gaps, tail, tailTexts);
    PhraseTokens(words, tail);
    PhraseGroups(words, gaps, tail, tailTexts);
    LineReads(u, ps, tok, texts, v);
  }

  /** A phrase in front of a spelled tail, with no earlier match: the leftmost
      match's `i`-th group captures the tail's `i`-th group text. */
  lemma PhraseCaptures(u: string, words: seq<string>, gaps: seq<string>, tail: seq<Piece>,
                       tailTexts: seq<string>, v: string, i: nat)
    requires Spaced(words, gaps) && Spelling(tail, tailTexts) && Solid(Concat(tailTexts))
    requires NoMatchBefore(u + (Joined(words, gaps) + Concat(tailTexts)) + v, Phrase(words, tail), |u|)
    requires i < |GroupTexts(tail, tailTexts)|
    ensures LeftmostCapture(u + (Joined(words, gaps) + Concat(tailTexts)) + v, Phrase(words, tail), i,
                            GroupTexts(tail, tailTexts)[i])
  {
    var s := u + (Joined(words, gaps) + Concat(tailTexts)) + v;
    var ps, texts := Phrase(words, tail), PhraseTexts(words, gaps, tailTexts);
    PhraseSpelling(words, gaps, tail, tailTexts);
    PhraseGroups(words, gaps, tail, tailTexts);
    AmountShape.PlacedAfter(u, Concat(texts), v);
    SpelledMatch(s, |u|, ps, texts);
    FindAt(s, ps, |u|);
  }

  /** A phrase followed directly by a token's text: the token reads the text. */
  lemma PhraseTokenReads(u: string, words: seq<string>, gaps: seq<string>, tok: Token, t: string, v: string)
    requires Spaced(words, gaps) && TokenSpelling(tok, t) && Solid(t)
    requires NoMatchBefore(u + (Joined(words, gaps) + t) + v, Phrase(words, [Group(tok)]), |u|)
    ensures Tokens(Phrase(words, [Group(tok)])) == [tok]
    ensures FindOne(u + (Joined(words, gaps) + t) + v, Phrase(words, [Group(tok)]), tok) == Some(t)
  {
    SpellingLast(Group(tok), t);
    assert Tokens([Group(tok)]) == [tok] && GroupTexts([Group(tok)], [t]) == [t];
    PhraseReads(u, words, gaps, [Group(tok)], [t], tok, v);
  }

  /** The tail `last\s+(token)` spelled with one space. */
  lemma WordTokenTail(last: string, tok: Token, t: string)
    requires Solid(last) && TokenSpelling(tok, t) && Solid(t)
    ensures var tail, tailTexts := [Lit(last), Spaces(true), Group(tok)], [last, " ", t];
      && Spelling(tail, tailTexts) && Concat(tailTexts) == last + " " + t && Solid(Concat(tailTexts))
      && Tokens(tail) == [tok] && GroupTexts(tail, tailTexts) == [t]
  {
    var tail, tailTexts := [Lit(last), Spaces(true), Group(tok)], [last, " ", t];
    SpellingLast(Group(tok), t);
    SpellingCons(Spaces(true), " ", [Group(tok)], [t]);
    SpellingCons(Lit(last), last, [Spaces(true), Group(tok)], [" ", t]);
    assert [Lit(last)] + [Spaces(true), Group(tok)] == tail;
    assert [last] + [" ", t] == tailTexts;
    assert Concat(tailTexts) == last + (" " + t) == last + " " + t;
    assert (last + " " + t)[0] == last[0];
    assert tail[1..][1..] == [Group(tok)] && tailTexts[1..][1..] == [t];
    assert Tokens(tail) == Tokens([Group(tok)]) == [tok];
    assert GroupTexts(tail, tailTexts) == GroupTexts([Group(tok)], [t]) == [t];
  }

  /** A phrase, a last word, one space and a token's text: the token reads the text. */
  lemma PhraseWordTokenReads(u: string, words: seq<string>, gaps: seq<string>, last: string,
                             tok: Token, t: string, v: string)
    requires Spaced(words, gaps) && Solid(last) && TokenSpelling(tok, t) && Solid(t)
    requires NoMatchBefore(u + (Joined(words, gaps) + (last + " ") + t) + v,
                           Phrase(words, [Lit(last), Spaces(true), Group(tok)]), |u|)
    ensures Tokens(Phrase(words, [Lit(last), Spaces(true), Group(tok)])) == [tok]
    ensures FindOne(u + (Joined(words, gaps) + (last + " ") + t) + v,
                    Phrase(words, [Lit(last), Spaces(true), Group(tok)]), tok) == Some(t)
  {
    WordTokenTail(last, tok, t);
    assert Joined(words, gaps) + (last + " ") + t == Joined(words, gaps) + (last + " " + t);
    PhraseReads(u, words, gaps, [Lit(last), Spaces(true), Group(tok)], [last, " ", t], tok, v);
  }

  /** The card line `final NNNN`. */
  function CardLine(digits: string): string {
    "final " + digits
  }

  /** The literal words of the pattern, and how the statement spaces them. */
  lemma CardWords()
    ensures CardFinalPattern == Phrase(["final"], [Group(Digits(4))])
    ensures Spaced(["final"], [" "]) && Joined(["final"], [" "]) == "final "
  {
  }

  /** A card number printed as `final NNNN` reads back as its four digits. */
  lemma CardFinalReads(u: string, digits: string, v: string)
    requires |digits| == 4 && AllDigits(digits)
    requires NoMatchBefore(u + CardLine(digits) + v, CardFinalPattern, |u|)
    ensures CardFinal(u + CardLine(digits) + v) == Some(digits)
  {
    var words, gaps := ["final"], [" "];
    CardWords();
    assert CardLine(digits) == Joined(words, gaps) + digits;
    PhraseTokenReads(u, words, gaps, Digits(4), digits, v);
  }

  /** A card header holding `final NNNN`, with no earlier match, makes `NNNN` the
      current card and closes the future-installments section. */
  lemma CardHeaderSetsCard(u: string, digits: string, v: string, st: MainPass.PassState)
    requires |digits| == 4 && AllDigits(digits)
    requires NoMatchBefore(u + CardLine(digits) + v, CardFinalPattern, |u|)
    ensures MainPass.Update(MainPass.CardHeader, u + CardLine(digits) + v, st)
         == st.(card := Some(digits), inFuture := false)
  {
    CardFinalReads(u, digits, v);
  }

  /** The due date line `Vencimento: DD/MM/YYYY`. */
  function DueLine(d: Date): string
    requires ValidDate(d)
  {
    "Vencimento: " + FullDateText(d)
  }

  /** The literal words of the pattern, and how the statement spaces them. */
  lemma DueWords()
    ensures DueDatePattern == Phrase(["Vencimento", ":"], [Group(FullDate)])
    ensures Spaced(["Vencimento", ":"], ["", " "]) && Joined(["Vencimento", ":"], ["", " "]) == "Vencimento: "
  {
  }

  /** A due date printed as `Vencimento: DD/MM/YYYY` reads back as that date text. */
  lemma DueDateReads(u: string, d: Date, v: string)
    requires ValidDate(d)
    requires NoMatchBefore(u + DueLine(d) + v, DueDatePattern, |u|)
    ensures DueDate(u + DueLine(d) + v) == Some(FullDateText(d))
  {
    var words, gaps, x := ["Vencimento", ":"], ["", " "], FullDateText(d);
    DueWords();
    FullDateTextShape(d);
    assert IsDigit(x[..2][0]);
    assert DueLine(d) == Joined(words, gaps) + x;
    PhraseTokenReads(u, words, gaps, FullDate, x, v);
  }

  /** The issue date line `Emissão: DD/MM/YYYY`. */
  function IssuedLine(d: Date): string
    requires ValidDate(d)
  {
    "Emissão: " + FullDateText(d)
  }

  /** The literal words of the pattern, and how the statement spaces them. */
  lemma IssuedWords()
    ensures StatementDatePattern == Phrase(["Emissão", ":"], [Group(FullDate)])
    ensures Spaced(["Emissão", ":"], ["", " "]) && Joined(["Emissão", ":"], ["", " "]) == "Emissão: "
  {
  }

  /** An issue date printed as `Emissão: DD/MM/YYYY` reads back as that date text. */
  lemma StatementDateReads(u: string, d: Date, v: string)
    requires ValidDate(d)
    requires NoMatchBefore(u + IssuedLine(d) + v, StatementDatePattern, |u|)
    ensures StatementDate(u + IssuedLine(d) + v) == Some(FullDateText(d))
  {
    var words, gaps, x := ["Emissão", ":"], ["", " "], FullDateText(d);
    IssuedWords();
    FullDateTextShape(d);
    assert IsDigit(x[..2][0]);
    assert IssuedLine(d) == Joined(words, gaps) + x;
    PhraseTokenReads(u, words, gaps, FullDate, x, v);
  }

  /** A summary amount as printed: a credit carries a bare `-`. */
  lemma SummaryAmountSpelling(cents: int)
    ensures var t := AmountText(Sign.OptionalMinus, cents);
      TokenSpelling(SummaryAmount, t) && Solid(t)
  {
    var t := AmountText(Sign.OptionalMinus, cents);
    assert AmountSpelling(Sign.OptionalMinus, t);
    LineShapes.FormatFirst(cents);
  }

  /** The IOF line `Repasse de IOF em R$ <amount>`. */
  function IofLine(cents: int): string {
    "Repasse de IOF em R$ " + AmountText(Sign.OptionalMinus, cents)
  }

  /** The literal words of the pattern, and how the statement spaces them. */
  lemma IofWords()
    ensures IofPattern == Phrase(["Repasse", "de", "IOF", "em", "R", "$"], [Group(SummaryAmount)])
  {
  }

  /** How the statement spaces the words of the IOF line. */
  lemma IofSpaced()
    ensures Spaced(["Repasse", "de", "IOF", "em", "R", "$"], [" ", " ", " ", " ", "", " "])
  {
  }

  /** The words of the IOF line, spaced, as one text. */
  lemma IofJoined()
    ensures Joined(["Repasse", "de", "IOF", "em", "R", "$"], [" ", " ", " ", " ", "", " "]) == "Repasse de IOF em R$ "
  {
  }

  /** The IOF charge printed on its line reads back as its amount text. */
  lemma IofAmountReads(u: string, cents: int, v: string)
    requires NoMatchBefore(u + IofLine(cents) + v, IofPattern, |u|)
    ensures IofAmount(u + IofLine(cents) + v) == Some(AmountText(Sign.OptionalMinus, cents))
  {
    var words, gaps := ["Repasse", "de", "IOF", "em", "R", "$"], [" ", " ", " ", " ", "", " "];
    IofWords();
    IofSpaced();
    IofJoined();
    var t := AmountText(Sign.OptionalMinus, cents);
    SummaryAmountSpelling(cents);
    assert IofLine(cents) == Joined(words, gaps) + t;
    PhraseTokenReads(u, words, gaps, SummaryAmount, t, v);
  }

  /** Inside the section, the printed IOF line hands its amount to the statement
      and changes nothing else. */
  lemma IofLineSetsIof(u: string, cents: int, v: string, year: int, st: IntlPass.IntlState)
    requires NoMatchBefore(u + IofLine(cents) + v, IofPattern, |u|)
    ensures IntlPass.IntlAct(IntlPass.Iof, u + IofLine(cents) + v, year, st) == IntlPass.IntlOut(None, Some(cents), st)
  {
    IofAmountReads(u, cents, v);
    AmountTextReads(Sign.OptionalMinus, cents);
  }

  /** The exchange rate line `Dólar de Conversão R$ <rate>`. */
  function RateLine(cents: nat): string {
    "Dólar de Conversão R$ " + DetailsRoundTrip.RateText(cents)
  }

  /** The literal words of the pattern, and how the statement spaces them. */
  lemma RateWords()
    ensures ExchangeRatePattern == Phrase(["Dólar", "de", "Conversão", "R", "$"], [Group(Rate)])
  {
  }

  /** How the statement spaces the words of the exchange rate line. */
  lemma RateSpaced()
    ensures Spaced(["Dólar", "de", "Conversão", "R", "$"], [" ", " ", " ", "", " "])
  {
  }

  /** The words of the exchange rate line, spaced, as one text. */
  lemma RateJoined()
    ensures Joined(["Dólar", "de", "Conversão", "R", "$"], [" ", " ", " ", "", " "]) == "Dólar de Conversão R$ "
  {
  }

  /** The exchange rate printed on its line reads back as its rate text. */
  lemma ExchangeRateReads(u: string, cents: nat, v: string)
    requires NoMatchBefore(u + RateLine(cents) + v, ExchangeRatePattern, |u|)
    ensures ExchangeRate(u + RateLine(cents) + v) == Some(DetailsRoundTrip.RateText(cents))
  {
    var words, gaps := ["Dólar", "de", "Conversão", "R", "$"], [" ", " ", " ", "", " "];
    RateWords();
    RateSpaced();
    RateJoined();
    var t := DetailsRoundTrip.RateText(cents);
    DetailsRoundTrip.RateTextShape(cents);
    assert RateLine(cents) == Joined(words, gaps) + t;
    PhraseTokenReads(u, words, gaps, Rate, t, v);
  }

  /** With a purchase pending, the printed rate line records its rate on the
      purchase, finalizes it and clears it. */
  lemma RateLineSetsRate(u: string, cents: nat, v: string, st: IntlPass.IntlState)
    requires st.pending.Some?
    requires NoMatchBefore(u + RateLine(cents) + v, ExchangeRatePattern, |u|)
    ensures IntlPass.RateLine(u + RateLine(cents) + v, st)
         == IntlPass.IntlOut(Some(IntlPass.Finalize(st.pending.value.(exchangeRate := Some(cents)))), None,
                             st.(pending := None))
  {
    ExchangeRateReads(u, cents, v);
    DetailsRoundTrip.RateTextReads(cents);
  }

  /** The total line `Total desta fatura <amount>`. */
  function TotalLine(cents: int): string {
    "Total desta fatura " + AmountText(Sign.OptionalMinus, cents)
  }

  /** The literal words of the pattern, and how the statement spaces them. */
  lemma TotalWords()
    ensures TotalFaturaPattern == Phrase(["Total", "desta"], [Lit("fatura"), Spaces(true), Group(SummaryAmount)])
  {
  }

  /** How the statement spaces the words of the total line, as one text. */
  lemma TotalJoined()
    ensures Spaced(["Total", "desta"], [" ", " "])
    ensures Joined(["Total", "desta"], [" ", " "]) + ("fatura" + " ") == "Total desta fatura "
  {
  }

  /** The statement total printed on its line reads back as its amount text. */
  lemma TotalFaturaReads(u: string, cents: int, v: string)
    requires NoMatchBefore(u + TotalLine(cents) + v, TotalFaturaPattern, |u|)
    ensures TotalFatura(u + TotalLine(cents) + v) == Some(AmountText(Sign.OptionalMinus, cents))
  {
    var words, gaps := ["Total", "desta"], [" ", " "];
    TotalWords();
    TotalJoined();
    var t := AmountText(Sign.OptionalMinus, cents);
    SummaryAmountSpelling(cents);
    assert TotalLine(cents) == Joined(words, gaps) + ("fatura" + " ") + t;
    PhraseWordTokenReads(u, words, gaps, "fatura", SummaryAmount, t, v);
  }

  /** The previous balance line `Total da fatura anterior <amount>`. */
  function PreviousLine(cents: int): string {
    "Total da fatura anterior " + AmountText(Sign.OptionalMinus, cents)
  }

  /** The literal words of the pattern, and how the statement spaces them. */
  lemma PreviousWords()
    ensures PreviousBalancePattern == Phrase(["Total", "da", "fatura"], [Lit("anterior"), Spaces(true), Group(SummaryAmount)])
  {
  }

  /** How the statement spaces the words of the previous balance line. */
  lemma PreviousSpaced()
    ensures Spaced(["Total", "da", "fatura"], [" ", " ", " "])
  {
  }

  /** The words of the previous balance line, spaced, as one text. */
  lemma PreviousJoined()
    ensures Joined(["Total", "da", "fatura"], [" ", " ", " "]) + ("anterior" + " ") == "Total da fatura anterior "
  {
  }

  /** The previous balance printed on its line reads back as its amount text. */
  lemma PreviousBalanceReads(u: string, cents: int, v: string)
    requires NoMatchBefore(u + PreviousLine(cents) + v, PreviousBalancePattern, |u|)
    ensures PreviousBalance(u + PreviousLine(cents) + v) == Some(AmountText(Sign.OptionalMinus, cents))
  {
    var words, gaps := ["Total", "da", "fatura"], [" ", " ", " "];
    PreviousWords();
    PreviousSpaced();
    PreviousJoined();
    var t := AmountText(Sign.OptionalMinus, cents);
    SummaryAmountSpelling(cents);
    assert PreviousLine(cents) == Joined(words, gaps) + ("anterior" + " ") + t;
    PhraseWordTokenReads(u, words, gaps, "anterior", SummaryAmount, t, v);
  }

  /** The current charges line `Lançamentos atuais <amount>`. */
  function ChargesLine(cents: int): string {
    "Lançamentos atuais " + AmountText(Sign.OptionalMinus, cents)
  }

  /** The literal words of the pattern, and how the statement spaces them. */
  lemma ChargesWords()
    ensures CurrentChargesPattern == Phrase(["Lançamentos"], [Lit("atuais"), Spaces(true), Group(SummaryAmount)])
    ensures Spaced(["Lançamentos"], [" "])
    ensures Joined(["Lançamentos"], [" "]) + ("atuais" + " ") == "Lançamentos atuais "
  {
  }

  /** The current charges printed on their line read back as their amount text. */
  lemma CurrentChargesReads(u: string, cents: int, v: string)
    requires NoMatchBefore(u + ChargesLine(cents) + v, CurrentChargesPattern, |u|)
    ensures CurrentCharges(u + ChargesLine(cents) + v) == Some(AmountText(Sign.OptionalMinus, cents))
  {
    var words, gaps := ["Lançamentos"], [" "];
    ChargesWords();
    var t := AmountText(Sign.OptionalMinus, cents);
    SummaryAmountSpelling(cents);
    assert ChargesLine(cents) == Joined(words, gaps) + ("atuais" + " ") + t;
    PhraseWordTokenReads(u, words, gaps, "atuais", SummaryAmount, t, v);
  }

  /** The payment line `Pagamento efetuado em DD/MM/YYYY<sep><amount>`, with a
      separator of dashes and whitespace. */
  function PaymentLine(d: Date, sep: string, cents: int): string
    requires ValidDate(d)
  {
    "Pagamento efetuado em " + FullDateText(d) + sep + FormatBrl(cents)
  }

  /** A separator the payment pattern's `\s*[-\s]+` takes in full. */
  predicate PaymentSeparator(sep: string) {
    |sep| > 0 && forall i :: 0 <= i < |sep| ==> sep[i] == '-' || IsSpace(sep[i])
  }

  /** The pieces after the literal words of the payment pattern. */
  const PaymentTail: seq<Piece> := [Group(FullDate), DashesOrSpaces, Group(Amount(Sign.Unsigned, true))]

  /** The literal words of the pattern. */
  lemma PaymentWords()
    ensures PaymentPattern == Phrase(["Pagamento", "efetuado", "em"], PaymentTail)
  {
  }

  /** How the statement spaces the words of the payment line, as one text. */
  lemma PaymentJoined()
    ensures Spaced(["Pagamento", "efetuado", "em"], [" ", " ", " "])
    ensures Joined(["Pagamento", "efetuado", "em"], [" ", " ", " "]) == "Pagamento efetuado em "
  {
  }

  /** The paid amount as the payment pattern's unsigned amount spells it. */
  lemma PaidSpelling(a: string, cents: int)
    requires cents >= 0 && a == FormatBrl(cents)
    ensures TokenSpelling(Amount(Sign.Unsigned, true), a) && Solid(a) && a[0] != '-'
  {
    assert a == AmountText(Sign.Unsigned, cents);
    assert AmountSpelling(Sign.Unsigned, a);
    LineShapes.FormatFirst(cents);
  }

  /** The date, separator and paid amount spell the payment pattern's tail. */
  lemma PaymentTailSpelling(x: string, sep: string, a: string, cents: int)
    requires FullDateShape(x) && PaymentSeparator(sep) && cents >= 0 && a == FormatBrl(cents)
    ensures Spelling(PaymentTail, [x, sep, a]) && Concat([x, sep, a]) == x + (sep + a)
  {
    var amount := Amount(Sign.Unsigned, true);
    PaidSpelling(a, cents);
    SpellingLast(Group(amount), a);
    SpellingCons(DashesOrSpaces, sep, [Group(amount)], [a]);
    SpellingCons(Group(FullDate), x, [DashesOrSpaces, Group(amount)], [sep, a]);
    assert [Group(FullDate)] + [DashesOrSpaces, Group(amount)] == PaymentTail;
    assert [x] + [sep, a] == [x, sep, a];
  }

  /** The payment pattern's tail captures the date and the amount. */
  lemma PaymentTailGroups(x: string, sep: string, a: string)
    ensures GroupTexts(PaymentTail, [x, sep, a]) == [x, a]
  {
    var amount := Amount(Sign.Unsigned, true);
    assert PaymentTail[1..][1..] == [Group(amount)] && [x, sep, a][1..][1..] == [a];
    assert GroupTexts(PaymentTail, [x, sep, a]) == [x] + GroupTexts([Group(amount)], [a]);
  }

  /** The payment line splits into the pattern's words and its tail's texts. */
  lemma PaymentLineParts(d: Date, sep: string, cents: int)
    requires ValidDate(d)
    ensures var x, a := FullDateText(d), FormatBrl(cents);
      PaymentLine(d, sep, cents) == Joined(["Pagamento", "efetuado", "em"], [" ", " ", " "]) + (x + (sep + a))
  {
    var x, a := FullDateText(d), FormatBrl(cents);
    PaymentJoined();
    assert "Pagamento efetuado em " + x + sep + a == "Pagamento efetuado em " + (x + (sep + a));
  }

  /** In a page holding a payment line with no earlier match, the leftmost match
      captures the line's date text and amount text. */
  lemma PaymentCaptured(u: string, d: Date, sep: string, cents: int, v: string)
    requires ValidDate(d) && PaymentSeparator(sep) && cents >= 0
    requires NoMatchBefore(u + PaymentLine(d, sep, cents) + v, PaymentPattern, |u|)
    ensures LeftmostCapture(u + PaymentLine(d, sep, cents) + v, PaymentPattern, 0, FullDateText(d))
    ensures LeftmostCapture(u + PaymentLine(d, sep, cents) + v, PaymentPattern, 1, FormatBrl(cents))
  {
    var words, gaps, x, a := ["Pagamento", "efetuado", "em"], [" ", " ", " "], FullDateText(d), FormatBrl(cents);
    var texts := [x, sep, a];
    PaymentWords();
    PaymentJoined();
    FullDateTextShape(d);
    assert IsDigit(x[..2][0]);
    PaymentTailSpelling(x, sep, a, cents);
    PaymentTailGroups(x, sep, a);
    PaymentLineParts(d, sep, cents);
    assert Solid(Concat(texts)) by {
      assert (x + (sep + a))[0] == x[0];
    }
    PhraseCaptures(u, words, gaps, PaymentTail, texts, v, 0);
    PhraseCaptures(u, words, gaps, PaymentTail, texts, v, 1);
  }

  /** The payment lookup returns the texts its two groups capture. */
  lemma PaymentOfCaptures(s: string, x: string, a: string)
    requires LeftmostCapture(s, PaymentPattern, 0, x) && LeftmostCapture(s, PaymentPattern, 1, a)
    ensures Payment(s) == Some(PaymentSplit(x, a))
  {
  }

  /** A payment printed on its line reads back as its date text and amount text. */
  lemma PaymentReads(u: string, d: Date, sep: string, cents: int, v: string)
    requires ValidDate(d) && PaymentSeparator(sep) && cents >= 0
    requires NoMatchBefore(u + PaymentLine(d, sep, cents) + v, PaymentPattern, |u|)
    ensures Payment(u + PaymentLine(d, sep, cents) + v) == Some(PaymentSplit(FullDateText(d), FormatBrl(cents)))
  {
    PaymentCaptured(u, d, sep, cents, v);
    PaymentOfCaptures(u + PaymentLine(d, sep, cents) + v, FullDateText(d), FormatBrl(cents));
  }
}
