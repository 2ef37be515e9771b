/** Texts that a pattern reads whole: for each piece of a pattern, a text the piece
    consumes exactly, whatever follows the last one. Laid out one after another
    anywhere in a subject, such texts make the pattern match there, and each group
    captures its own text. */
module Spellings {
  import opened Basics
  import opened Text
  import opened Money
  import opened Dates
  import opened Patterns
  import opened ItauPatterns
  import opened AmountShape
  import DetailsRoundTrip

  /** The texts of a sequence, one after another. */
  function Concat(texts: seq<string>): string
    decreases |texts|
  {
    if |texts| == 0 then "" else texts[0] + Concat(texts[1..])
  }

  /** An amount the way the statement prints it, with a bare `-` in front of a
      credit where the token allows only `-?` and no space after it. */
  function AmountText(sign: Sign, cents: int): string {
    if cents < 0 && sign == Sign.OptionalMinus then "-" + FormatBrl(-cents) else FormatBrl(cents)
  }

  /** A printed amount the token reads: any amount, or a non-negative one for an
      unsigned token. */
  ghost predicate AmountSpelling(sign: Sign, t: string) {
    exists cents: int :: (sign != Sign.Unsigned || cents >= 0) && t == AmountText(sign, cents)
  }

  /** `t` is a text the token accepts in full. */
  ghost predicate TokenSpelling(tok: Token, t: string) {
    match tok
    case Digits(n) => |t| == n && AllDigits(t)
    case DayMonth => DayMonthShape(t)
    case FullDate => FullDateShape(t)
    case Rate => DetailsRoundTrip.RateShape(t)
    case Amount(sign, _) => AmountSpelling(sign, t)
    case Currency => t in Currencies
  }

  /** `t` is a text the piece consumes in full when `next` follows it: a run of
      whitespace or dashes must stop where `next` begins. */
  ghost predicate PieceSpelling(piece: Piece, t: string, next: string) {
    match piece
    case Lit(x) => t == x
    case Spaces(one) => (one ==> |t| > 0) && AllSpace(t) && |next| > 0 && !IsSpace(next[0])
    case DashesOrSpaces =>
      && |t| > 0 && (forall i :: 0 <= i < |t| ==> t[i] == '-' || IsSpace(t[i]))
      && |next| > 0 && next[0] != '-' && !IsSpace(next[0])
    case Group(tok) => TokenSpelling(tok, t)
  }

  /** One text per piece, each consumed in full by its piece. */
  ghost predicate Spelling(ps: seq<Piece>, texts: seq<string>)
    decreases |ps|
  {
    && |texts| == |ps|
    && (|ps| > 0 ==> PieceSpelling(ps[0], texts[0], Concat(texts[1..])) && Spelling(ps[1..], texts[1..]))
  }

  /** The texts of the group pieces, in order. */
  function GroupTexts(ps: seq<Piece>, texts: seq<string>): (r: seq<string>)
    requires |texts| == |ps|
    ensures |r| == |Tokens(ps)|
    decreases |ps|
  {
    if |ps| == 0 then []
    else if ps[0].Group? then [texts[0]] + GroupTexts(ps[1..], texts[1..])
    else GroupTexts(ps[1..], texts[1..])
  }

  predicate SpansWithin(s: string, spans: seq<Span>) {
    forall i :: 0 <= i < |spans| ==> spans[i].start <= spans[i].end <= |s|
  }

  /** The texts the spans cover. */
  function SpanTexts(s: string, spans: seq<Span>): (r: seq<string>)
    requires SpansWithin(s, spans)
    ensures |r| == |spans|
    ensures forall i :: 0 <= i < |spans| ==> r[i] == s[spans[i].start..spans[i].end]
    decreases |spans|
  {
    if |spans| == 0 then []
    else
      assert SpansWithin(s, spans[1..]) by {
        forall i | 0 <= i < |spans| - 1
          ensures spans[1..][i].start <= spans[1..][i].end <= |s|
        {
          assert spans[1..][i] == spans[i + 1];
        }
      }
      [s[spans[0].start..spans[0].end]] + SpanTexts(s, spans[1..])
  }

  /** A placed text is the slice of the subject where it is placed. */
  lemma PlacedText(s: string, q: nat, t: string)
    requires Placed(s, q, t)
    ensures s[q..q + |t|] == t
  {
    forall i | 0 <= i < |t|
      ensures s[q..q + |t|][i] == t[i]
    {
      PlacedChar(s, q, t, i);
    }
  }

  /** `SpaceRun` counts exactly the whitespace present. */
  lemma {:induction false} SpaceRunExact(s: string, p: nat, n: nat)
    requires p + n <= |s|
    requires forall i :: p <= i < p + n ==> IsSpace(s[i])
    requires p + n < |s| ==> !IsSpace(s[p + n])
    ensures SpaceRun(s, p) == n
    decreases n
  {
    if n > 0 {
      SpaceRunExact(s, p + 1, n - 1);
    }
  }

  /** `DashRun` counts exactly the dashes and whitespace present. */
  lemma {:induction false} DashRunExact(s: string, p: nat, n: nat)
    requires p + n <= |s|
    requires forall i :: p <= i < p + n ==> s[i] == '-' || IsSpace(s[i])
    requires p + n < |s| ==> s[p + n] != '-' && !IsSpace(s[p + n])
    ensures DashRun(s, p) == n
    decreases n
  {
    if n > 0 {
      DashRunExact(s, p + 1, n - 1);
    }
  }

  /** A digit field of a placed text is a run of exactly that many digits. */
  lemma PlacedRun(s: string, p: nat, t: string, i: nat, n: nat)
    requires Placed(s, p, t) && i + n <= |t|
    requires forall k :: i <= k < i + n ==> IsDigit(t[k])
    ensures DigitRun(s, p + i, n) == n
  {
    forall k | p + i <= k < p + i + n
      ensures IsDigit(s[k])
    {
      PlacedChar(s, p, t, k - p);
    }
    DigitRunExact(s, p + i, n, n);
  }

  /** A placed date of either shape is a date token. */
  lemma DateScans(s: string, p: nat, t: string, full: bool)
    requires Placed(s, p, t)
    requires if full then FullDateShape(t) else DayMonthShape(t)
    ensures DateEnd(s, p, full) == Some(p + |t|)
  {
    assert IsDigit(t[..2][0]) && IsDigit(t[..2][1]);
    if full {
      assert IsDigit(t[3..5][0]) && IsDigit(t[3..5][1]);
    } else {
      assert IsDigit(t[3..][0]) && IsDigit(t[3..][1]);
    }
    PlacedRun(s, p, t, 0, 2);
    PlacedRun(s, p, t, 3, 2);
    PlacedChar(s, p, t, 2);
    if full {
      assert forall k :: 0 <= k < 4 ==> t[6..][k] == t[6 + k];
      PlacedRun(s, p, t, 6, 4);
      PlacedChar(s, p, t, 5);
    }
  }

  /** A placed non-negative amount is a number with no sign in front. */
  lemma UnmarkedNumberScans(s: string, q: nat, cents: int, anySpace: bool)
    requires cents >= 0 && Placed(s, q, FormatBrl(cents))
    ensures IsDigit(s[q]) && NumberEnd(s, q, anySpace) == Some(q + |FormatBrl(cents)|)
  {
    var neg, lead, tail, frac := FormatParts(cents);
    assert CreditMark(neg) == "";
    assert FormatBrl(cents) == lead + (tail + ("," + frac));
    NumberScans(s, q, lead, tail, frac, anySpace);
  }

  /** A placed amount text is one amount token of its sign. */
  lemma AmountScans(s: string, p: nat, sign: Sign, anySpace: bool, cents: int)
    requires sign != Sign.Unsigned || cents >= 0
    requires Placed(s, p, AmountText(sign, cents))
    ensures AmountEnd(s, p, sign, anySpace) == Some(p + |AmountText(sign, cents)|)
  {
    var t := AmountText(sign, cents);
    if sign == Sign.OptionalMinusSpaces {
      assert t == FormatBrl(cents);
      PlacedAmountScans(s, p, cents, anySpace);
    } else if cents >= 0 {
      assert t == FormatBrl(cents);
      UnsignedAmountScans(s, p, sign, anySpace, cents);
    } else {
      assert t == "-" + FormatBrl(-cents) && sign == Sign.OptionalMinus;
      MinusAmountScans(s, p, anySpace, cents);
    }
  }

  /** A non-negative amount scans with no sign, whichever sign the token allows. */
  lemma UnsignedAmountScans(s: string, p: nat, sign: Sign, anySpace: bool, cents: int)
    requires cents >= 0 && Placed(s, p, FormatBrl(cents))
    ensures AmountEnd(s, p, sign, anySpace) == Some(p + |FormatBrl(cents)|)
  {
    UnmarkedNumberScans(s, p, cents, anySpace);
    assert SignEnd(s, p, sign) == p;
  }

  /** A credit written `-1.234,56` scans as the minus and the number after it. */
  lemma MinusAmountScans(s: string, p: nat, anySpace: bool, cents: int)
    requires cents < 0 && Placed(s, p, "-" + FormatBrl(-cents))
    ensures AmountEnd(s, p, Sign.OptionalMinus, anySpace) == Some(p + 1 + |FormatBrl(-cents)|)
  {
    PlacedSplit(s, p, "-", FormatBrl(-cents));
    PlacedChar(s, p, "-", 0);
    UnmarkedNumberScans(s, p + 1, -cents, anySpace);
    assert SignEnd(s, p, Sign.OptionalMinus) == p + 1;
  }

  /** A placed text the token accepts is scanned in full. */
  lemma TokenScans(s: string, p: nat, tok: Token, t: string)
    requires Placed(s, p, t) && TokenSpelling(tok, t)
    ensures ScanToken(s, p, tok) == Some(p + |t|)
  {
    match tok
    case Digits(n) =>
      PlacedRun(s, p, t, 0, n);
    case DayMonth =>
      DateScans(s, p, t, false);
    case FullDate =>
      DateScans(s, p, t, true);
    case Rate =>
      RateScans(s, p, t);
    case Amount(sign, anySpace) =>
      AmountSpellingScans(s, p, sign, anySpace, t);
    case Currency =>
      CurrencyScans(s, p, t);
  }

  lemma AmountSpellingScans(s: string, p: nat, sign: Sign, anySpace: bool, t: string)
    requires Placed(s, p, t) && AmountSpelling(sign, t)
    ensures AmountEnd(s, p, sign, anySpace) == Some(p + |t|)
  {
    var cents := AmountWitness(sign, t);
    AmountScans(s, p, sign, anySpace, cents);
  }

  lemma AmountWitness(sign: Sign, t: string) returns (cents: int)
    requires AmountSpelling(sign, t)
    ensures (sign != Sign.Unsigned || cents >= 0) && t == AmountText(sign, cents)
  {
    cents :| (sign != Sign.Unsigned || cents >= 0) && t == AmountText(sign, cents);
  }

  lemma RateScans(s: string, p: nat, t: string)
    requires Placed(s, p, t) && DetailsRoundTrip.RateShape(t)
    ensures RateEnd(s, p) == Some(p + |t|)
  {
    PlacedText(s, p, t);
    DetailsRoundTrip.RateAt(s, p, t);
  }

  lemma CurrencyScans(s: string, p: nat, t: string)
    requires Placed(s, p, t) && t in Currencies
    ensures CurrencyEnd(s, p) == Some(p + |t|)
  {
    PlacedText(s, p, t);
  }

  /** A piece consumes its placed text in full, and a group captures it. */
  lemma PieceScans(s: string, p: nat, piece: Piece, t: string, next: string)
    requires PieceSpelling(piece, t, next) && Placed(s, p, t) && Placed(s, p + |t|, next)
    ensures piece.Group? ==> ScanToken(s, p, piece.token) == Some(p + |t|) && s[p..p + |t|] == t
    ensures !piece.Group? ==> SkipEnd(s, p, piece) == Some(p + |t|)
  {
    match piece
    case Lit(x) =>
      PlacedText(s, p, t);
    case Spaces(one) =>
      forall i | p <= i < p + |t|
        ensures IsSpace(s[i])
      {
        PlacedChar(s, p, t, i - p);
      }
      PlacedChar(s, p + |t|, next, 0);
      SpaceRunExact(s, p, |t|);
    case DashesOrSpaces =>
      forall i | p <= i < p + |t|
        ensures s[i] == '-' || IsSpace(s[i])
      {
        PlacedChar(s, p, t, i - p);
      }
      PlacedChar(s, p + |t|, next, 0);
      DashRunExact(s, p, |t|);
    case Group(tok) =>
      TokenScans(s, p, tok, t);
      PlacedText(s, p, t);
  }

  /** Spelled texts laid out from `p` make the pattern match from `p` to their end,
      and each group captures its own text. */
  lemma {:induction false} SpelledMatch(s: string, p: nat, ps: seq<Piece>, texts: seq<string>)
    requires Spelling(ps, texts) && Placed(s, p, Concat(texts))
    ensures var r := MatchPieces(s, p, ps);
      && r.Some? && r.value.end == p + |Concat(texts)|
      && SpansWithin(s, r.value.spans) && SpanTexts(s, r.value.spans) == GroupTexts(ps, texts)
    decreases |ps|
  {
    if |ps| > 0 {
      var t, rest := texts[0], Concat(texts[1..]);
      SpellingHead(ps, texts);
      PlacedSplit(s, p, t, rest);
      SpelledMatch(s, p + |t|, ps[1..], texts[1..]);
      PieceScans(s, p, ps[0], t, rest);
      if ps[0].Group? {
        GroupMatch(s, p, ps, texts, p + |t|);
      } else {
        SkipMatch(s, p, ps, texts, p + |t|);
      }
    }
  }

  /** The first piece's text, and a spelling of the rest. */
  lemma SpellingHead(ps: seq<Piece>, texts: seq<string>)
    requires Spelling(ps, texts) && |ps| > 0
    ensures PieceSpelling(ps[0], texts[0], Concat(texts[1..])) && Spelling(ps[1..], texts[1..])
    ensures Concat(texts) == texts[0] + Concat(texts[1..])
  {
  }

  /** The step of `SpelledMatch` for a group piece. */
  lemma GroupMatch(s: string, p: nat, ps: seq<Piece>, texts: seq<string>, q: nat)
    requires |ps| > 0 && |texts| == |ps| && ps[0].Group? && p <= q <= |s|
    requires ScanToken(s, p, ps[0].token) == Some(q) && s[p..q] == texts[0]
    requires var r := MatchPieces(s, q, ps[1..]);
      && r.Some? && SpansWithin(s, r.value.spans)
      && SpanTexts(s, r.value.spans) == GroupTexts(ps[1..], texts[1..])
    ensures var r := MatchPieces(s, p, ps);
      && r.Some? && r.value.end == MatchPieces(s, q, ps[1..]).value.end
      && SpansWithin(s, r.value.spans) && SpanTexts(s, r.value.spans) == GroupTexts(ps, texts)
  {
    var m := MatchPieces(s, q, ps[1..]).value;
    var spans := [Span(p, q)] + m.spans;
    assert MatchPieces(s, p, ps) == Some(Match(p, m.end, spans));
    assert spans[1..] == m.spans;
    assert SpanTexts(s, spans) == [texts[0]] + SpanTexts(s, m.spans);
  }

  /** The step of `SpelledMatch` for an uncaptured piece. */
  lemma SkipMatch(s: string, p: nat, ps: seq<Piece>, texts: seq<string>, q: nat)
    requires |ps| > 0 && |texts| == |ps| && !ps[0].Group? && p <= q <= |s|
    requires SkipEnd(s, p, ps[0]) == Some(q)
    requires var r := MatchPieces(s, q, ps[1..]);
      && r.Some? && SpansWithin(s, r.value.spans)
      && SpanTexts(s, r.value.spans) == GroupTexts(ps[1..], texts[1..])
    ensures var r := MatchPieces(s, p, ps);
      && r.Some? && r.value.end == MatchPieces(s, q, ps[1..]).value.end
      && SpansWithin(s, r.value.spans) && SpanTexts(s, r.value.spans) == GroupTexts(ps, texts)
  {
  }

  /** Spelled texts laid out at the first place the pattern can match: the one
      group captures its text. */
  lemma FindOneReads(s: string, ps: seq<Piece>, tok: Token, texts: seq<string>, p: nat)
    requires Tokens(ps) == [tok] && Spelling(ps, texts)
    requires Placed(s, p, Concat(texts)) && NoMatchBefore(s, ps, p)
    ensures FindOne(s, ps, tok) == Some(GroupTexts(ps, texts)[0])
  {
    SpelledMatch(s, p, ps, texts);
    FindAt(s, ps, p);
  }

  /** A pattern without groups captures no text. */
  lemma {:induction false} NoGroupTexts(ps: seq<Piece>, texts: seq<string>)
    requires |texts| == |ps|
    requires forall i :: 0 <= i < |ps| ==> !ps[i].Group?
    ensures GroupTexts(ps, texts) == []
    decreases |ps|
  {
    if |ps| > 0 {
      NoGroupTexts(ps[1..], texts[1..]);
    }
  }

  /** A pattern whose only group is at index `g` captures that piece's text. */
  lemma {:induction false} OneGroupText(ps: seq<Piece>, texts: seq<string>, g: nat)
    requires |texts| == |ps| && g < |ps| && ps[g].Group?
    requires forall i :: 0 <= i < |ps| && i != g ==> !ps[i].Group?
    ensures GroupTexts(ps, texts) == [texts[g]]
    decreases |ps|
  {
    if g == 0 {
      NoGroupTexts(ps[1..], texts[1..]);
    } else {
      OneGroupText(ps[1..], texts[1..], g - 1);
    }
  }

  /** The last piece of a spelling. */
  lemma SpellingLast(piece: Piece, t: string)
    requires PieceSpelling(piece, t, "")
    ensures Spelling([piece], [t]) && Concat([t]) == t
  {
    assert [t][1..] == [];
    assert [piece][1..] == [];
  }

  /** Adding a piece in front of a spelling. */
  lemma SpellingCons(piece: Piece, t: string, ps: seq<Piece>, texts: seq<string>)
    requires PieceSpelling(piece, t, Concat(texts)) && Spelling(ps, texts)
    ensures Spelling([piece] + ps, [t] + texts)
    ensures Concat([t] + texts) == t + Concat(texts)
  {
    assert ([piece] + ps)[1..] == ps;
    assert ([t] + texts)[1..] == texts;
  }

  /** The amount reader gives back the value of a printed amount, with either
      form of the credit mark. */
  lemma AmountTextReads(sign: Sign, cents: int)
    ensures ParseBrlAmount(AmountText(sign, cents)) == cents
  {
    BrlRoundTrip(cents);
    if cents < 0 && sign == Sign.OptionalMinus {
      var body := FormatBrl(-cents);
      assert FormatBrl(cents) == CreditMark(true) + body;
      CleanAppend(CreditMark(true), body);
      CleanCreditMark(true);
      CleanAppend("-", body);
      CleanOne('-');
      assert Clean(AmountText(sign, cents)) == Clean(FormatBrl(cents));
    }
  }
}
