/** The fragment of Python's `re` the statement parser relies on, as a deterministic
    matcher. A pattern is a sequence of pieces: literal text, runs of whitespace,
    and capturing groups around a fixed set of tokens (digit fields, dates, amounts,
    rates, currency codes).

    Every pattern of the parser built from these pieces has the property that each
    repetition is followed by a character the repetition cannot consume (`\s*`
    before a letter or a digit, `\d{1,3}` before a separator or a comma, and so
    on). For such patterns the backtracking matcher has at most one way to succeed
    from a given start, and it is the greedy one computed here. `Search` then
    returns the leftmost start, as `re.search` does. */
module Patterns {
  import opened Basics
  import opened Text

  /** How an amount token may begin: no sign, `-?`, or `(?:-\s*)?`. */
  datatype Sign = Unsigned | OptionalMinus | OptionalMinusSpaces

  datatype Token =
    | Digits(count: nat)                   // \d{count}
    | DayMonth                             // \d{2}/\d{2}
    | FullDate                             // \d{2}/\d{2}/\d{4}
    | Rate                                 // \d+,\d{2}
    | Amount(sign: Sign, anySpace: bool)   // sign \d{1,3}(?:[. ]\d{3})*,\d{2}; [.\s] when anySpace
    | Currency                             // USD|BRL|EUR

  datatype Piece =
    | Lit(text: string)          // literal text
    | Spaces(atLeastOne: bool)   // \s+ or \s*
    | DashesOrSpaces             // \s*[-\s]+, that is one or more of '-' and whitespace
    | Group(token: Token)        // a capturing group around one token

  /** The part of the subject a group captured. */
  datatype Span = Span(start: nat, end: nat)

  /** A successful match from `start` to `end` with one span per group. */
  datatype Match = Match(start: nat, end: nat, spans: seq<Span>)

  const Currencies: set<string> := {"USD", "BRL", "EUR"}

  /** A numeric token that cannot contain a minus sign. */
  predicate UnsignedToken(tok: Token) {
    tok.Digits? || tok.Rate? || (tok.Amount? && tok.sign == Sign.Unsigned)
  }

  /** A thousands separator: `[\. ]`, or `[.\s]` when `anySpace`. */
  predicate IsSep(c: char, anySpace: bool) {
    c == '.' || (if anySpace then IsSpace(c) else c == ' ')
  }

  /** The characters an amount token may span. */
  predicate AmountChar(c: char) {
    IsDigit(c) || c == '.' || c == ',' || c == '-' || IsSpace(c)
  }

  /** Number of consecutive digits at `p`, at most `max` (`\d{1,max}` taken greedily). */
  function DigitRun(s: string, p: nat, max: nat): (n: nat)
    requires p <= |s|
    ensures n <= max && p + n <= |s|
    ensures forall i :: p <= i < p + n ==> IsDigit(s[i])
    ensures n < max && p + n < |s| ==> !IsDigit(s[p + n])
    decreases max
  {
    if max == 0 || p == |s| || !IsDigit(s[p]) then 0 else 1 + DigitRun(s, p + 1, max - 1)
  }

  /** Number of consecutive `-` or whitespace characters at `p`. */
  function DashRun(s: string, p: nat): (n: nat)
    requires p <= |s|
    ensures p + n <= |s|
    ensures forall i :: p <= i < p + n ==> s[i] == '-' || IsSpace(s[i])
    ensures p + n < |s| ==> s[p + n] != '-' && !IsSpace(s[p + n])
    decreases |s| - p
  {
    if p == |s| || (s[p] != '-' && !IsSpace(s[p])) then 0 else 1 + DashRun(s, p + 1)
  }

  /** Number of whitespace characters at `p`. */
  function SpaceRun(s: string, p: nat): (n: nat)
    requires p <= |s|
    ensures p + n <= |s|
    ensures forall i :: p <= i < p + n ==> IsSpace(s[i])
    ensures p + n < |s| ==> !IsSpace(s[p + n])
    decreases |s| - p
  {
    if p == |s| || !IsSpace(s[p]) then 0 else 1 + SpaceRun(s, p + 1)
  }

  /** `(?:[sep]\d{3})*`, taken greedily: the end of the last complete group. */
  function GroupsEnd(s: string, p: nat, anySpace: bool): (q: nat)
    requires p <= |s|
    ensures p <= q <= |s|
    decreases |s| - p
  {
    if p + 4 <= |s| && IsSep(s[p], anySpace) && DigitRun(s, p + 1, 3) == 3 then
      GroupsEnd(s, p + 4, anySpace)
    else
      p
  }

  /** The groups span digits and separators only. */
  lemma {:induction false} GroupsChars(s: string, p: nat, anySpace: bool)
    requires p <= |s|
    ensures forall i :: p <= i < GroupsEnd(s, p, anySpace) ==> IsDigit(s[i]) || IsSep(s[i], anySpace)
    decreases |s| - p
  {
    if p + 4 <= |s| && IsSep(s[p], anySpace) && DigitRun(s, p + 1, 3) == 3 {
      GroupsChars(s, p + 4, anySpace);
    }
  }

  /** `,\d{2}`. */
  function CentsEnd(s: string, p: nat): (r: Option<nat>)
    requires p <= |s|
    ensures r.Some? <==> p + 3 <= |s| && s[p] == ',' && IsDigit(s[p + 1]) && IsDigit(s[p + 2])
    ensures r.Some? ==> r.value == p + 3
  {
    if p + 3 <= |s| && s[p] == ',' && IsDigit(s[p + 1]) && IsDigit(s[p + 2]) then Some(p + 3) else None
  }

  /** The optional sign in front of an amount. */
  function SignEnd(s: string, p: nat, sign: Sign): (q: nat)
    requires p <= |s|
    ensures p <= q <= |s|
    ensures q > p ==> s[p] == '-' && sign != Sign.Unsigned
    ensures forall i :: p < i < q ==> IsSpace(s[i])
  {
    match sign
    case Unsigned => p
    case OptionalMinus => if p < |s| && s[p] == '-' then p + 1 else p
    case OptionalMinusSpaces => if p < |s| && s[p] == '-' then p + 1 + SpaceRun(s, p + 1) else p
  }

  /** `\d{1,3}(?:[sep]\d{3})*,\d{2}`. */
  function NumberEnd(s: string, p: nat, anySpace: bool): (r: Option<nat>)
    requires p <= |s|
    ensures r.Some? ==> p < r.value <= |s| && IsDigit(s[p])
  {
    var lead := DigitRun(s, p, 3);
    if lead == 0 then None else CentsEnd(s, GroupsEnd(s, p + lead, anySpace))
  }

  /** A number spans digits, separators and the decimal comma only. */
  lemma NumberChars(s: string, p: nat, anySpace: bool)
    requires p <= |s| && NumberEnd(s, p, anySpace).Some?
    ensures forall i :: p <= i < NumberEnd(s, p, anySpace).value ==>
      IsDigit(s[i]) || IsSep(s[i], anySpace) || s[i] == ','
  {
    GroupsChars(s, p + DigitRun(s, p, 3), anySpace);
  }

  /** `\d{2}/\d{2}`, and with `full` a further `/\d{4}`. */
  function DateEnd(s: string, p: nat, full: bool): (r: Option<nat>)
    requires p <= |s|
    ensures r.Some? ==> r.value == (if full then p + 10 else p + 5) <= |s|
    ensures r.Some? ==> s[p + 2] == '/' && (full ==> s[p + 5] == '/')
    ensures r.Some? ==> forall i :: p <= i < r.value ==> IsDigit(s[i]) || s[i] == '/'
  {
    if p + 5 <= |s| && DigitRun(s, p, 2) == 2 && s[p + 2] == '/' && DigitRun(s, p + 3, 2) == 2 then
      if !full then Some(p + 5)
      else if p + 10 <= |s| && s[p + 5] == '/' && DigitRun(s, p + 6, 4) == 4 then Some(p + 10)
      else None
    else None
  }

  /** `\d+,\d{2}`. */
  function RateEnd(s: string, p: nat): (r: Option<nat>)
    requires p <= |s|
    ensures r.Some? ==> p < r.value <= |s|
    ensures r.Some? ==> forall i :: p <= i < r.value ==> IsDigit(s[i]) || s[i] == ','
  {
    var n := DigitRun(s, p, |s| - p);
    if n == 0 then None else CentsEnd(s, p + n)
  }

  /** `USD|BRL|EUR`. */
  function CurrencyEnd(s: string, p: nat): (r: Option<nat>)
    requires p <= |s|
    ensures r.Some? ==> r.value == p + 3 <= |s| && s[p..r.value] in Currencies
  {
    if LiteralAt(s, p, "USD") || LiteralAt(s, p, "BRL") || LiteralAt(s, p, "EUR") then
      Some(p + 3)
    else None
  }

  /** A signed amount: the optional sign, then the number. */
  function AmountEnd(s: string, p: nat, sign: Sign, anySpace: bool): (r: Option<nat>)
    requires p <= |s|
    ensures r.Some? ==> p < r.value <= |s|
  {
    NumberEnd(s, SignEnd(s, p, sign), anySpace)
  }

  /** An amount token spans amount characters only, and an unsigned one has no minus. */
  lemma AmountChars(s: string, p: nat, sign: Sign, anySpace: bool)
    requires p <= |s| && AmountEnd(s, p, sign, anySpace).Some?
    ensures forall i :: p <= i < AmountEnd(s, p, sign, anySpace).value ==> AmountChar(s[i])
    ensures sign == Sign.Unsigned ==>
      forall i :: p <= i < AmountEnd(s, p, sign, anySpace).value ==> s[i] != '-'
  {
    NumberChars(s, SignEnd(s, p, sign), anySpace);
  }

  /** Where a token starting at `p` ends, if it matches there. */
  function ScanToken(s: string, p: nat, tok: Token): (r: Option<nat>)
    requires p <= |s|
    ensures r.Some? ==> p <= r.value <= |s|
    ensures tok.Digits? ==> (r.Some? <==> DigitRun(s, p, tok.count) == tok.count)
    ensures tok.Digits? && r.Some? ==> r.value == p + tok.count
    ensures tok.Currency? && r.Some? ==> s[p..r.value] in Currencies
    ensures tok.DayMonth? && r.Some? ==> r.value == p + 5 && s[p + 2] == '/'
    ensures tok.FullDate? && r.Some? ==> r.value == p + 10 && s[p + 2] == '/' && s[p + 5] == '/'
  {
    match tok
    case Digits(n) => if DigitRun(s, p, n) == n then Some(p + n) else None
    case DayMonth => DateEnd(s, p, false)
    case FullDate => DateEnd(s, p, true)
    case Rate => RateEnd(s, p)
    case Amount(sign, anySpace) => AmountEnd(s, p, sign, anySpace)
    case Currency => CurrencyEnd(s, p)
  }

  /** What a token captures never holds a minus sign when the token is unsigned. */
  lemma UnsignedCapture(s: string, p: nat, tok: Token)
    requires p <= |s| && ScanToken(s, p, tok).Some? && UnsignedToken(tok)
    ensures forall i :: p <= i < ScanToken(s, p, tok).value ==> s[i] != '-'
  {
    if tok.Amount? {
      AmountChars(s, p, tok.sign, tok.anySpace);
    }
  }

  /** The tokens of a pattern's groups, in order. */
  function Tokens(ps: seq<Piece>): (r: seq<Token>)
    ensures |r| <= |ps|
  {
    if |ps| == 0 then []
    else if ps[0].Group? then [ps[0].token] + Tokens(ps[1..])
    else Tokens(ps[1..])
  }

  /** A span is what `tok` matches when scanning starts at the span's start. */
  predicate Captured(s: string, sp: Span, tok: Token) {
    sp.start <= sp.end <= |s| && ScanToken(s, sp.start, tok) == Some(sp.end)
  }

  /** Every span is the capture of its group's token. */
  predicate SpansOf(s: string, spans: seq<Span>, toks: seq<Token>) {
    |spans| == |toks| && forall i :: 0 <= i < |spans| ==> Captured(s, spans[i], toks[i])
  }

  /** Where an uncaptured piece starting at `p` ends, if it matches there. */
  function SkipEnd(s: string, p: nat, piece: Piece): (r: Option<nat>)
    requires p <= |s| && !piece.Group?
    ensures r.Some? ==> p <= r.value <= |s|
  {
    match piece
    case Lit(t) => if LiteralAt(s, p, t) then Some(p + |t|) else None
    case Spaces(one) =>
      var n := SpaceRun(s, p);
      if one && n == 0 then None else Some(p + n)
    case DashesOrSpaces =>
      var n := DashRun(s, p);
      if n == 0 then None else Some(p + n)
  }

  /** Matching the pieces `ps` from position `p`: where the match ends and what each
      group captured. */
  function MatchPieces(s: string, p: nat, ps: seq<Piece>): (r: Option<Match>)
    requires p <= |s|
    ensures r.Some? ==> r.value.start == p <= r.value.end <= |s|
    decreases |ps|
  {
    if |ps| == 0 then
      Some(Match(p, p, []))
    else if ps[0].Group? then
      match ScanToken(s, p, ps[0].token)
      case None => None
      case Some(e) =>
        match MatchPieces(s, e, ps[1..])
        case None => None
        case Some(m) => Some(Match(p, m.end, [Span(p, e)] + m.spans))
    else
      match SkipEnd(s, p, ps[0])
      case None => None
      case Some(q) => Restart(MatchPieces(s, q, ps[1..]), p)
  }

  /** Every span of a match is what its group's token scans from the span's start. */
  lemma {:induction false} MatchSpans(s: string, p: nat, ps: seq<Piece>)
    requires p <= |s| && MatchPieces(s, p, ps).Some?
    ensures SpansOf(s, MatchPieces(s, p, ps).value.spans, Tokens(ps))
    decreases |ps|
  {
    if |ps| > 0 {
      if ps[0].Group? {
        var tok := ps[0].token;
        var e := ScanToken(s, p, tok).value;
        var m := MatchPieces(s, e, ps[1..]).value;
        MatchSpans(s, e, ps[1..]);
        SpansCons(s, Span(p, e), tok, m.spans, Tokens(ps[1..]));
      } else {
        MatchSpans(s, SkipEnd(s, p, ps[0]).value, ps[1..]);
      }
    }
  }

  lemma SpansCons(s: string, sp: Span, tok: Token, spans: seq<Span>, toks: seq<Token>)
    requires Captured(s, sp, tok) && SpansOf(s, spans, toks)
    ensures SpansOf(s, [sp] + spans, [tok] + toks)
  {
    var a, b := [sp] + spans, [tok] + toks;
    forall i | 0 <= i < |a|
      ensures Captured(s, a[i], b[i])
    {
      if i > 0 {
        assert a[i] == spans[i - 1] && b[i] == toks[i - 1];
      }
    }
  }

  /** The same match, reported as starting at `p`. */
  function Restart(r: Option<Match>, p: nat): (r': Option<Match>)
    ensures r'.Some? <==> r.Some?
    ensures r'.Some? ==> r'.value.start == p && r'.value.end == r.value.end && r'.value.spans == r.value.spans
  {
    match r
    case None => None
    case Some(m) => Some(Match(p, m.end, m.spans))
  }

  /** `re.search` from position `k` on: the leftmost start at which the pattern
      matches, and that match. */
  function SearchFrom(s: string, ps: seq<Piece>, k: nat): (r: Option<Match>)
    requires k <= |s|
    ensures r.Some? ==> k <= r.value.start <= |s| && MatchPieces(s, r.value.start, ps) == r
    ensures r.Some? ==> forall j :: k <= j < r.value.start ==> MatchPieces(s, j, ps).None?
    ensures r.None? ==> forall j :: k <= j <= |s| ==> MatchPieces(s, j, ps).None?
    decreases |s| - k
  {
    if MatchPieces(s, k, ps).Some? then MatchPieces(s, k, ps)
    else if k == |s| then None
    else SearchFrom(s, ps, k + 1)
  }

  /** `re.search`. */
  function Search(s: string, ps: seq<Piece>): (r: Option<Match>)
    ensures r.Some? ==> r.value.start <= |s| && MatchPieces(s, r.value.start, ps) == r
    ensures r.Some? ==> forall j :: 0 <= j < r.value.start ==> MatchPieces(s, j, ps).None?
    ensures r.None? ==> forall j :: 0 <= j <= |s| ==> MatchPieces(s, j, ps).None?
  {
    SearchFrom(s, ps, 0)
  }

  /** No match of `ps` starts before position `k`. */
  predicate NoMatchBefore(s: string, ps: seq<Piece>, k: nat) {
    k <= |s| && forall j :: 0 <= j < k ==> MatchPieces(s, j, ps).None?
  }

  /** The pattern matches from `j` and the match reaches the end of the subject. */
  predicate MatchesToEnd(s: string, j: nat, ps: seq<Piece>) {
    j <= |s| && MatchPieces(s, j, ps).Some? && MatchPieces(s, j, ps).value.end == |s|
  }

  /** `re.search` for a pattern ending in `$`: the leftmost start whose match reaches
      the end of the subject. */
  function SearchToEndFrom(s: string, ps: seq<Piece>, k: nat): (r: Option<Match>)
    requires k <= |s|
    ensures r.Some? ==> k <= r.value.start && MatchesToEnd(s, r.value.start, ps)
    ensures r.Some? ==> MatchPieces(s, r.value.start, ps) == r
    ensures r.Some? ==> forall j :: k <= j < r.value.start ==> !MatchesToEnd(s, j, ps)
    ensures r.None? ==> forall j :: k <= j <= |s| ==> !MatchesToEnd(s, j, ps)
    decreases |s| - k
  {
    if MatchesToEnd(s, k, ps) then MatchPieces(s, k, ps)
    else if k == |s| then None
    else SearchToEndFrom(s, ps, k + 1)
  }

  function SearchToEnd(s: string, ps: seq<Piece>): (r: Option<Match>)
    ensures r.Some? ==> MatchesToEnd(s, r.value.start, ps) && MatchPieces(s, r.value.start, ps) == r
    ensures r.Some? ==> forall j :: 0 <= j < r.value.start ==> !MatchesToEnd(s, j, ps)
    ensures r.None? ==> forall j :: 0 <= j <= |s| ==> !MatchesToEnd(s, j, ps)
  {
    SearchToEndFrom(s, ps, 0)
  }

  /** `re.match`: the pattern anchored at the start of the subject. */
  function MatchStart(s: string, ps: seq<Piece>): (r: Option<Match>)
    ensures r.Some? ==> r.value.start == 0 && r.value.end <= |s|
    ensures r.Some? ==> SpansOf(s, r.value.spans, Tokens(ps))
  {
    var r := MatchPieces(s, 0, ps);
    if r.Some? then MatchSpans(s, 0, ps); r else r
  }

  /** The text captured by group `i` of a match. */
  function GroupText(s: string, m: Match, toks: seq<Token>, i: nat): (t: string)
    requires SpansOf(s, m.spans, toks) && i < |m.spans|
    ensures t == s[m.spans[i].start..m.spans[i].end]
  {
    assert Captured(s, m.spans[i], toks[i]);
    s[m.spans[i].start..m.spans[i].end]
  }
}
