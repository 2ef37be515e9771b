/** The parser's second pass, `_parse_page_columns` and `_parse_column_text`: the
    purchase lines of every page, read column by column with a state that carries
    the current card and the two section flags across columns and pages. */
module MainPass {
  import opened Basics
  import opened Text
  import opened Dates
  import opened Money
  import opened ItauPatterns
  import opened ItauModel

  /** The `state` dictionary: the last card seen, and whether the lines belong to the
      future-installments section or to the international section. */
  datatype PassState = PassState(card: Option<string>, inFuture: bool, inIntl: bool)

  const Start := PassState(None, false, false)

  /** The substrings that mark a header or metadata line. */
  const SkipWords: seq<string> := [
    "DATA", "ESTABELECIMENTO", "VALOR EM R$", "VALOR EM R $",
    "Continua", "Previsão", "Consulte",
    "30033030", "08007203030", "PC-",
    "Caso", "pagamento", "parcelamento",
    "crédito", "rotativo", "Demais faturas",
    "Próxima fatura", "Total para próximas"]

  /** The headers of the future-installments section. */
  predicate IsFutureHeader(line: string) {
    Contains(Lower(line), "próximas faturas") || Contains(line, "Compras parceladas")
  }

  /** The header of the international section. */
  predicate IsIntlHeader(line: string) {
    Contains(line, "Lançamentos internacionais")
  }

  /** A card holder's header: the holder's name and `final NNNN`. */
  predicate IsCardHeader(line: string) {
    Contains(Upper(line), "RAFAEL") && Contains(Lower(line), "final")
  }

  /** The header of the purchases section, `Lançamentos: compras e saques`. */
  predicate IsPurchasesHeader(line: string) {
    Contains(line, "Lançamentos") && Contains(line, "compras") && Contains(line, "saques")
  }

  /** Column headings, notices, subtotals and totals. */
  predicate IsNoise(line: string) {
    || ContainsAny(line, SkipWords)
    || Contains(line, "Lançamentos no cartão")
    || StartsWith(line, "Total") || Contains(line, "LTotal")
  }

  /** A line that is none of the above, and so is read as a purchase when it starts
      with a date. */
  predicate Unmarked(line: string) {
    && !IsFutureHeader(line) && !IsIntlHeader(line) && !IsCardHeader(line)
    && !IsPurchasesHeader(line) && !IsNoise(line)
  }

  /** A card number as the state keeps it: absent, or four digits. */
  predicate CardOk(card: Option<string>) {
    card.None? || (|card.value| == 4 && AllDigits(card.value))
  }

  /** What a stripped line is, in the order the source tests it. */
  datatype LineKind =
    | Blank
    | FutureHeader
    | IntlHeader
    | CardHeader
    | PurchasesHeader
    | Suppressed
    | Metadata
    | Subtotal
    | TotalLine
    | NoDate
    | Candidate(split: DateSplit)

  function Classify(line: string, st: PassState): (k: LineKind)
    ensures k.Candidate? ==> !st.inFuture && !st.inIntl && LeadingDate(line) == Some(k.split)
    ensures k.Candidate? ==> Unmarked(line)
    ensures k.CardHeader? ==> IsCardHeader(line)
    ensures k.PurchasesHeader? ==> Contains(line, "saques")
    ensures Unmarked(line) && !st.inFuture && !st.inIntl && LeadingDate(line).Some? ==>
      k == Candidate(LeadingDate(line).value)
  {
    if |line| == 0 then Blank
    else if IsFutureHeader(line) then FutureHeader
    else if IsIntlHeader(line) then IntlHeader
    else if IsCardHeader(line) then CardHeader
    else if IsPurchasesHeader(line) then PurchasesHeader
    else if st.inFuture || st.inIntl then Suppressed
    else if ContainsAny(line, SkipWords) then Metadata
    else if Contains(line, "Lançamentos no cartão") then Subtotal
    else if StartsWith(line, "Total") || Contains(line, "LTotal") then TotalLine
    else
      match LeadingDate(line)
      case None => NoDate
      case Some(split) => Candidate(split)
  }

  /** How the state changes on a line: the future flag is set by its headers and
      cleared by a card header whose number reads, which also becomes the current
      card; the international flag is set by its header and cleared by the
      purchases header. No other line changes the state. */
  function Update(k: LineKind, line: string, st: PassState): (st': PassState)
    ensures !k.FutureHeader? && !k.IntlHeader? && !k.CardHeader? && !k.PurchasesHeader? ==> st' == st
    ensures k.FutureHeader? ==> st' == st.(inFuture := true)
    ensures k.IntlHeader? ==> st' == st.(inIntl := true)
    ensures k.PurchasesHeader? ==> st' == st.(inIntl := false)
    ensures k.CardHeader? && CardFinal(line).Some? ==>
      st' == st.(card := CardFinal(line), inFuture := false)
    ensures k.CardHeader? && CardFinal(line).None? ==> st' == st
    ensures st'.card == st.card || st'.card == CardFinal(line) != None
    ensures st.inFuture && !k.CardHeader? ==> st'.inFuture
    ensures st.inIntl && !k.PurchasesHeader? ==> st'.inIntl
  {
    match k
    case FutureHeader => st.(inFuture := true)
    case IntlHeader => st.(inIntl := true)
    case CardHeader =>
      if CardFinal(line).Some? then st.(card := CardFinal(line), inFuture := false) else st
    case PurchasesHeader => st.(inIntl := false)
    case _ => st
  }

  /** The outcome of a candidate line: the transaction, if one was appended, and
      how many lines were consumed (two when the category line was taken). */
  datatype Outcome = Outcome(tx: Option<Transaction>, used: nat)

  /** The look-ahead: when the next line (stripped) is a category line, the
      transaction takes its category and location and that line is consumed. */
  function WithCategory(tx: Transaction, next: Option<string>): (o: Outcome)
    ensures o.tx.Some? && (o.used == 1 || o.used == 2)
    ensures o.used == 2 <==> next.Some? && CategoryLocation(Strip(next.value)).Some?
    ensures o.used == 2 ==> var c := CategoryLocation(Strip(next.value)).value;
      o.tx.value == tx.(category := Some(c.category), location := Some(c.location))
    ensures o.used == 1 ==> o.tx.value == tx
  {
    if next.Some? && CategoryLocation(Strip(next.value)).Some? then
      var c := CategoryLocation(Strip(next.value)).value;
      Outcome(Some(tx.(category := Some(c.category), location := Some(c.location))), 2)
    else Outcome(Some(tx), 1)
  }

  /** A purchase line is never swallowed as the category line of the one before
      it: the look-ahead keeps the transaction as it is and consumes one line. */
  lemma NextPurchaseKept(tx: Transaction, next: string)
    requires LeadingDate(Strip(next)).Some?
    ensures WithCategory(tx, Some(next)) == Outcome(Some(tx), 1)
  {
    DatedLineIsNoCategory(Strip(next));
  }

  /** A purchase line after its date: an installment line when the rest ends in
      `NN/NN amount`, a plain purchase when it ends in an amount after a description
      of at least two characters. A date `datetime.date` rejects drops the line. */
  function Purchase(split: DateSplit, next: Option<string>, year: int, card: Option<string>): (o: Outcome)
    ensures o.used == 1 || o.used == 2
    ensures o.tx.Some? ==> var t := o.tx.value;
      && ParseDate(split.date, year) == Some(t.date)
      && t.card == card && t.international.None? && t.paymentMethod.None?
      && (t.kind == Parcelada <==> t.installment.Some?)
      && (t.kind == Parcelada <==> InstallmentTail(split.rest).Some?)
    ensures o.tx.None? ==> o.used == 1
    ensures o.used == 2 ==> next.Some? && o.tx.value.category.Some?
    ensures InstallmentTail(split.rest).Some? ==> var m := InstallmentTail(split.rest).value;
      && (o.tx.Some? <==> ParseDate(split.date, year).Some?)
      && (o.tx.Some? ==>
            && o.tx.value.description == m.description && o.tx.value.amountBrl == ParseBrlAmount(m.amount)
            && o.tx.value.installment == Some(Installment(m.current, m.total)))
    ensures InstallmentTail(split.rest).None? && AmountTail(split.rest).Some? ==> var a := AmountTail(split.rest).value;
      && (o.tx.Some? <==> |a.description| >= 2 && ParseDate(split.date, year).Some?)
      && (o.tx.Some? ==>
            && o.tx.value.description == a.description && o.tx.value.amountBrl == ParseBrlAmount(a.amount)
            && o.tx.value.kind == AVista)
    ensures InstallmentTail(split.rest).None? && AmountTail(split.rest).None? ==> o.tx.None?
  {
    var date := ParseDate(split.date, year);
    if InstallmentTail(split.rest).Some? then
      var m := InstallmentTail(split.rest).value;
      if date.None? then Outcome(None, 1)
      else
        WithCategory(
          Transaction(date.value, m.description, ParseBrlAmount(m.amount), None, None, card,
                      Parcelada, Some(Installment(m.current, m.total)), None, None),
          next)
    else if AmountTail(split.rest).Some? then
      var a := AmountTail(split.rest).value;
      if |a.description| < 2 || date.None? then Outcome(None, 1)
      else
        WithCategory(
          Transaction(date.value, a.description, ParseBrlAmount(a.amount), None, None, card,
                      AVista, None, None, None),
          next)
    else Outcome(None, 1)
  }

  /** The line after `i`, if there is one. */
  function NextLine(lines: seq<string>, i: nat): Option<string>
    requires i < |lines|
  {
    if i + 1 < |lines| then Some(lines[i + 1]) else None
  }

  /** What one stripped line does, given the line after it: the transaction it
      appends, if any, how many lines it consumes, and the new state. A transaction
      is read only outside both sections and leaves the state alone; only a card
      header changes the card, and only to the number it reads. */
  datatype LineResult = LineResult(tx: Option<Transaction>, used: nat, state: PassState)

  function Consume(line: string, next: Option<string>, year: int, st: PassState): (r: LineResult)
    ensures r.used == 1 || (r.used == 2 && next.Some? && r.tx.Some? && r.tx.value.category.Some?)
    ensures r.tx.Some? ==> !st.inFuture && !st.inIntl && r.state == st
    ensures r.tx.Some? ==> r.tx.value.card == st.card && r.tx.value.date.year == year
    ensures r.tx.Some? ==> r.tx.value.paymentMethod.None? && r.tx.value.international.None?
    ensures r.state.card == st.card || r.state.card == CardFinal(line) != None
    ensures st.inFuture && !IsCardHeader(line) ==> r.state.inFuture
    ensures st.inIntl && !Contains(line, "saques") ==> r.state.inIntl
    ensures r.tx.Some? ==> Unmarked(line) && LeadingDate(line).Some?
  {
    var k := Classify(line, st);
    if k.Candidate? then
      var o := Purchase(k.split, next, year, st.card);
      LineResult(o.tx, o.used, st)
    else
      LineResult(None, 1, Update(k, line, st))
  }

  /** An unmarked dated line outside both sections is read by `Purchase`, and
      leaves the state alone. */
  lemma ConsumeCandidate(line: string, next: Option<string>, year: int, st: PassState)
    requires Unmarked(line) && !st.inFuture && !st.inIntl && LeadingDate(line).Some?
    ensures var o := Purchase(LeadingDate(line).value, next, year, st.card);
      Consume(line, next, year, st) == LineResult(o.tx, o.used, st)
  {
  }

  /** The headers, in the loop's order: each consumes its line, appends nothing
      and makes its change of state; any other line leaves the state alone. */
  lemma ConsumeHeaders(line: string, next: Option<string>, year: int, st: PassState)
    ensures IsFutureHeader(line) ==> Consume(line, next, year, st) == LineResult(None, 1, st.(inFuture := true))
    ensures !IsFutureHeader(line) && IsIntlHeader(line) ==>
      Consume(line, next, year, st) == LineResult(None, 1, st.(inIntl := true))
    ensures !IsFutureHeader(line) && !IsIntlHeader(line) && IsCardHeader(line) ==>
      Consume(line, next, year, st)
        == LineResult(None, 1, if CardFinal(line).Some? then st.(card := CardFinal(line), inFuture := false) else st)
    ensures !IsFutureHeader(line) && !IsIntlHeader(line) && !IsCardHeader(line) && IsPurchasesHeader(line) ==>
      Consume(line, next, year, st) == LineResult(None, 1, st.(inIntl := false))
    ensures !IsFutureHeader(line) && !IsIntlHeader(line) && !IsCardHeader(line) && !IsPurchasesHeader(line) ==>
      Consume(line, next, year, st).state == st
  {
    var k := Classify(line, st);
    if !k.Candidate? {
      assert Consume(line, next, year, st) == LineResult(None, 1, Update(k, line, st));
    }
  }

  /** One iteration of the loop of `_parse_column_text` at line `i`. */
  datatype StepResult = StepResult(tx: Option<Transaction>, next: nat, state: PassState)

  function Step(lines: seq<string>, i: nat, year: int, st: PassState): (r: StepResult)
    requires i < |lines|
    ensures i < r.next <= |lines| && r.next <= i + 2
    ensures r.tx.Some? ==> !st.inFuture && !st.inIntl && r.state == st
    ensures r.tx.Some? ==> r.tx.value.card == st.card && r.tx.value.date.year == year
    ensures r.tx.Some? ==> r.tx.value.paymentMethod.None? && r.tx.value.international.None?
    ensures r.state.card == st.card || r.state.card == CardFinal(Strip(lines[i])) != None
    ensures st.inFuture && !IsCardHeader(Strip(lines[i])) ==> r.state.inFuture
    ensures st.inIntl && !Contains(Strip(lines[i]), "saques") ==> r.state.inIntl
    ensures r.tx.Some? ==> Unmarked(Strip(lines[i])) && LeadingDate(Strip(lines[i])).Some?
  {
    var c := Consume(Strip(lines[i]), NextLine(lines, i), year, st);
    StepResult(c.tx, i + c.used, c.state)
  }

  /** The headers, tested in the loop's order on the stripped line: a future or
      international header sets its flag, a card header with a readable number
      makes it the current card and leaves the future section, one without leaves
      the state alone, and the purchases header leaves the international section.
      Each consumes its one line and appends nothing. */
  lemma StepHeaders(lines: seq<string>, i: nat, year: int, st: PassState)
    requires i < |lines|
    ensures var line := Strip(lines[i]);
      IsFutureHeader(line) ==> Step(lines, i, year, st) == StepResult(None, i + 1, st.(inFuture := true))
    ensures var line := Strip(lines[i]);
      !IsFutureHeader(line) && IsIntlHeader(line) ==>
        Step(lines, i, year, st) == StepResult(None, i + 1, st.(inIntl := true))
    ensures var line := Strip(lines[i]);
      !IsFutureHeader(line) && !IsIntlHeader(line) && IsCardHeader(line) ==>
        Step(lines, i, year, st)
          == StepResult(None, i + 1, if CardFinal(line).Some? then st.(card := CardFinal(line), inFuture := false) else st)
    ensures var line := Strip(lines[i]);
      !IsFutureHeader(line) && !IsIntlHeader(line) && !IsCardHeader(line) && IsPurchasesHeader(line) ==>
        Step(lines, i, year, st) == StepResult(None, i + 1, st.(inIntl := false))
  {
    ConsumeHeaders(Strip(lines[i]), NextLine(lines, i), year, st);
  }

  /** The transactions a column appends, and the state it leaves. */
  datatype ColumnResult = ColumnResult(txs: seq<Transaction>, state: PassState)

  /** The loop of `_parse_column_text` from line `i` on. */
  function ColumnFrom(lines: seq<string>, i: nat, year: int, st: PassState): (r: ColumnResult)
    requires i <= |lines|
    ensures |r.txs| <= |lines| - i
    decreases |lines| - i
  {
    if i == |lines| then ColumnResult([], st)
    else
      var s := Step(lines, i, year, st);
      var rest := ColumnFrom(lines, s.next, year, s.state);
      match s.tx
      case Some(t) => ColumnResult([t] + rest.txs, rest.state)
      case None => rest
  }

  /** `_parse_column_text(text, fatura, year, state)`. */
  function Column(text: string, year: int, st: PassState): ColumnResult {
    ColumnFrom(Split(text, '\n'), 0, year, st)
  }

  /** `c` is the card number of some card header among `lines[i..]`. */
  predicate ReadFrom(c: Option<string>, lines: seq<string>, i: nat) {
    exists j :: i <= j < |lines| && c.Some? && CardFinal(Strip(lines[j])) == c
  }

  /** Card attribution: a transaction carries the card of the state the column
      started with or the number of a card header of the column, and so does the
      state the column leaves. */
  lemma {:induction false} ColumnCards(lines: seq<string>, i: nat, year: int, st: PassState)
    requires i <= |lines|
    ensures var r := ColumnFrom(lines, i, year, st);
      forall t :: t in r.txs ==> t.card == st.card || ReadFrom(t.card, lines, i)
    ensures var r := ColumnFrom(lines, i, year, st);
      r.state.card == st.card || ReadFrom(r.state.card, lines, i)
    decreases |lines| - i
  {
    if i < |lines| {
      var s := Step(lines, i, year, st);
      ColumnCards(lines, s.next, year, s.state);
      assert s.state.card == st.card || ReadFrom(s.state.card, lines, i);
      ReadLater(lines, i, s.next);
    }
  }

  /** A header read from a later line is read from an earlier start too. */
  lemma ReadLater(lines: seq<string>, i: nat, k: nat)
    requires i <= k
    ensures forall c :: ReadFrom(c, lines, k) ==> ReadFrom(c, lines, i)
  {
  }

  /** Card numbers, of the state and of every transaction, are always four digits. */
  lemma {:induction false} ColumnCardsOk(lines: seq<string>, i: nat, year: int, st: PassState)
    requires i <= |lines| && CardOk(st.card)
    ensures var r := ColumnFrom(lines, i, year, st);
      CardOk(r.state.card) && forall t :: t in r.txs ==> CardOk(t.card)
    decreases |lines| - i
  {
    if i < |lines| {
      var s := Step(lines, i, year, st);
      ColumnCardsOk(lines, s.next, year, s.state);
    }
  }

  /** Inside the international section no purchase is read, and the section lasts,
      as long as no line mentions `saques` (the purchases header that ends it). */
  lemma {:induction false} IntlSectionSuppresses(lines: seq<string>, i: nat, year: int, st: PassState)
    requires i <= |lines| && st.inIntl
    requires forall j :: i <= j < |lines| ==> !Contains(Strip(lines[j]), "saques")
    ensures ColumnFrom(lines, i, year, st).txs == []
    ensures ColumnFrom(lines, i, year, st).state.inIntl
    decreases |lines| - i
  {
    if i < |lines| {
      var s := Step(lines, i, year, st);
      IntlSectionSuppresses(lines, s.next, year, s.state);
    }
  }

  /** Inside the future-installments section no purchase is read, and the section
      lasts, as long as no line is a card header. */
  lemma {:induction false} FutureSectionSuppresses(lines: seq<string>, i: nat, year: int, st: PassState)
    requires i <= |lines| && st.inFuture
    requires forall j :: i <= j < |lines| ==> !IsCardHeader(Strip(lines[j]))
    ensures ColumnFrom(lines, i, year, st).txs == []
    ensures ColumnFrom(lines, i, year, st).state.inFuture
    decreases |lines| - i
  {
    if i < |lines| {
      var s := Step(lines, i, year, st);
      FutureSectionSuppresses(lines, s.next, year, s.state);
    }
  }

  /** One unfolding of the column reading. */
  lemma ColumnUnfold(lines: seq<string>, i: nat, year: int, st: PassState)
    requires i < |lines|
    ensures var s := Step(lines, i, year, st);
      var rest := ColumnFrom(lines, s.next, year, s.state);
      ColumnFrom(lines, i, year, st)
        == if s.tx.Some? then ColumnResult([s.tx.value] + rest.txs, rest.state) else rest
  {
  }

  /** A column result that starts with an optional transaction `tx` and goes on as
      `rest`: what remains to be appended after `txs` is `tx`, then `rest`. */
  lemma AppendRemains(txs: seq<Transaction>, tx: Option<Transaction>, rest: ColumnResult, r: ColumnResult)
    requires r == if tx.Some? then ColumnResult([tx.value] + rest.txs, rest.state) else rest
    ensures r.state == rest.state
    ensures txs + r.txs == (if tx.Some? then txs + [tx.value] else txs) + rest.txs
  {
    if tx.Some? {
      assert txs + ([tx.value] + rest.txs) == txs + [tx.value] + rest.txs;
    }
  }

  /** One iteration of the loop: append the line's transaction, if any, and move
      on. What remains to be appended shrinks by exactly what was appended. */
  method Advance(lines: seq<string>, i: nat, year: int, st: PassState, txs: seq<Transaction>)
    returns (txs': seq<Transaction>, i': nat, st': PassState)
    requires i < |lines|
    ensures i < i' <= |lines|
    ensures var r, r' := ColumnFrom(lines, i, year, st), ColumnFrom(lines, i', year, st');
      txs + r.txs == txs' + r'.txs && r.state == r'.state
  {
    var s := Step(lines, i, year, st);
    ColumnUnfold(lines, i, year, st);
    AppendRemains(txs, s.tx, ColumnFrom(lines, s.next, year, s.state), ColumnFrom(lines, i, year, st));
    txs', i', st' := txs, s.next, s.state;
    if s.tx.Some? {
      txs' := txs + [s.tx.value];
    }
  }

  /** The loop of `_parse_column_text` as written, with the index `i` advancing by
      one, or by two when a category line is consumed. */
  method ParseColumn(lines: seq<string>, year: int, st0: PassState) returns (txs: seq<Transaction>, st: PassState)
    ensures txs == ColumnFrom(lines, 0, year, st0).txs
    ensures st == ColumnFrom(lines, 0, year, st0).state
  {
    ghost var whole := ColumnFrom(lines, 0, year, st0);
    txs, st := [], st0;
    var i := 0;
    assert [] + whole.txs == whole.txs;
    while i < |lines|
      invariant 0 <= i <= |lines|
      invariant txs + ColumnFrom(lines, i, year, st).txs == whole.txs
      invariant ColumnFrom(lines, i, year, st).state == whole.state
      decreases |lines| - i
    {
      txs, i, st := Advance(lines, i, year, st, txs);
    }
    assert txs + [] == txs;
  }

  /** A page as the extractor sees it: its whole text, and the text of its left and
      right columns; `None` stands for a crop or extraction that raised, which the
      source passes over. */
  datatype Page = Page(text: string, left: Option<string>, right: Option<string>)

  /** The page gate of `_parse_page_columns`: only pages that mention both
      `Lançamentos` and `compras e saques` are read. */
  predicate HasPurchases(text: string) {
    Contains(text, "Lançamentos") && Contains(text, "compras e saques")
  }

  /** A column that may have failed to extract. */
  function ColumnOf(col: Option<string>, year: int, st: PassState): ColumnResult {
    match col
    case Some(text) => Column(text, year, st)
    case None => ColumnResult([], st)
  }

  /** `_parse_page_columns`: the left column, then the right one, sharing the state. */
  function PageColumns(page: Page, year: int, st: PassState): (r: ColumnResult)
    ensures !HasPurchases(page.text) ==> r == ColumnResult([], st)
  {
    if !HasPurchases(page.text) then ColumnResult([], st)
    else
      var left := ColumnOf(page.left, year, st);
      var right := ColumnOf(page.right, year, left.state);
      ColumnResult(left.txs + right.txs, right.state)
  }

  /** The second pass: every page in order, the state running through all of them. */
  function PagesFrom(pages: seq<Page>, year: int, st: PassState): (r: ColumnResult)
    ensures forall t :: t in r.txs ==> CardPurchase(t, year)
    decreases |pages|
  {
    if |pages| == 0 then ColumnResult([], st)
    else
      var first := PageColumns(pages[0], year, st);
      PagePurchases(pages[0], year, st);
      var rest := PagesFrom(pages[1..], year, first.state);
      ColumnResult(first.txs + rest.txs, rest.state)
  }

  /** Reading pages one run after another, the state the first run leaves
      carried into the second, is reading the whole document. */
  lemma {:induction false} PagesAppend(a: seq<Page>, b: seq<Page>, year: int, st: PassState)
    ensures var first := PagesFrom(a, year, st);
      var second := PagesFrom(b, year, first.state);
      PagesFrom(a + b, year, st) == ColumnResult(first.txs + second.txs, second.state)
    decreases |a|
  {
    if |a| == 0 {
      assert a + b == b;
      assert [] + PagesFrom(b, year, st).txs == PagesFrom(b, year, st).txs;
    } else {
      var page := PageColumns(a[0], year, st);
      var rest := PagesFrom(a[1..], year, page.state);
      var second := PagesFrom(b, year, rest.state);
      PagesAppend(a[1..], b, year, page.state);
      PagesHead(a, b, year, st);
      Reassociate(page.txs, rest.txs, second.txs);
    }
  }

  lemma Reassociate(x: seq<Transaction>, y: seq<Transaction>, z: seq<Transaction>)
    ensures x + (y + z) == (x + y) + z
  {
  }

  /** The first page of `a + b` is the first page of `a`. */
  lemma PagesHead(a: seq<Page>, b: seq<Page>, year: int, st: PassState)
    requires |a| > 0
    ensures var page := PageColumns(a[0], year, st);
      var rest := PagesFrom(a[1..] + b, year, page.state);
      PagesFrom(a + b, year, st) == ColumnResult(page.txs + rest.txs, rest.state)
    ensures var page := PageColumns(a[0], year, st);
      var rest := PagesFrom(a[1..], year, page.state);
      PagesFrom(a, year, st) == ColumnResult(page.txs + rest.txs, rest.state)
  {
    assert (a + b)[0] == a[0] && (a + b)[1..] == a[1..] + b;
  }

  /** A page without a purchases section is passed over: it adds nothing and the
      state reaches the next page unchanged. */
  lemma SkippedPageIsInert(p: Page, rest: seq<Page>, year: int, st: PassState)
    requires !HasPurchases(p.text)
    ensures PagesFrom([p] + rest, year, st) == PagesFrom(rest, year, st)
  {
    assert ([p] + rest)[0] == p && ([p] + rest)[1..] == rest;
    assert [] + PagesFrom(rest, year, st).txs == PagesFrom(rest, year, st).txs;
  }

  /** Card numbers stay four digits across pages. */
  lemma {:induction false} PagesCardsOk(pages: seq<Page>, year: int, st: PassState)
    requires CardOk(st.card)
    ensures var r := PagesFrom(pages, year, st);
      CardOk(r.state.card) && forall t :: t in r.txs ==> CardOk(t.card)
    decreases |pages|
  {
    if |pages| > 0 {
      var p := pages[0];
      if HasPurchases(p.text) {
        ColumnOfCardsOk(p.left, year, st);
        var left := ColumnOf(p.left, year, st);
        ColumnOfCardsOk(p.right, year, left.state);
      }
      var first := PageColumns(p, year, st);
      PagesCardsOk(pages[1..], year, first.state);
    }
  }

  lemma ColumnOfCardsOk(col: Option<string>, year: int, st: PassState)
    requires CardOk(st.card)
    ensures var r := ColumnOf(col, year, st);
      CardOk(r.state.card) && forall t :: t in r.txs ==> CardOk(t.card)
  {
    if col.Some? {
      ColumnCardsOk(Split(col.value, '\n'), 0, year, st);
    }
  }

  /** What the second pass appends: dated in the reading year, and neither paid
      online nor carrying foreign-currency details. */
  predicate CardPurchase(t: Transaction, year: int) {
    t.date.year == year && t.paymentMethod.None? && t.international.None?
  }

  lemma {:induction false} ColumnPurchases(lines: seq<string>, i: nat, year: int, st: PassState)
    requires i <= |lines|
    ensures forall t :: t in ColumnFrom(lines, i, year, st).txs ==> CardPurchase(t, year)
    decreases |lines| - i
  {
    if i < |lines| {
      var s := Step(lines, i, year, st);
      ColumnPurchases(lines, s.next, year, s.state);
    }
  }

  lemma ColumnOfPurchases(col: Option<string>, year: int, st: PassState)
    ensures forall t :: t in ColumnOf(col, year, st).txs ==> CardPurchase(t, year)
  {
    if col.Some? {
      ColumnPurchases(Split(col.value, '\n'), 0, year, st);
    }
  }

  /** What one page appends is card purchases of the reading year. */
  lemma PagePurchases(p: Page, year: int, st: PassState)
    ensures forall t :: t in PageColumns(p, year, st).txs ==> CardPurchase(t, year)
  {
    if HasPurchases(p.text) {
      ColumnOfPurchases(p.left, year, st);
      var left := ColumnOf(p.left, year, st);
      ColumnOfPurchases(p.right, year, left.state);
    }
  }
}
