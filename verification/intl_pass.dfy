/** The parser's third pass, `_parse_international_from_text` and
    `_finalize_intl_transaction`: purchases abroad, read column by column with a
    fresh state per column. A dated line opens a pending purchase; the dollar-rate
    line, the section total or the next dated line turns it into a transaction. */
module IntlPass {
  import opened Basics
  import opened Text
  import opened Dates
  import opened Money
  import opened ItauPatterns
  import opened ItauModel
  import opened MainPass
  import Patterns

  /** What a details line adds to a pending purchase: the city as captured, the
      amount in the original currency and the currency code. */
  datatype Details = Details(city: string, origAmount: int, currency: string)

  /** The `pending` dictionary: the keys a dated line sets, plus those a details
      line and the dollar-rate line add. */
  datatype Pending = Pending(
    date: Date,
    description: string,
    amountBrl: int,
    card: Option<string>,
    details: Option<Details>,
    exchangeRate: Option<int>)

  /** The per-column locals: the current card, whether the lines are inside the
      international section, and the purchase waiting for its details. */
  datatype IntlState = IntlState(card: Option<string>, inSection: bool, pending: Option<Pending>)

  const Fresh := IntlState(None, false, None)

  /** What every transaction of this pass looks like: no card, paid at once, online,
      with no installment, category or location. */
  predicate IntlShape(t: Transaction) {
    && t.card.None? && t.kind == AVista && t.paymentMethod == Some(Online)
    && t.installment.None? && t.category.None? && t.location.None?
  }

  /** Foreign-currency details as the unsigned patterns read them: amounts that are
      not negative and one of the three currency codes. */
  predicate DetailsOk(details: Option<Details>) {
    details.Some? ==> details.value.origAmount >= 0 && details.value.currency in Patterns.Currencies
  }

  predicate InfoOk(t: Transaction) {
    t.international.Some? ==>
      var i := t.international.value;
      i.originalAmount >= 0 && i.exchangeRate >= 0 && i.originalCurrency in Patterns.Currencies
  }

  /** `_finalize_intl_transaction`: the pending purchase as a transaction. The
      foreign-currency record is present exactly when a details line was read; its
      rate is 0 when no rate was read. The card the purchase was listed under is
      not kept. */
  function Finalize(p: Pending): (t: Transaction)
    ensures IntlShape(t)
    ensures t.date == p.date && t.description == p.description && t.amountBrl == p.amountBrl
    ensures t.international.Some? <==> p.details.Some?
    ensures p.details.Some? ==> var i := t.international.value;
      && i.originalAmount == p.details.value.origAmount
      && i.originalCurrency == p.details.value.currency
      && i.city == Some(p.details.value.city)
      && (p.exchangeRate.Some? ==> i.exchangeRate == p.exchangeRate.value)
      && (p.exchangeRate.None? ==> i.exchangeRate == 0)
    ensures DetailsOk(p.details) && (p.exchangeRate.Some? ==> p.exchangeRate.value >= 0) ==> InfoOk(t)
  {
    var info :=
      if p.details.Some? then
        Some(InternationalInfo(p.details.value.origAmount, p.details.value.currency,
                               p.exchangeRate.GetOr(0), Some(p.details.value.city)))
      else None;
    Transaction(p.date, p.description, p.amountBrl, None, None, None, AVista, None, info, Some(Online))
  }

  /** The pending purchase, finalized, if there is one. */
  function Flush(pending: Option<Pending>): (r: Option<Transaction>)
    ensures r.Some? <==> pending.Some?
    ensures r.Some? ==> r.value == Finalize(pending.value)
  {
    if pending.Some? then Some(Finalize(pending.value)) else None
  }

  /** The line tests of the loop, in the order the source makes them. */
  predicate IsSectionTotal(line: string) {
    Contains(line, "Total transa") && Contains(line, "inter")
  }

  predicate IsIofLine(line: string) {
    Contains(line, "Repasse") && Contains(line, "IOF")
  }

  predicate IsSectionEnd(line: string) {
    Contains(line, "Total lan") && Contains(line, "inter")
  }

  predicate IsGrandTotal(line: string) {
    Contains(line, "Total dos lan")
  }

  predicate IsRateLine(line: string) {
    Contains(line, "Dólar") && Contains(line, "Conversão")
  }

  /** A line none of the keyword tests catch, so that inside the section it is read
      as a dated line or a details line. */
  predicate IntlUnmarked(line: string) {
    && !IsIntlHeader(line) && !IsSectionTotal(line) && !IsIofLine(line) && !IsSectionEnd(line)
    && !IsGrandTotal(line) && !IsCardHeader(line) && !IsRateLine(line)
  }

  /** The card a line sets: the number `final NNNN` reads, or the current one. */
  function CardAfter(line: string, card: Option<string>): (c: Option<string>)
    ensures c == card || c == CardFinal(line) != None
  {
    if CardFinal(line).Some? then CardFinal(line) else card
  }

  /** What one line does: the transaction it appends, the IOF amount it reads, and
      the new state. */
  datatype IntlOut = IntlOut(tx: Option<Transaction>, iof: Option<int>, state: IntlState)

  /** A dated line inside the section: whatever is pending is finalized first (and
      stays pending); a rest ending in an amount then replaces it with a new pending
      purchase, or with nothing when `datetime.date` rejects the date. */
  function DatedStep(split: DateSplit, year: int, st: IntlState): (r: IntlOut)
    ensures r.tx == Flush(st.pending) && r.iof.None?
    ensures r.state.card == st.card && r.state.inSection == st.inSection
    ensures AmountTail(split.rest).None? ==> r.state == st
    ensures AmountTail(split.rest).Some? ==> var a := AmountTail(split.rest).value;
      r.state.pending == (
        match ParseDate(split.date, year)
        case None => None
        case Some(d) => Some(Pending(d, a.description, ParseBrlAmount(a.amount), st.card, None, None)))
  {
    var flushed := Flush(st.pending);
    match AmountTail(split.rest)
    case None => IntlOut(flushed, None, st)
    case Some(a) =>
      match ParseDate(split.date, year)
      case None => IntlOut(flushed, None, st.(pending := None))
      case Some(d) =>
        IntlOut(flushed, None,
                st.(pending := Some(Pending(d, a.description, ParseBrlAmount(a.amount), st.card, None, None))))
  }

  /** The dollar-rate line: with a purchase pending, the rate it reads (if any) is
      recorded and the purchase is finalized and cleared. */
  function RateLine(line: string, st: IntlState): (r: IntlOut)
    ensures r.iof.None? && r.state.pending.None?
    ensures r.tx.Some? <==> st.pending.Some?
    ensures st.pending.Some? ==> r.tx.value == Finalize(st.pending.value.(exchangeRate :=
      if ExchangeRate(line).Some? then Some(ParseBrlAmount(ExchangeRate(line).value))
      else st.pending.value.exchangeRate))
  {
    if st.pending.None? then IntlOut(None, None, st)
    else
      var p := st.pending.value;
      var p' :=
        if ExchangeRate(line).Some? then p.(exchangeRate := Some(ParseBrlAmount(ExchangeRate(line).value)))
        else p;
      IntlOut(Some(Finalize(p')), None, st.(pending := None))
  }

  /** A pending purchase of the column: dated in `year` and with no rate yet. */
  predicate PendingOk(pending: Option<Pending>, year: int) {
    pending.Some? ==>
      pending.value.date.year == year && pending.value.exchangeRate.None? && DetailsOk(pending.value.details)
  }

  /** What the pass appends from such a purchase: the shape of the pass, dated in
      `year`, with well-formed foreign-currency details. */
  predicate Appended(t: Transaction, year: int) {
    IntlShape(t) && t.date.year == year && InfoOk(t)
  }

  /** A details line and what it adds to the pending purchase. */
  function WithDetails(m: DetailsLine, p: Pending): (p': Pending)
    ensures p'.details.Some? && p'.details.value.city == m.city && p'.details.value.currency == m.currency
    ensures p'.date == p.date && p'.description == p.description && p'.amountBrl == p.amountBrl
    ensures p'.card == p.card && p'.exchangeRate == p.exchangeRate
    ensures m.currency in Patterns.Currencies && '-' !in m.origAmount ==> DetailsOk(p'.details)
  {
    p.(details := Some(Details(m.city, ParseBrlAmount(m.origAmount), m.currency)))
  }

  /** What a line is, in the order the loop tests it. */
  datatype IntlKind =
    | Header
    | Outside
    | SectionTotal
    | Iof
    | SectionEnd
    | GrandTotal
    | CardLine
    | RateKind
    | Dated(split: DateSplit)
    | DetailsKind(m: DetailsLine)
    | Other

  function IntlClassify(line: string, st: IntlState): (k: IntlKind)
    ensures k.Header? <==> IsIntlHeader(line)
    ensures k.Outside? <==> !IsIntlHeader(line) && !st.inSection
    ensures k.Dated? ==> IntlUnmarked(line) && LeadingDate(line) == Some(k.split)
    ensures st.inSection && IntlUnmarked(line) && LeadingDate(line).Some? ==>
      k == Dated(LeadingDate(line).value)
    ensures k.DetailsKind? ==> st.pending.Some? && k.m.currency in Patterns.Currencies && '-' !in k.m.origAmount
    ensures k.Iof? ==> IsIofLine(line)
    ensures st.inSection && IntlUnmarked(line) && LeadingDate(line).None? ==>
      k == if IntlDetails(line).Some? && st.pending.Some? then DetailsKind(IntlDetails(line).value) else Other
  {
    if IsIntlHeader(line) then Header
    else if !st.inSection then Outside
    else if IsSectionTotal(line) then SectionTotal
    else if IsIofLine(line) then Iof
    else if IsSectionEnd(line) then SectionEnd
    else if IsGrandTotal(line) then GrandTotal
    else if IsCardHeader(line) then CardLine
    else if IsRateLine(line) then RateKind
    else if LeadingDate(line).Some? then Dated(LeadingDate(line).value)
    else if IntlDetails(line).Some? && st.pending.Some? then DetailsKind(IntlDetails(line).value)
    else Other
  }

  /** What a line of a given kind does. */
  function IntlAct(k: IntlKind, line: string, year: int, st: IntlState): (r: IntlOut)
    requires k.DetailsKind? ==> st.pending.Some? && k.m.currency in Patterns.Currencies && '-' !in k.m.origAmount
    ensures k.Header? ==> r == IntlOut(None, None, st.(inSection := true, card := CardAfter(line, st.card)))
    ensures k.Outside? || k.Other? ==> r == IntlOut(None, None, st)
    ensures r.tx.Some? ==> IntlShape(r.tx.value) && st.pending.Some?
    ensures r.tx.Some? ==> var p := st.pending.value;
      r.tx.value.date == p.date && r.tx.value.description == p.description
      && r.tx.value.amountBrl == p.amountBrl
    ensures r.tx.Some? ==> k.SectionTotal? || k.GrandTotal? || k.RateKind? || k.Dated?
    ensures r.iof.Some? ==> k.Iof? && r.tx.None? && r.state == st && IofAmount(line).Some?
    ensures r.state.card == st.card || r.state.card == CardFinal(line) != None
    ensures k.Dated? ==> r == DatedStep(k.split, year, st)
    ensures r.state.inSection && !st.inSection ==> k.Header?
    ensures PendingOk(st.pending, year) ==> PendingOk(r.state.pending, year)
    ensures PendingOk(st.pending, year) && r.tx.Some? ==> Appended(r.tx.value, year)
  {
    match k
    case Header => IntlOut(None, None, st.(inSection := true, card := CardAfter(line, st.card)))
    case Outside => IntlOut(None, None, st)
    case SectionTotal => IntlOut(Flush(st.pending), None, st.(pending := None))
    case Iof =>
      if IofAmount(line).Some? then IntlOut(None, Some(ParseBrlAmount(IofAmount(line).value)), st)
      else IntlOut(None, None, st)
    case SectionEnd => IntlOut(None, None, st.(inSection := false))
    case GrandTotal => IntlOut(Flush(st.pending), None, st.(pending := None, inSection := false))
    case CardLine => IntlOut(None, None, st.(card := CardAfter(line, st.card)))
    case RateKind => RateLine(line, st)
    case Dated(split) => DatedStep(split, year, st)
    case DetailsKind(m) => IntlOut(None, None, st.(pending := Some(WithDetails(m, st.pending.value))))
    case Other => IntlOut(None, None, st)
  }

  /** One line of the loop of `_parse_international_from_text`. Only the section
      header opens the section; outside it nothing else happens. A transaction is
      appended only inside the section, from the purchase that was pending; the IOF
      line only reads the IOF amount; only `final NNNN` changes the card. */
  function IntlStep(line: string, year: int, st: IntlState): (r: IntlOut)
    ensures IsIntlHeader(line) ==> r == IntlOut(None, None, st.(inSection := true, card := CardAfter(line, st.card)))
    ensures !IsIntlHeader(line) && !st.inSection ==> r == IntlOut(None, None, st)
    ensures r.tx.Some? ==> IntlShape(r.tx.value) && st.inSection && st.pending.Some?
    ensures r.tx.Some? ==> var p := st.pending.value;
      r.tx.value.date == p.date && r.tx.value.description == p.description
      && r.tx.value.amountBrl == p.amountBrl
    ensures r.iof.Some? ==> r.tx.None? && r.state == st && IofAmount(line).Some?
    ensures r.state.card == st.card || r.state.card == CardFinal(line) != None
    ensures r.state.inSection && !st.inSection ==> IsIntlHeader(line)
    ensures PendingOk(st.pending, year) ==> PendingOk(r.state.pending, year)
    ensures PendingOk(st.pending, year) && r.tx.Some? ==> Appended(r.tx.value, year)
    ensures st.inSection && IntlUnmarked(line) && LeadingDate(line).Some? ==>
      r == DatedStep(LeadingDate(line).value, year, st)
  {
    IntlAct(IntlClassify(line, st), line, year, st)
  }

  /** The later of two IOF readings: each assignment overwrites the previous one. */
  function Latest(earlier: Option<int>, later: Option<int>): (r: Option<int>)
    ensures later.Some? ==> r == later
    ensures later.None? ==> r == earlier
  {
    if later.Some? then later else earlier
  }

  /** What a column, or a run of columns, appends, the last IOF amount it read, and
      the state it leaves. */
  datatype IntlResult = IntlResult(txs: seq<Transaction>, iof: Option<int>, state: IntlState)

  /** The loop of one column from line `i` on. Every transaction it appends has the
      shape of the pass; started from a state whose pending purchase is dated in
      `year`, every transaction is dated in `year`. */
  function IntlColumnFrom(lines: seq<string>, i: nat, year: int, st: IntlState): (r: IntlResult)
    requires i <= |lines|
    ensures forall k :: 0 <= k < |r.txs| ==> IntlShape(r.txs[k])
    ensures PendingOk(st.pending, year) ==>
      PendingOk(r.state.pending, year) && forall k :: 0 <= k < |r.txs| ==> Appended(r.txs[k], year)
    ensures |r.txs| <= |lines| - i
    decreases |lines| - i
  {
    if i == |lines| then IntlResult([], None, st)
    else
      var s := IntlStep(lines[i], year, st);
      var rest := IntlColumnFrom(lines, i + 1, year, s.state);
      var txs := (if s.tx.Some? then [s.tx.value] else []) + rest.txs;
      IntlResult(txs, Latest(s.iof, rest.iof), rest.state)
  }

  /** A column's text, read with a fresh state; a purchase still pending at the end
      is dropped. */
  function IntlColumn(text: string, year: int): (r: IntlResult)
    ensures forall k :: 0 <= k < |r.txs| ==> Appended(r.txs[k], year)
  {
    IntlColumnFrom(Split(text, '\n'), 0, year, Fresh)
  }

  /** A column that may have failed to extract, read only when its text mentions
      the international section (the same test `IsIntlHeader` makes on a line). */
  function IntlColumnOf(col: Option<string>, year: int): (r: IntlResult)
    ensures col.None? || !IsIntlHeader(col.value) ==> r == IntlResult([], None, Fresh)
    ensures forall k :: 0 <= k < |r.txs| ==> Appended(r.txs[k], year)
  {
    if col.Some? && IsIntlHeader(col.value) then IntlColumn(col.value, year)
    else IntlResult([], None, Fresh)
  }

  /** One page: read only when its text mentions the international section; left
      column, then right column, each on its own. */
  function IntlPage(page: Page, year: int): (r: IntlResult)
    ensures !IsIntlHeader(page.text) ==> r == IntlResult([], None, Fresh)
    ensures forall k :: 0 <= k < |r.txs| ==> Appended(r.txs[k], year)
  {
    if !IsIntlHeader(page.text) then IntlResult([], None, Fresh)
    else
      var left := IntlColumnOf(page.left, year);
      var right := IntlColumnOf(page.right, year);
      IntlResult(left.txs + right.txs, Latest(left.iof, right.iof), right.state)
  }

  /** The third pass over every page; the IOF amount is the last one read. */
  function IntlPages(pages: seq<Page>, year: int): (r: IntlResult)
    ensures forall k :: 0 <= k < |r.txs| ==> Appended(r.txs[k], year)
    decreases |pages|
  {
    if |pages| == 0 then IntlResult([], None, Fresh)
    else
      var first := IntlPage(pages[0], year);
      var rest := IntlPages(pages[1..], year);
      IntlResult(first.txs + rest.txs, Latest(first.iof, rest.iof), rest.state)
  }
}
