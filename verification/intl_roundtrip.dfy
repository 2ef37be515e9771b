/** What the third pass makes of printed purchase lines inside the international
    section: the purchase a dated line opens, the transaction the section total
    turns it into, the purchase lost when nothing closes it, and the purchase
    finalized twice when a dated line without an amount follows it. */
module IntlRoundTrip {
  import opened Basics
  import opened Text
  import opened Dates
  import opened Money
  import opened ItauPatterns
  import opened ItauModel
  import opened LineShapes
  import opened MainPass
  import opened IntlPass

  /** The purchase a printed line opens, before any details or rate. */
  function Opened(d: Date, description: string, cents: int, card: Option<string>): Pending {
    Pending(d, description, cents, card, None, None)
  }

  /** A printed purchase line inside the section finalizes what was pending and
      opens the purchase it prints, under the current card. Unlike the second
      pass, a one-character description is accepted. */
  lemma IntlPurchaseStep(d: Date, description: string, cents: int, st: IntlState)
    requires ValidDate(d) && Describes(description) && st.inSection
    requires IntlUnmarked(PurchaseLine(d, description, cents))
    ensures IntlStep(PurchaseLine(d, description, cents), d.year, st)
      == IntlOut(Flush(st.pending), None, st.(pending := Some(Opened(d, description, cents, st.card))))
  {
    LineDate(d, description, cents);
    RestAmountTail(description, cents);
    ParseDateRoundTrip(d);
    BrlRoundTrip(cents);
  }

  /** A section total inside the section finalizes and clears what is pending. */
  lemma SectionTotalFlushes(line: string, year: int, st: IntlState)
    requires st.inSection && !IsIntlHeader(line) && IsSectionTotal(line)
    ensures IntlStep(line, year, st) == IntlOut(Flush(st.pending), None, st.(pending := None))
  {
  }

  /** `Total dos lan…` inside the section, after the section total, IOF and end
      tests, finalizes and clears what is pending and closes the section. */
  lemma GrandTotalFlushes(line: string, year: int, st: IntlState)
    requires st.inSection && !IsIntlHeader(line) && !IsSectionTotal(line) && !IsIofLine(line)
    requires !IsSectionEnd(line) && IsGrandTotal(line)
    ensures IntlStep(line, year, st) == IntlOut(Flush(st.pending), None, st.(pending := None, inSection := false))
  {
  }

  /** A printed purchase line followed by the section total reads back as that
      purchase abroad: no card, paid at once, online, without foreign-currency
      details. */
  lemma ClosedPurchase(d: Date, description: string, cents: int, closing: string, st: IntlState)
    requires ValidDate(d) && Describes(description) && st.inSection && st.pending.None?
    requires IntlUnmarked(PurchaseLine(d, description, cents))
    requires !IsIntlHeader(closing) && IsSectionTotal(closing)
    ensures IntlColumnFrom([PurchaseLine(d, description, cents), closing], 0, d.year, st)
      == IntlResult([Finalize(Opened(d, description, cents, st.card))], None, st)
  {
    var lines := [PurchaseLine(d, description, cents), closing];
    var p := Opened(d, description, cents, st.card);
    IntlPurchaseStep(d, description, cents, st);
    var st1 := st.(pending := Some(p));
    SectionTotalFlushes(closing, d.year, st1);
    assert IntlColumnFrom(lines, 2, d.year, st) == IntlResult([], None, st);
    assert IntlColumnFrom(lines, 1, d.year, st1) == IntlResult([Finalize(p)], None, st);
  }

  /** A printed purchase line that nothing closes is never appended: the column
      ends with it still pending. */
  lemma OpenPurchaseDropped(d: Date, description: string, cents: int, st: IntlState)
    requires ValidDate(d) && Describes(description) && st.inSection && st.pending.None?
    requires IntlUnmarked(PurchaseLine(d, description, cents))
    ensures IntlColumnFrom([PurchaseLine(d, description, cents)], 0, d.year, st)
      == IntlResult([], None, st.(pending := Some(Opened(d, description, cents, st.card))))
  {
    IntlPurchaseStep(d, description, cents, st);
  }

  /** Outside the section, lines that do not reopen it add nothing and leave the
      state as it is, pending purchase included. */
  lemma {:induction false} OutsideInert(lines: seq<string>, i: nat, year: int, st: IntlState)
    requires i <= |lines| && !st.inSection
    requires forall j :: i <= j < |lines| ==> !IsIntlHeader(lines[j])
    ensures IntlColumnFrom(lines, i, year, st) == IntlResult([], None, st)
    decreases |lines| - i
  {
    if i < |lines| {
      OutsideInert(lines, i + 1, year, st);
    }
  }

  /** The `Total lan... inter` line closes the section without finalizing: a
      purchase still pending is lost unless a later header reopens the section. */
  lemma SectionEndDropsPending(lines: seq<string>, year: int, st: IntlState)
    requires |lines| > 0 && st.inSection
    requires !IsIntlHeader(lines[0])
    requires !IsSectionTotal(lines[0]) && !IsIofLine(lines[0]) && IsSectionEnd(lines[0])
    requires forall j :: 1 <= j < |lines| ==> !IsIntlHeader(lines[j])
    ensures IntlColumnFrom(lines, 0, year, st) == IntlResult([], None, st.(inSection := false))
  {
    assert IntlStep(lines[0], year, st) == IntlOut(None, None, st.(inSection := false));
    OutsideInert(lines, 1, year, st.(inSection := false));
  }

  /** A dated line whose rest does not end in an amount finalizes the pending
      purchase but leaves it pending, so the section total finalizes it a second
      time: the same purchase is appended twice. */
  lemma DoubleFinalize(p: Pending, dated: string, closing: string, year: int, st: IntlState)
    requires st.inSection && st.pending == Some(p)
    requires IntlUnmarked(dated) && LeadingDate(dated).Some?
    requires AmountTail(LeadingDate(dated).value.rest).None?
    requires !IsIntlHeader(closing) && IsSectionTotal(closing)
    ensures IntlColumnFrom([dated, closing], 0, year, st).txs == [Finalize(p), Finalize(p)]
  {
    var lines := [dated, closing];
    assert IntlStep(dated, year, st) == IntlOut(Some(Finalize(p)), None, st);
    SectionTotalFlushes(closing, year, st);
    assert IntlColumnFrom(lines, 2, year, st.(pending := None)).txs == [];
    assert IntlColumnFrom(lines, 1, year, st).txs == [Finalize(p)];
  }

  /** The dollar-rate line finalizes the pending purchase with the rate it reads,
      and clears it. */
  lemma RateCompletes(p: Pending, line: string, year: int, st: IntlState)
    requires st.inSection && st.pending == Some(p) && IsRateLine(line)
    requires !IsIntlHeader(line) && !IsSectionTotal(line) && !IsIofLine(line)
    requires !IsSectionEnd(line) && !IsGrandTotal(line) && !IsCardHeader(line)
    ensures var rate := if ExchangeRate(line).Some? then Some(ParseBrlAmount(ExchangeRate(line).value))
                        else p.exchangeRate;
      IntlStep(line, year, st) == IntlOut(Some(Finalize(p.(exchangeRate := rate))), None, st.(pending := None))
  {
    assert IntlClassify(line, st) == RateKind;
    assert IntlStep(line, year, st) == RateLine(line, st);
  }

  /** A details line inside the section completes the pending purchase with its
      city, original amount and currency. */
  lemma DetailsFilled(line: string, year: int, st: IntlState)
    requires st.inSection && IntlUnmarked(line) && LeadingDate(line).None?
    requires IntlDetails(line).Some? && st.pending.Some?
    ensures IntlStep(line, year, st)
      == IntlOut(None, None, st.(pending := Some(WithDetails(IntlDetails(line).value, st.pending.value))))
  {
    DetailsClassified(line, st);
    DetailsAct(IntlDetails(line).value, line, year, st);
  }

  lemma DetailsAct(m: DetailsLine, line: string, year: int, st: IntlState)
    requires st.pending.Some? && m.currency in Patterns.Currencies && '-' !in m.origAmount
    ensures IntlAct(DetailsKind(m), line, year, st) == IntlOut(None, None, st.(pending := Some(WithDetails(m, st.pending.value))))
  {
  }

  lemma DetailsClassified(line: string, st: IntlState)
    requires st.inSection && IntlUnmarked(line) && LeadingDate(line).None?
    requires IntlDetails(line).Some? && st.pending.Some?
    ensures IntlClassify(line, st) == DetailsKind(IntlDetails(line).value)
  {
  }

  /** With nothing pending, a details line is ignored. */
  lemma DetailsIgnored(line: string, year: int, st: IntlState)
    requires st.inSection && IntlUnmarked(line) && LeadingDate(line).None? && st.pending.None?
    ensures IntlStep(line, year, st) == IntlOut(None, None, st)
  {
    assert IntlClassify(line, st) == Other;
  }

  /** A details line fills the pending purchase when there is one and is ignored
      otherwise; either way the pending purchase stays well formed. */
  lemma DetailsFill(line: string, year: int, st: IntlState)
    requires st.inSection && IntlUnmarked(line) && LeadingDate(line).None?
    requires IntlDetails(line).Some?
    ensures st.pending.Some? ==>
      IntlStep(line, year, st)
        == IntlOut(None, None, st.(pending := Some(WithDetails(IntlDetails(line).value, st.pending.value))))
    ensures st.pending.None? ==> IntlStep(line, year, st) == IntlOut(None, None, st)
    ensures PendingOk(st.pending, year) ==> PendingOk(IntlStep(line, year, st).state.pending, year)
  {
    if st.pending.Some? {
      DetailsFilled(line, year, st);
    } else {
      DetailsIgnored(line, year, st);
    }
  }
}
