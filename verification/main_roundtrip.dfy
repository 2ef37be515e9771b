/** Round trips through the second pass: a column holding one purchase line as the
    statement prints it, optionally followed by its category line, yields exactly
    that purchase. */
module MainRoundTrip {
  import opened Basics
  import opened Text
  import opened Dates
  import opened Money
  import opened Patterns
  import opened AmountShape
  import opened ItauPatterns
  import opened ItauModel
  import opened LineShapes
  import opened MainPass

  /** The purchase a printed line stands for, before any category is attached. */
  function Purchased(d: Date, description: string, cents: int, card: Option<string>): Transaction {
    Transaction(d, description, cents, None, None, card, AVista, None, None, None)
  }

  /** A printed rest whose description has no `/` has no `/` at all. */
  lemma RestHasNoSlash(description: string, cents: int)
    requires '/' !in description
    ensures '/' !in PurchaseRest(description, cents)
  {
    var r := PurchaseRest(description, cents);
    var f := FormatBrl(cents);
    FormatChars(cents);
    forall i | 0 <= i < |r|
      ensures r[i] != '/'
    {
      if i < |description| {
        assert r[i] == description[i];
      } else if i > |description| {
        assert r[i] == f[i - |description| - 1];
      }
    }
  }

  /** The candidate a printed purchase line makes: its date and its rest, read as
      the purchase with the right date and amount. */
  lemma PlainPurchase(d: Date, description: string, cents: int, next: Option<string>, card: Option<string>)
    requires ValidDate(d) && Describes(description) && |description| >= 2 && '/' !in description
    ensures Purchase(DateSplit(DayMonthText(d), PurchaseRest(description, cents)), next, d.year, card)
      == WithCategory(Purchased(d, description, cents, card), next)
  {
    var r := PurchaseRest(description, cents);
    RestHasNoSlash(description, cents);
    NoInstallment(r);
    RestAmountTail(description, cents);
    ParseDateRoundTrip(d);
    BrlRoundTrip(cents);
  }

  /** The first step on a printed purchase line, outside both sections. */
  lemma PlainStep(lines: seq<string>, d: Date, description: string, cents: int, st: PassState)
    requires ValidDate(d) && Describes(description) && |description| >= 2 && '/' !in description
    requires |lines| > 0 && lines[0] == PurchaseLine(d, description, cents)
    requires !st.inFuture && !st.inIntl && Unmarked(lines[0])
    ensures var o := WithCategory(Purchased(d, description, cents, st.card), NextLine(lines, 0));
      Step(lines, 0, d.year, st) == StepResult(o.tx, o.used, st)
  {
    LineStripped(d, description, cents);
    LineDate(d, description, cents);
    PlainPurchase(d, description, cents, NextLine(lines, 0), st.card);
  }

  /** A column result made of `t` followed by nothing. */
  lemma OnlyFirst(r: ColumnResult, tx: Option<Transaction>, rest: ColumnResult, t: Transaction, st: PassState)
    requires r == if tx.Some? then ColumnResult([tx.value] + rest.txs, rest.state) else rest
    requires tx == Some(t) && rest == ColumnResult([], st)
    ensures r == ColumnResult([t], st)
  {
    assert [t] + [] == [t];
  }

  /** A column whose first step appends `t` and consumes every line. */
  lemma SingleStepColumn(lines: seq<string>, year: int, st: PassState, t: Transaction)
    requires |lines| > 0 && Step(lines, 0, year, st) == StepResult(Some(t), |lines|, st)
    ensures ColumnFrom(lines, 0, year, st) == ColumnResult([t], st)
  {
    ColumnUnfold(lines, 0, year, st);
    var s := Step(lines, 0, year, st);
    OnlyFirst(ColumnFrom(lines, 0, year, st), s.tx, ColumnFrom(lines, s.next, year, s.state), t, st);
  }

  /** A printed purchase line on its own reads back as that purchase, with the card
      of the state and the state unchanged. */
  lemma PlainLineRoundTrip(d: Date, description: string, cents: int, st: PassState)
    requires ValidDate(d) && Describes(description) && |description| >= 2 && '/' !in description
    requires !st.inFuture && !st.inIntl && Unmarked(PurchaseLine(d, description, cents))
    ensures ColumnFrom([PurchaseLine(d, description, cents)], 0, d.year, st)
      == ColumnResult([Purchased(d, description, cents, st.card)], st)
  {
    var lines := [PurchaseLine(d, description, cents)];
    var t := Purchased(d, description, cents, st.card);
    PlainStep(lines, d, description, cents, st);
    assert NextLine(lines, 0) == None;
    assert WithCategory(t, None) == Outcome(Some(t), 1);
    SingleStepColumn(lines, d.year, st, t);
  }

  /** A printed category line is its own `strip()`. */
  lemma CategoryLineStripped(category: string, location: string)
    requires |category| > 0 && CategoryLetter(category[0])
    requires |location| > 0 && Trimmed(location)
    ensures Strip(category + " . " + location) == category + " . " + location
  {
    var l := category + " . " + location;
    assert l[0] == category[0] && l[|l| - 1] == location[|location| - 1];
    TrimmedIsStripped(l);
  }

  /** A printed purchase line followed by its category line reads back as the
      purchase with that category and the location in capitals; both lines are
      consumed. */
  lemma CategorizedLineRoundTrip(
    d: Date, description: string, cents: int, category: string, location: string, st: PassState)
    requires ValidDate(d) && Describes(description) && |description| >= 2 && '/' !in description
    requires !st.inFuture && !st.inIntl && Unmarked(PurchaseLine(d, description, cents))
    requires |category| > 0 && CategoryLetter(category[0]) && Trimmed(category)
    requires forall i :: 0 <= i < |category| ==> CategoryLetter(category[i]) || category[i] == ' '
    requires |location| > 0 && Trimmed(location)
    requires forall i :: 0 <= i < |location| ==> LocationChar(location[i])
    ensures ColumnFrom([PurchaseLine(d, description, cents), category + " . " + location], 0, d.year, st)
      == ColumnResult([Purchased(d, description, cents, st.card)
                         .(category := Some(category), location := Some(Upper(location)))], st)
  {
    var catLine := category + " . " + location;
    var lines := [PurchaseLine(d, description, cents), catLine];
    var t := Purchased(d, description, cents, st.card);
    var t' := t.(category := Some(category), location := Some(Upper(location)));
    PlainStep(lines, d, description, cents, st);
    CategoryLineStripped(category, location);
    CategoryLocationRoundTrip(category, location);
    assert NextLine(lines, 0) == Some(catLine);
    assert WithCategory(t, Some(catLine)) == Outcome(Some(t'), 2);
    SingleStepColumn(lines, d.year, st, t');
  }

  /** The purchase a printed installment line stands for, before any category is
      attached. */
  function Installed(d: Date, description: string, current: nat, total: nat, cents: int,
                     card: Option<string>): Transaction {
    Transaction(d, description, cents, None, None, card, Parcelada,
                Some(Installment(current, total)), None, None)
  }

  /** The candidate a printed installment line makes reads as the installment
      purchase with its date, numbers and amount. */
  lemma InstallmentPurchase(d: Date, description: string, current: nat, total: nat, cents: int,
                            next: Option<string>, card: Option<string>)
    requires ValidDate(d) && Trimmed(description) && '/' !in description
    requires current < 100 && total < 100
    ensures Purchase(DateSplit(DayMonthText(d), InstallmentRest(description, current, total, cents)),
                     next, d.year, card)
      == WithCategory(Installed(d, description, current, total, cents, card), next)
  {
    InstallmentRestTail(description, current, total, cents);
    ParseDateRoundTrip(d);
    BrlRoundTrip(cents);
  }

  /** The first step on a printed installment line, outside both sections. */
  lemma InstallmentStep(lines: seq<string>, d: Date, description: string, current: nat, total: nat,
                        cents: int, st: PassState)
    requires ValidDate(d) && Trimmed(description) && '/' !in description
    requires current < 100 && total < 100
    requires |lines| > 0 && lines[0] == DatedLine(d, InstallmentRest(description, current, total, cents))
    requires !st.inFuture && !st.inIntl && Unmarked(lines[0])
    ensures var o := WithCategory(Installed(d, description, current, total, cents, st.card),
                                  NextLine(lines, 0));
      Step(lines, 0, d.year, st) == StepResult(o.tx, o.used, st)
  {
    InstallmentRestTrimmed(description, current, total, cents);
    DatedLineReads(d, InstallmentRest(description, current, total, cents));
    InstallmentPurchase(d, description, current, total, cents, NextLine(lines, 0), st.card);
  }

  /** A printed installment line on its own reads back as that installment
      purchase, with both installment numbers, the card of the state and the state
      unchanged. */
  lemma InstallmentLineRoundTrip(d: Date, description: string, current: nat, total: nat,
                                 cents: int, st: PassState)
    requires ValidDate(d) && Trimmed(description) && '/' !in description
    requires current < 100 && total < 100
    requires !st.inFuture && !st.inIntl
    requires Unmarked(DatedLine(d, InstallmentRest(description, current, total, cents)))
    ensures ColumnFrom([DatedLine(d, InstallmentRest(description, current, total, cents))], 0, d.year, st)
      == ColumnResult([Installed(d, description, current, total, cents, st.card)], st)
  {
    var lines := [DatedLine(d, InstallmentRest(description, current, total, cents))];
    var t := Installed(d, description, current, total, cents, st.card);
    InstallmentStep(lines, d, description, current, total, cents, st);
    assert NextLine(lines, 0) == None;
    assert WithCategory(t, None) == Outcome(Some(t), 1);
    SingleStepColumn(lines, d.year, st, t);
  }
}
