/** The parser's `_parse_summary`: the first page's figures, each read only when its
    pattern is found. */
module SummaryParse {
  import opened Basics
  import opened Dates
  import opened Money
  import opened ItauPatterns
  import opened ItauModel

  /** A found date field that `datetime.date` rejects. `_parse_full_date` is not
      guarded by a `try`, so such a field makes the whole parse raise. */
  predicate BadDate(field: Option<string>) {
    field.Some? && ParseFullDate(field.value).None?
  }

  /** The date of the payment line, when there is one. */
  function PaymentDateField(text: string): Option<string> {
    match Payment(text)
    case Some(p) => Some(p.date)
    case None => None
  }

  /** The amount of the payment line, when there is one. */
  function PaymentAmountField(text: string): Option<string> {
    match Payment(text)
    case Some(p) => Some(p.amount)
    case None => None
  }

  /** An amount field: its value when found, the previous value otherwise. */
  function AmountField(field: Option<string>, current: int): (v: int)
    ensures field.None? ==> v == current
    ensures field.Some? ==> v == ParseBrlAmount(field.value)
  {
    match field
    case Some(t) => ParseBrlAmount(t)
    case None => current
  }

  /** A date field: the parsed date when found, the previous value otherwise, and
      `None` for the `ValueError` of a found but invalid date. */
  function DateField(field: Option<string>, current: Option<Date>): (r: Option<Option<Date>>)
    ensures r.None? <==> BadDate(field)
    ensures r.Some? && field.None? ==> r.value == current
    ensures r.Some? && field.Some? ==> r.value == ParseFullDate(field.value) != None
    ensures r.Some? && field.Some? ==> ValidDate(r.value.value)
  {
    match field
    case None => Some(current)
    case Some(t) =>
      match ParseFullDate(t)
      case Some(d) => Some(Some(d))
      case None => None
  }

  /** `_parse_summary` on the text of the first page, starting from `s`. It fails
      exactly when one of the three date fields is present and invalid; otherwise
      every field whose pattern occurs takes the value read from it, and every other
      field keeps its value. */
  function ParseSummary(text: string, s: Summary): (r: Result<Summary, ParseError>)
    ensures r.Failure? <==>
      BadDate(PaymentDateField(text)) || BadDate(DueDate(text)) || BadDate(StatementDate(text))
    ensures r.Failure? ==> r.error == InvalidSummaryDate
    ensures r.Success? && TotalFatura(text).None? ==> r.value.totalAmount == s.totalAmount
    ensures r.Success? && PreviousBalance(text).None? ==> r.value.previousBalance == s.previousBalance
    ensures r.Success? && Payment(text).None? ==>
      r.value.paymentMade == s.paymentMade && r.value.paymentDate == s.paymentDate
    ensures r.Success? && CurrentCharges(text).None? ==> r.value.currentCharges == s.currentCharges
    ensures r.Success? && DueDate(text).None? ==> r.value.dueDate == s.dueDate
    ensures r.Success? && StatementDate(text).None? ==> r.value.statementDate == s.statementDate
    ensures r.Success? && Payment(text).Some? ==> r.value.paymentMade >= 0
    ensures r.Success? && TotalFatura(text).Some? ==>
      r.value.totalAmount == ParseBrlAmount(TotalFatura(text).value)
    ensures r.Success? && PreviousBalance(text).Some? ==>
      r.value.previousBalance == ParseBrlAmount(PreviousBalance(text).value)
    ensures r.Success? && Payment(text).Some? ==>
      && r.value.paymentMade == ParseBrlAmount(Payment(text).value.amount)
      && r.value.paymentDate == ParseFullDate(Payment(text).value.date) != None
    ensures r.Success? && CurrentCharges(text).Some? ==>
      r.value.currentCharges == ParseBrlAmount(CurrentCharges(text).value)
    ensures r.Success? && DueDate(text).Some? ==> r.value.dueDate == ParseFullDate(DueDate(text).value) != None
    ensures r.Success? && StatementDate(text).Some? ==>
      r.value.statementDate == ParseFullDate(StatementDate(text).value) != None
  {
    var total := AmountField(TotalFatura(text), s.totalAmount);
    var previous := AmountField(PreviousBalance(text), s.previousBalance);
    match DateField(PaymentDateField(text), s.paymentDate)
    case None => Failure(InvalidSummaryDate)
    case Some(paymentDate) =>
      var paid := AmountField(PaymentAmountField(text), s.paymentMade);
      var charges := AmountField(CurrentCharges(text), s.currentCharges);
      match DateField(DueDate(text), s.dueDate)
      case None => Failure(InvalidSummaryDate)
      case Some(due) =>
        match DateField(StatementDate(text), s.statementDate)
        case None => Failure(InvalidSummaryDate)
        case Some(issued) =>
          Success(Summary(total, previous, paid, paymentDate, charges, due, issued))
  }

  /** Reading the same page twice changes nothing: every field found is read to
      the same value again and every field not found keeps the value the first
      reading left. */
  lemma SummaryIdempotent(text: string, s: Summary)
    requires ParseSummary(text, s).Success?
    ensures ParseSummary(text, ParseSummary(text, s).value) == ParseSummary(text, s)
  {
  }
}
