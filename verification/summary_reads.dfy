/** `_parse_summary` on a first page that holds the summary lines the way the
    statement prints them: each figure is read back as itself. */
module SummaryReads {
  import opened Basics
  import opened Money
  import opened Dates
  import opened Patterns
  import opened ItauPatterns
  import opened ItauModel
  import opened SummaryParse
  import opened LookupReads
  import Spellings

  /** A page holding the printed total line reads its amount as the total. */
  lemma TotalLineReads(u: string, cents: int, v: string, s: Summary)
    requires NoMatchBefore(u + TotalLine(cents) + v, TotalFaturaPattern, |u|)
    requires ParseSummary(u + TotalLine(cents) + v, s).Success?
    ensures ParseSummary(u + TotalLine(cents) + v, s).value.totalAmount == cents
  {
    TotalFaturaReads(u, cents, v);
    Spellings.AmountTextReads(Sign.OptionalMinus, cents);
  }

  /** A page holding the printed previous balance line reads its amount. */
  lemma PreviousLineReads(u: string, cents: int, v: string, s: Summary)
    requires NoMatchBefore(u + PreviousLine(cents) + v, PreviousBalancePattern, |u|)
    requires ParseSummary(u + PreviousLine(cents) + v, s).Success?
    ensures ParseSummary(u + PreviousLine(cents) + v, s).value.previousBalance == cents
  {
    PreviousBalanceReads(u, cents, v);
    Spellings.AmountTextReads(Sign.OptionalMinus, cents);
  }

  /** A page holding the printed current charges line reads its amount. */
  lemma ChargesLineReads(u: string, cents: int, v: string, s: Summary)
    requires NoMatchBefore(u + ChargesLine(cents) + v, CurrentChargesPattern, |u|)
    requires ParseSummary(u + ChargesLine(cents) + v, s).Success?
    ensures ParseSummary(u + ChargesLine(cents) + v, s).value.currentCharges == cents
  {
    CurrentChargesReads(u, cents, v);
    Spellings.AmountTextReads(Sign.OptionalMinus, cents);
  }

  /** A printed due date never makes the parse fail, and it is read as itself. */
  lemma DueLineReads(u: string, d: Date, v: string, s: Summary)
    requires ValidDate(d)
    requires NoMatchBefore(u + DueLine(d) + v, DueDatePattern, |u|)
    ensures !BadDate(DueDate(u + DueLine(d) + v))
    ensures ParseSummary(u + DueLine(d) + v, s).Success? ==>
      ParseSummary(u + DueLine(d) + v, s).value.dueDate == Some(d)
  {
    DueDateReads(u, d, v);
    ParseFullDateRoundTrip(d);
  }

  /** A printed issue date never makes the parse fail, and it is read as itself. */
  lemma IssuedLineReads(u: string, d: Date, v: string, s: Summary)
    requires ValidDate(d)
    requires NoMatchBefore(u + IssuedLine(d) + v, StatementDatePattern, |u|)
    ensures !BadDate(StatementDate(u + IssuedLine(d) + v))
    ensures ParseSummary(u + IssuedLine(d) + v, s).Success? ==>
      ParseSummary(u + IssuedLine(d) + v, s).value.statementDate == Some(d)
  {
    StatementDateReads(u, d, v);
    ParseFullDateRoundTrip(d);
  }

  /** A printed payment never makes the parse fail, and its date and amount are
      read as themselves. */
  lemma PaymentLineReads(u: string, d: Date, sep: string, cents: int, v: string, s: Summary)
    requires ValidDate(d) && PaymentSeparator(sep) && cents >= 0
    requires NoMatchBefore(u + PaymentLine(d, sep, cents) + v, PaymentPattern, |u|)
    ensures !BadDate(PaymentDateField(u + PaymentLine(d, sep, cents) + v))
    ensures ParseSummary(u + PaymentLine(d, sep, cents) + v, s).Success? ==>
      && ParseSummary(u + PaymentLine(d, sep, cents) + v, s).value.paymentMade == cents
      && ParseSummary(u + PaymentLine(d, sep, cents) + v, s).value.paymentDate == Some(d)
  {
    PaymentReads(u, d, sep, cents, v);
    ParseFullDateRoundTrip(d);
    BrlRoundTrip(cents);
  }

  /** The printed figures of a summary page. */
  datatype Printed = Printed(total: int, previous: int, paid: nat, paidOn: Date, sep: string,
                             charges: int, due: Date, issued: Date)

  /** The page shows every summary line at the given place, and no pattern
      matches earlier than its own line. */
  predicate PageShows(text: string, p: Printed, at: seq<(string, string)>)
    requires ValidDate(p.paidOn) && ValidDate(p.due) && ValidDate(p.issued)
  {
    && |at| == 6
    && text == at[0].0 + TotalLine(p.total) + at[0].1
    && text == at[1].0 + PreviousLine(p.previous) + at[1].1
    && text == at[2].0 + PaymentLine(p.paidOn, p.sep, p.paid) + at[2].1
    && text == at[3].0 + ChargesLine(p.charges) + at[3].1
    && text == at[4].0 + DueLine(p.due) + at[4].1
    && text == at[5].0 + IssuedLine(p.issued) + at[5].1
    && NoMatchBefore(text, TotalFaturaPattern, |at[0].0|)
    && NoMatchBefore(text, PreviousBalancePattern, |at[1].0|)
    && NoMatchBefore(text, PaymentPattern, |at[2].0|)
    && NoMatchBefore(text, CurrentChargesPattern, |at[3].0|)
    && NoMatchBefore(text, DueDatePattern, |at[4].0|)
    && NoMatchBefore(text, StatementDatePattern, |at[5].0|)
  }

  /** A first page showing all six summary lines is read, from any starting
      summary, as exactly the printed figures. */
  lemma SummaryPageReads(text: string, p: Printed, at: seq<(string, string)>, s: Summary)
    requires ValidDate(p.paidOn) && ValidDate(p.due) && ValidDate(p.issued) && PaymentSeparator(p.sep)
    requires PageShows(text, p, at)
    ensures ParseSummary(text, s)
         == Success(Summary(p.total, p.previous, p.paid, Some(p.paidOn), p.charges, Some(p.due), Some(p.issued)))
  {
    PaymentLineReads(at[2].0, p.paidOn, p.sep, p.paid, at[2].1, s);
    DueLineReads(at[4].0, p.due, at[4].1, s);
    IssuedLineReads(at[5].0, p.issued, at[5].1, s);
    TotalLineReads(at[0].0, p.total, at[0].1, s);
    PreviousLineReads(at[1].0, p.previous, at[1].1, s);
    ChargesLineReads(at[3].0, p.charges, at[3].1, s);
  }
}
