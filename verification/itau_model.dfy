/** The records the Itaú parser fills in: one transaction per purchase line, with
    its installment and foreign-currency details, and the statement with its
    summary figures. Amounts are integer cents. */
module ItauModel {
  import opened Basics
  import opened Dates

  /** `TransactionType`: a purchase paid at once, or one installment of many. */
  datatype TransactionType = AVista | Parcelada

  /** `PaymentMethod`; the parser only ever sets `ONLINE`, on purchases abroad. */
  datatype PaymentMethod = Online

  /** `Installment(current, total)`, read from a trailing `NN/NN`. */
  datatype Installment = Installment(current: nat, total: nat)

  /** `InternationalInfo`: the amount in the original currency, that currency's
      code, the dollar rate of the statement (0 when none was read) and the city. */
  datatype InternationalInfo = InternationalInfo(
    originalAmount: int, originalCurrency: string, exchangeRate: int, city: Option<string>)

  /** One statement line. `card` is the last four digits of the card the line was
      listed under; `paymentMethod` is `None` where the parser leaves the default. */
  datatype Transaction = Transaction(
    date: Date,
    description: string,
    amountBrl: int,
    category: Option<string>,
    location: Option<string>,
    card: Option<string>,
    kind: TransactionType,
    installment: Option<Installment>,
    international: Option<InternationalInfo>,
    paymentMethod: Option<PaymentMethod>)

  /** The figures of the first page. Amounts not found stay 0, dates stay unset. */
  datatype Summary = Summary(
    totalAmount: int,
    previousBalance: int,
    paymentMade: int,
    paymentDate: Option<Date>,
    currentCharges: int,
    dueDate: Option<Date>,
    statementDate: Option<Date>)

  const EmptySummary := Summary(0, 0, 0, None, 0, None, None)

  /** A parsed statement: `Fatura(source_file, card_issuer="Itaú")` with its summary,
      its transactions in the order they were appended and the IOF charged on
      purchases abroad. */
  datatype Statement = Statement(
    sourceFile: string,
    cardIssuer: string,
    summary: Summary,
    transactions: seq<Transaction>,
    iofInternational: int)

  /** Why `parse` raises: a missing file, a document without pages (`pdf.pages[0]`),
      or a summary date that `datetime.date` rejects. */
  datatype ParseError = FileNotFound | NoPages | InvalidSummaryDate
}
