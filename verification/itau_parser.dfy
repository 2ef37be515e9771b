/** The parser's entry point, `ItauPDFParser.parse`: the summary of the first page,
    then the purchases of every page, then the purchases abroad, collected into one
    statement. The document is given as its pages' texts. */
module ItauParser {
  import opened Basics
  import opened Text
  import opened Dates
  import opened ItauModel
  import opened SummaryParse
  import opened MainPass
  import opened IntlPass

  /** The year purchase dates are read in: the statement's own, or 2025 when the
      first page has no issue date. */
  function StatementYear(s: Summary): (y: int)
    ensures s.statementDate.Some? ==> y == s.statementDate.value.year
    ensures s.statementDate.None? ==> y == 2025
  {
    if s.statementDate.Some? then s.statementDate.value.year else 2025
  }

  /** Without any page mentioning the international section, the third pass reads
      nothing: no transaction and no IOF amount. */
  lemma {:induction false} NoIntlPages(pages: seq<Page>, year: int)
    requires forall i :: 0 <= i < |pages| ==> !IsIntlHeader(pages[i].text)
    ensures IntlPages(pages, year) == IntlResult([], None, Fresh)
    decreases |pages|
  {
    if |pages| > 0 {
      NoIntlPages(pages[1..], year);
    }
  }

  lemma IntlAbsent(pages: seq<Page>, year: int)
    ensures (forall i :: 0 <= i < |pages| ==> !IsIntlHeader(pages[i].text)) ==>
      IntlPages(pages, year) == IntlResult([], None, Fresh)
  {
    if forall i :: 0 <= i < |pages| ==> !IsIntlHeader(pages[i].text) {
      NoIntlPages(pages, year);
    }
  }

  /** Purchases paid online all come after those that are not. */
  predicate OnlineLast(txs: seq<Transaction>) {
    forall i, j :: 0 <= i < j < |txs| && txs[i].paymentMethod.Some? ==> txs[j].paymentMethod.Some?
  }

  lemma OnlineAfterCards(cards: seq<Transaction>, online: seq<Transaction>)
    requires forall t :: t in cards ==> t.paymentMethod.None?
    requires forall k :: 0 <= k < |online| ==> online[k].paymentMethod.Some?
    ensures OnlineLast(cards + online)
  {
    var txs := cards + online;
    forall i, j | 0 <= i < j < |txs| && txs[i].paymentMethod.Some?
      ensures txs[j].paymentMethod.Some?
    {
      assert j >= |cards| ==> txs[j] == online[j - |cards|];
    }
  }

  /** Card purchases and purchases abroad of `year` together: all dated in `year`,
      and every foreign-currency detail well formed. */
  lemma AllInYear(a: seq<Transaction>, b: seq<Transaction>, year: int)
    requires forall t :: t in a ==> CardPurchase(t, year)
    requires forall k :: 0 <= k < |b| ==> Appended(b[k], year)
    ensures forall t :: t in a + b ==> t.date.year == year && InfoOk(t)
  {
    forall t | t in a + b
      ensures t.date.year == year && InfoOk(t)
    {
      if t !in a {
        var k :| 0 <= k < |b| && b[k] == t;
      }
    }
  }

  /** The statement the three passes build once the summary has been read. */
  function Assemble(sourceFile: string, summary: Summary, pages: seq<Page>): (st: Statement)
    ensures st.sourceFile == sourceFile && st.cardIssuer == "Itaú" && st.summary == summary
    ensures forall t :: t in st.transactions ==> t.date.year == StatementYear(summary) && InfoOk(t)
    ensures OnlineLast(st.transactions)
    ensures (forall i :: 0 <= i < |pages| ==> !IsIntlHeader(pages[i].text)) ==>
      st.iofInternational == 0 && forall t :: t in st.transactions ==> t.paymentMethod.None?
  {
    var year := StatementYear(summary);
    var main := PagesFrom(pages, year, Start);
    var intl := IntlPages(pages, year);
    OnlineAfterCards(main.txs, intl.txs);
    AllInYear(main.txs, intl.txs, year);
    IntlAbsent(pages, year);
    assert intl.txs == [] ==> main.txs + intl.txs == main.txs;
    Statement(sourceFile, "Itaú", summary, main.txs + intl.txs, intl.iof.GetOr(0))
  }

  /** `parse`: a missing file and a document without pages raise, and so does an
      invalid date in the summary; otherwise the statement holds the summary of the
      first page, the card purchases of every page followed by the purchases
      abroad, all dated in the statement's year, and the last IOF amount read (0
      when none). */
  function Parse(sourceFile: string, fileExists: bool, pages: seq<Page>): (r: Result<Statement, ParseError>)
    ensures !fileExists ==> r == Failure(FileNotFound)
    ensures fileExists && |pages| == 0 ==> r == Failure(NoPages)
    ensures fileExists && |pages| > 0 ==>
      (r.Failure? <==> ParseSummary(pages[0].text, EmptySummary).Failure?)
    ensures r.Success? ==> |pages| > 0 && r.value == Assemble(sourceFile, ParseSummary(pages[0].text, EmptySummary).value, pages)
  {
    if !fileExists then Failure(FileNotFound)
    else if |pages| == 0 then Failure(NoPages)
    else
      match ParseSummary(pages[0].text, EmptySummary)
      case Failure(e) => Failure(e)
      case Success(summary) => Success(Assemble(sourceFile, summary, pages))
  }
}
