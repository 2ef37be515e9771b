/** The generic layer of the package (`core.py`): the plain transaction record, the
    statement total, the rows the CSV and YNAB exporters write, the two factories
    and the placeholder parsers. Amounts are integer cents, so every amount is a
    two-place decimal and `str(amount)` is its two-place `str(Decimal)`. */
module Core {
  import opened Basics
  import opened Dates
  import opened Money

  /** `FileFormat` and `ExportFormat`. */
  datatype FileFormat = CsvFile | PdfFile
  datatype ExportFormat = CsvExport | YnabExport

  /** `core.Transaction`: date, description, amount and an optional category. */
  datatype Transaction = Transaction(date: Date, description: string, amount: int, category: Option<string>)

  /** `core.Fatura`. */
  datatype Fatura = Fatura(transactions: seq<Transaction>, sourceFile: string, cardIssuer: Option<string>)

  /** A transaction can be written only with a date `datetime.date` accepts. */
  predicate Writable(t: Transaction) {
    ValidDate(t.date)
  }

  /** `Fatura.total`: the sum of the amounts, starting from zero. Only charges
      give a total of at least zero, only credits one of at most zero. */
  function Total(txs: seq<Transaction>): (r: int)
    ensures (forall k :: 0 <= k < |txs| ==> txs[k].amount >= 0) ==> r >= 0
    ensures (forall k :: 0 <= k < |txs| ==> txs[k].amount <= 0) ==> r <= 0
    ensures |txs| == 1 ==> r == txs[0].amount
  {
    if |txs| == 0 then 0 else Total(txs[..|txs| - 1]) + txs[|txs| - 1].amount
  }

  /** The total of a concatenation is the sum of the totals. */
  lemma {:induction false} TotalAppend(a: seq<Transaction>, b: seq<Transaction>)
    ensures Total(a + b) == Total(a) + Total(b)
    decreases |b|
  {
    if |b| == 0 {
      assert a + b == a;
    } else {
      assert (a + b)[..|a + b| - 1] == a + b[..|b| - 1];
      TotalAppend(a, b[..|b| - 1]);
    }
  }

  /** The total does not depend on the order of the transactions: moving the first
      one to the end leaves it unchanged. */
  lemma TotalRotate(t: Transaction, rest: seq<Transaction>)
    ensures Total([t] + rest) == Total(rest + [t])
  {
    TotalAppend([t], rest);
    TotalAppend(rest, [t]);
    assert [t][..0] == [];
    assert (rest + [t])[..|rest|] == rest;
  }

  /** Taking out the transaction at `j` takes its amount out of the total. */
  lemma TotalWithout(b: seq<Transaction>, j: nat)
    requires j < |b|
    ensures Total(b) == Total(b[..j] + b[j + 1..]) + b[j].amount
  {
    var front, back := b[..j], b[j + 1..];
    Around(b, j);
    TotalAppend(front, [b[j]] + back);
    TotalCons(b[j], back);
    TotalAppend(front, back);
  }

  /** A sequence is its part before `j`, its element at `j` and its part after. */
  lemma Around(b: seq<Transaction>, j: nat)
    requires j < |b|
    ensures b == b[..j] + ([b[j]] + b[j + 1..])
  {
  }

  /** A transaction in front adds its amount to the total. */
  lemma TotalCons(t: Transaction, s: seq<Transaction>)
    ensures Total([t] + s) == Total(s) + t.amount
  {
    DropFirst([t] + s);
    assert ([t] + s)[1..] == s;
  }

  lemma MultisetWithout(b: seq<Transaction>, j: nat)
    requires j < |b|
    ensures multiset(b[..j] + b[j + 1..]) == multiset(b) - multiset{b[j]}
  {
    assert b == b[..j] + [b[j]] + b[j + 1..];
  }

  /** A transaction of the multiset of `b` sits at some position of `b`. */
  lemma Occurs(b: seq<Transaction>, t: Transaction) returns (j: nat)
    requires t in multiset(b)
    ensures j < |b| && b[j] == t
  {
    assert t in b;
    j :| 0 <= j < |b| && b[j] == t;
  }

  /** Taking out the first transaction. */
  lemma DropFirst(a: seq<Transaction>)
    requires |a| > 0
    ensures multiset(a[1..]) == multiset(a) - multiset{a[0]} && Total(a) == Total(a[1..]) + a[0].amount
  {
    assert a == [a[0]] + a[1..];
    TotalAppend([a[0]], a[1..]);
    assert [a[0]][..0] == [];
  }

  /** The first transaction of `a` sits at some `j` in a rearrangement `b`; taking it
      out of both leaves rearrangements of each other, and takes its amount out of
      both totals. */
  lemma MatchFirst(a: seq<Transaction>, b: seq<Transaction>) returns (j: nat)
    requires |a| > 0 && multiset(a) == multiset(b)
    ensures j < |b| && multiset(a[1..]) == multiset(b[..j] + b[j + 1..])
    ensures Total(a) == Total(a[1..]) + a[0].amount && Total(b) == Total(b[..j] + b[j + 1..]) + a[0].amount
  {
    j := Occurs(b, a[0]);
    DropFirst(a);
    MultisetWithout(b, j);
    TotalWithout(b, j);
  }

  /** The total does not depend on the order of the transactions: any rearrangement
      of them has the same total. */
  lemma {:induction false} TotalPermutation(a: seq<Transaction>, b: seq<Transaction>)
    requires multiset(a) == multiset(b)
    ensures Total(a) == Total(b)
    decreases |a|
  {
    if |a| == 0 {
      assert |multiset(b)| == 0;
    } else {
      var j := MatchFirst(a, b);
      TotalPermutation(a[1..], b[..j] + b[j + 1..]);
    }
  }

  /** The row `to_ynab_row` returns: `Date`, `Payee`, `Memo`, `Outflow`, `Inflow`. */
  datatype YnabRow = YnabRow(date: string, payee: string, memo: string, outflow: string, inflow: string)

  /** `Transaction.to_ynab_row`: the ISO date, the description as payee, an empty
      memo, and the amount as outflow when positive or its absolute value as inflow
      when negative; a zero amount fills neither. */
  function ToYnabRow(t: Transaction): (row: YnabRow)
    requires Writable(t)
    ensures row.date == IsoText(t.date) && row.payee == t.description && row.memo == ""
    ensures row.outflow != "" <==> t.amount > 0
    ensures row.inflow != "" <==> t.amount < 0
  {
    var outflow := if t.amount > 0 then DecimalText(t.amount) else "";
    var inflow := if t.amount < 0 then DecimalText(-t.amount) else "";
    NonEmptyDecimal(t.amount);
    NonEmptyDecimal(-t.amount);
    YnabRow(IsoText(t.date), t.description, "", outflow, inflow)
  }

  lemma NonEmptyDecimal(cents: int)
    ensures DecimalText(cents) != ""
  {
    DecimalTextRoundTrip(cents);
  }

  /** The signed amount a YNAB row stands for: outflow minus inflow, an empty or
      unreadable field counting as zero. */
  function RowAmount(row: YnabRow): int {
    var out := if row.outflow == "" then 0 else DecimalCents(row.outflow).GetOr(0);
    var inn := if row.inflow == "" then 0 else DecimalCents(row.inflow).GetOr(0);
    out - inn
  }

  /** Reading a YNAB row back: the date, the payee and the signed amount. */
  function ReadYnabRow(row: YnabRow): (r: Option<Transaction>)
    ensures r.Some? ==> Writable(r.value) && r.value.category.None?
  {
    var d :- ParseIso(row.date);
    Some(Transaction(d, row.payee, RowAmount(row), None))
  }

  /** A YNAB row reads back as the transaction it was written from, category aside:
      the amount's sign survives the split into outflow and inflow. */
  lemma YnabRoundTrip(t: Transaction)
    requires Writable(t)
    ensures ReadYnabRow(ToYnabRow(t)) == Some(t.(category := None))
  {
    IsoRoundTrip(t.date);
    RowAmountOf(t);
  }

  /** The amount a YNAB row stands for is the amount it was written from. */
  lemma RowAmountOf(t: Transaction)
    requires Writable(t)
    ensures RowAmount(ToYnabRow(t)) == t.amount
  {
    var row := ToYnabRow(t);
    if t.amount > 0 {
      DecimalTextRoundTrip(t.amount);
      assert row.outflow == DecimalText(t.amount) && row.inflow == "";
    } else if t.amount < 0 {
      DecimalTextRoundTrip(-t.amount);
      assert row.inflow == DecimalText(-t.amount) && row.outflow == "";
    }
  }

  /** The YNAB rows of `txs`, in order. */
  function YnabRows(txs: seq<Transaction>): (rows: seq<YnabRow>)
    requires forall k :: 0 <= k < |txs| ==> Writable(txs[k])
    ensures |rows| == |txs|
    ensures forall k :: 0 <= k < |txs| ==> rows[k] == ToYnabRow(txs[k])
  {
    if |txs| == 0 then [] else YnabRows(txs[..|txs| - 1]) + [ToYnabRow(txs[|txs| - 1])]
  }

  /** What the rows amount to, outflows minus inflows. */
  function RowsNet(rows: seq<YnabRow>): int {
    if |rows| == 0 then 0 else RowsNet(rows[..|rows| - 1]) + RowAmount(rows[|rows| - 1])
  }

  /** Outflows minus inflows of the YNAB export equal the statement total. */
  lemma {:induction false} YnabNetIsTotal(txs: seq<Transaction>)
    requires forall k :: 0 <= k < |txs| ==> Writable(txs[k])
    ensures RowsNet(YnabRows(txs)) == Total(txs)
    decreases |txs|
  {
    if |txs| > 0 {
      var init := txs[..|txs| - 1];
      var rows := YnabRows(txs);
      assert rows[..|rows| - 1] == YnabRows(init);
      YnabNetIsTotal(init);
      RowAmountOf(txs[|txs| - 1]);
    }
  }

  /** The header `YNABExporter` writes. */
  const YnabHeader: seq<string> := ["Date", "Payee", "Memo", "Outflow", "Inflow"]

  /** A YNAB row as the fields of one CSV record, in header order. */
  function YnabFields(row: YnabRow): (f: seq<string>)
    ensures |f| == |YnabHeader|
  {
    [row.date, row.payee, row.memo, row.outflow, row.inflow]
  }

  /** The records `YNABExporter.export` writes after the header, one per
      transaction. */
  function YnabBody(txs: seq<Transaction>): (body: seq<seq<string>>)
    requires forall k :: 0 <= k < |txs| ==> Writable(txs[k])
    ensures |body| == |txs|
    ensures forall k :: 0 <= k < |txs| ==> body[k] == YnabFields(ToYnabRow(txs[k]))
  {
    var rows := YnabRows(txs);
    seq(|rows|, k requires 0 <= k < |rows| => YnabFields(rows[k]))
  }

  /** The records `YNABExporter.export` writes: the header, then one per
      transaction. */
  function YnabRecords(f: Fatura): (records: seq<seq<string>>)
    requires forall k :: 0 <= k < |f.transactions| ==> Writable(f.transactions[k])
    ensures |records| == |f.transactions| + 1 && records[0] == YnabHeader
    ensures forall k :: 0 <= k < |f.transactions| ==>
      records[k + 1] == YnabFields(ToYnabRow(f.transactions[k]))
  {
    [YnabHeader] + YnabBody(f.transactions)
  }

  /** The header `CSVExporter` writes. */
  const CsvHeader: seq<string> := ["date", "description", "amount", "category"]

  /** One `CSVExporter` record: the ISO date, the description, `str(amount)` and the
      category, or an empty field when there is none. */
  function CsvFields(t: Transaction): (f: seq<string>)
    requires Writable(t)
    ensures |f| == |CsvHeader|
    ensures t.category.Some? ==> f[3] == t.category.value
    ensures t.category.None? ==> f[3] == ""
  {
    [IsoText(t.date), t.description, DecimalText(t.amount), t.category.GetOr("")]
  }

  /** Reading a CSV record back; an empty category field reads as no category. */
  function ReadCsvFields(f: seq<string>): (r: Option<Transaction>)
    ensures r.Some? ==> Writable(r.value) && |f| == 4
    ensures r.Some? ==> (r.value.category.None? <==> f[3] == "")
  {
    if |f| != 4 then None
    else
      var d :- ParseIso(f[0]);
      var amount :- DecimalCents(f[2]);
      Some(Transaction(d, f[1], amount, if f[3] == "" then None else Some(f[3])))
  }

  /** A CSV record reads back as the transaction it was written from, except that a
      present but empty category comes back absent: `tx.category or ""` writes
      both the same way. */
  lemma CsvRoundTrip(t: Transaction)
    requires Writable(t)
    ensures t.category != Some("") ==> ReadCsvFields(CsvFields(t)) == Some(t)
    ensures t.category == Some("") ==> ReadCsvFields(CsvFields(t)) == Some(t.(category := None))
  {
    IsoRoundTrip(t.date);
    DecimalTextRoundTrip(t.amount);
  }

  /** The records `CSVExporter.export` writes: the header, then one per
      transaction. */
  function CsvRecords(f: Fatura): (records: seq<seq<string>>)
    requires forall k :: 0 <= k < |f.transactions| ==> Writable(f.transactions[k])
    ensures |records| == |f.transactions| + 1 && records[0] == CsvHeader
    ensures forall k :: 0 <= k < |f.transactions| ==> records[k + 1] == CsvFields(f.transactions[k])
  {
    [CsvHeader] + seq(|f.transactions|, k requires 0 <= k < |f.transactions| => CsvFields(f.transactions[k]))
  }

  /** The amounts column of the CSV export reads back to the statement total. */
  function CsvAmounts(records: seq<seq<string>>): int {
    if |records| == 0 then 0
    else
      var last := records[|records| - 1];
      var amount := if |last| == 4 then DecimalCents(last[2]).GetOr(0) else 0;
      CsvAmounts(records[..|records| - 1]) + amount
  }

  lemma {:induction false} CsvAmountsAreTotal(txs: seq<Transaction>, fileName: string, issuer: Option<string>)
    requires forall k :: 0 <= k < |txs| ==> Writable(txs[k])
    ensures CsvAmounts(CsvRecords(Fatura(txs, fileName, issuer))[1..]) == Total(txs)
    decreases |txs|
  {
    if |txs| > 0 {
      var init := txs[..|txs| - 1];
      var rs := CsvRecords(Fatura(txs, fileName, issuer))[1..];
      assert rs[..|rs| - 1] == CsvRecords(Fatura(init, fileName, issuer))[1..];
      CsvAmountsAreTotal(init, fileName, issuer);
      DecimalTextRoundTrip(txs[|txs| - 1].amount);
    }
  }

  /** The parser classes and exporter classes the factories return. */
  datatype ParserKind = CsvParser | PdfParser
  datatype ExporterKind = CsvWriter | YnabWriter

  /** `get_parser`: one parser class per input format. */
  function GetParser(format: FileFormat): (p: ParserKind)
    ensures p == CsvParser <==> format == CsvFile
  {
    match format
    case CsvFile => CsvParser
    case PdfFile => PdfParser
  }

  /** `get_exporter`: one exporter class per export format. */
  function GetExporter(format: ExportFormat): (e: ExporterKind)
    ensures e == CsvWriter <==> format == CsvExport
  {
    match format
    case CsvExport => CsvWriter
    case YnabExport => YnabWriter
  }

  /** The format a parser class reads. */
  function ParserFormat(p: ParserKind): FileFormat {
    match p
    case CsvParser => CsvFile
    case PdfParser => PdfFile
  }

  /** The factory returns the parser of the format asked for, and every parser class
      is reached: `get_parser` is a bijection. */
  lemma GetParserBijective(format: FileFormat, p: ParserKind)
    ensures ParserFormat(GetParser(format)) == format
    ensures GetParser(ParserFormat(p)) == p
  {
  }

  /** The format an exporter class writes. */
  function ExporterFormat(e: ExporterKind): ExportFormat {
    match e
    case CsvWriter => CsvExport
    case YnabWriter => YnabExport
  }

  /** Every export format has its own exporter, and every exporter is the one of
      the format it writes. */
  lemma GetExporterBijective(format: ExportFormat, e: ExporterKind)
    ensures ExporterFormat(GetExporter(format)) == format
    ensures GetExporter(ExporterFormat(e)) == e
  {
  }

  /** Why a placeholder parser raises: `_validate_file`'s two checks, then the
      `NotImplementedError` both placeholder parsers end with. */
  datatype ParseFailure = FileNotFound | NotAFile | NotImplemented

  /** `CSVFaturaParser.parse` and `PDFFaturaParser.parse`: a path that does not
      exist, then a path that is not a file, then any file at all, raise. */
  function StubParse(p: ParserKind, pathExists: bool, isFile: bool): (r: Result<Fatura, ParseFailure>)
    ensures r.Failure?
    ensures !pathExists ==> r.error == FileNotFound
    ensures pathExists && !isFile ==> r.error == NotAFile
    ensures pathExists && isFile ==> r.error == NotImplemented
  {
    if !pathExists then Failure(FileNotFound)
    else if !isFile then Failure(NotAFile)
    else Failure(NotImplemented)
  }
}
