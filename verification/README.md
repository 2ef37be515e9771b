# Itaú credit-card statement parser, modelled in Dafny

This project models the core of `fatura-parser`: the Itaú statement text engine and the
statement data model with its row mappings.

## The Itaú text engine (`fatura_parser/parsers/itau.py`)

The engine turns the text of a statement ("fatura") into a list of transactions plus summary fields.

**Normalisers.**
- A Brazilian-format amount (`1.234,56`, `- 1.234,56`) becomes integer cents; a token that does not read becomes 0.
- `DD/MM` and `DD/MM/YYYY` become calendar dates.
- An invalid date has no value (`None`), where Python's `datetime.date` would raise.

**Summary.** Six fields are read from the first page. Each is set only when its own pattern matches.

**Main pass.** One line classifier walks every column of every page. It threads a state of
`{current card, in future-installments section, in international section}`, and that state
is never reset between columns or pages.
- The installment pattern is preferred over the plain trailing amount.
- An optional category/location line after a purchase is consumed with it.

**International pass.** A per-column state machine `{card, in section, pending purchase}`
assembles one purchase abroad from two or three lines. It also captures the IOF amount, a Brazilian tax on foreign-currency purchases.

**Entry point.** `parse` is composed from the summary and the two passes.

## The data model (`fatura_parser/core.py`)

- `Transaction` and `Fatura`.
- The YNAB row of a transaction, with its outflow/inflow sign split.
- The statement total.
- The records the CSV and YNAB exporters write.
- The two factories.
- The two stub parsers that always raise.

## How it is modelled

- Money is integer cents.
- Strings are `seq<char>`.
- A page is its extracted text plus the texts of its two cropped columns. A crop that raised is `None`.
- The regular expressions are written as a small greedy pattern language (module `Patterns`). On text whose digits are ASCII, its reading coincides with Python's backtracking match for every pattern used here. Its `\d` is the ASCII digits only, where Python's also matches other Unicode decimal digits. The lazy city group of the details pattern and the category/location pattern are hand-written recognisers.
- Python's exceptions become `Result`/`Option` values.
- The round-trip modules (`MainRoundTrip`, `IntlRoundTrip`, `DetailsRoundTrip`) print lines the way the statement prints them, and prove that the passes read them back.
- `Spellings` says when a text spells a pattern piece by piece, and proves that such a text is matched in full with each group capturing its own piece. `LookupReads` uses it to read back each printed header and summary line from anywhere in a page, and `SummaryReads` carries those readings through `_parse_summary`.
- The two transaction types are kept apart:
  - `Core.Transaction` has the fields of `core.py`'s `Transaction`: date, description, amount and category. The amount is in whole cents, and its text is always the two-place `str(Decimal)` (see `Core.ToYnabRow` and `Core.CsvFields` under "## Left out").
  - `ItauModel.Transaction` follows the keyword arguments the Itaú parser passes: amount in BRL, card digits, kind, installment, international info, payment method, category and location. `core.py` does not define those fields.

## Errors that end the parse

`parse` checks only that the file exists before it reads it (`fatura_parser/parsers/itau.py:63-64`). An invalid date in the summary, for example a due date of `31/02/2025`, makes `_parse_full_date` raise a `ValueError` that nothing catches (`fatura_parser/parsers/itau.py:110-142`), so the whole parse fails. `ItauParser.Parse` returns `Failure(InvalidSummaryDate)` in that case. An invalid purchase date, by contrast, is caught and the line is skipped.

## Model

| member | source | states |
|---|---|---|
| Text.Strip | fatura_parser/parsers/itau.py:192 | `str.strip()`: the result has no leading or trailing white space and is the input with white space removed at both ends only |
| Text.StripIdempotent | fatura_parser/parsers/itau.py:192 | `str.strip()` is idempotent: a stripped text has nothing left to strip |
| Text.Contains | fatura_parser/parsers/itau.py:199-251 | the `in` test holds exactly when the needle occurs at some position of the line |
| Text.ContainsAny | fatura_parser/parsers/itau.py:232-239 | `any(skip in line ...)` holds exactly when one of the words occurs in the line |
| Text.Lower | fatura_parser/parsers/itau.py:199 | `lower()` keeps the length and leaves no capital letter: each capital becomes the small letter whose capital it is, and every other character is kept |
| Text.Upper | fatura_parser/parsers/itau.py:211 | `upper()` keeps the length and leaves no small letter: each small letter except `µ` and `ÿ` becomes the capital whose small letter it is, and every other character is kept |
| Text.LowerIdempotent | fatura_parser/parsers/itau.py:199 | lower-casing a lower-cased text changes nothing |
| Text.UpperIdempotent | fatura_parser/parsers/itau.py:291 | upper-casing an upper-cased text changes nothing |
| Text.CaseMapsOccurrence | fatura_parser/parsers/itau.py:199-211 | a word that occurs in a line still occurs once both are lower-cased, or both upper-cased, so a header spelled as in the test is recognised |
| Text.Split | fatura_parser/parsers/itau.py:188 | `split("\n")` yields at least one piece and no piece contains the separator |
| Text.JoinSplit | fatura_parser/parsers/itau.py:374 | joining the pieces of a split with the separator gives back the text |
| Text.SplitJoin | fatura_parser/parsers/itau.py:374 | splitting pieces joined by a separator they do not contain gives back the pieces |
| Money.Clean | fatura_parser/parsers/itau.py:97 | the three `replace` calls never lengthen the token |
| Money.CleanAppend | fatura_parser/parsers/itau.py:97 | cleaning distributes over concatenation |
| Money.DecimalCents | fatura_parser/parsers/itau.py:99 | `Decimal(cleaned)` for the two-place form; a negative value comes only from a leading minus |
| Money.ParseBrlAmount | fatura_parser/parsers/itau.py:88-101 | a token that does not read gives 0 and never fails; a negative amount needs a minus sign in the token |
| Money.BrlRoundTrip | fatura_parser/parsers/itau.py:88-101 | every amount in cents, printed the statement's way (thousands dots, decimal comma, `- ` for credits), reads back as itself |
| Money.DecimalTextRoundTrip | fatura_parser/core.py:40-41 | `str(Decimal)` of a two-place amount reads back as the same cents |
| Money.ForeignCharacterReadsZero | fatura_parser/parsers/itau.py:97-101 | a token holding a printable ASCII character that `Decimal` admits nowhere in a number (not a digit, a letter, a sign, `.`, `,` or `_`) reads as 0 |
| Money.KeptByClean | fatura_parser/parsers/itau.py:97 | a character other than space, `.` and `,` survives the cleaning |
| MoneyExamples.GroupedExample | fatura_parser/parsers/itau.py:92 | `1.234,56` reads as 123456 cents |
| MoneyExamples.MinusExample | fatura_parser/parsers/itau.py:93 | `-1.234,56` reads as -123456 cents |
| MoneyExamples.SpacedMinusExample | fatura_parser/parsers/itau.py:94 | `- 1.234,56` reads as -123456 cents |
| MoneyExamples.UnreadableExample | fatura_parser/parsers/itau.py:100-101 | `1,2,3` cleans to `1.2.3`, which is not a number, and reads as 0 |
| Dates.DaysInMonth | fatura_parser/parsers/itau.py:108 | February has 29 days exactly in leap years and 28 otherwise; every other month has 30 or 31 days |
| Dates.YearLength | fatura_parser/parsers/itau.py:108 | the twelve month lengths add up to 366 days in a leap year and 365 otherwise |
| Dates.MakeDate | fatura_parser/parsers/itau.py:108 | `date(y, m, d)` succeeds exactly for a valid calendar date and keeps its parts |
| Dates.IntOf | fatura_parser/parsers/itau.py:106-107 | `int()` of a token of ASCII digits: it reads exactly when the token is a non-empty run of them |
| Dates.DatePieces | fatura_parser/parsers/itau.py:105 | a `DD/MM` or `DD/MM/YYYY` token, stripped and split at `/`, gives its digit fields |
| Dates.ParseDate | fatura_parser/parsers/itau.py:103-108 | a token without a `/` gives nothing (the `IndexError`); a `DD/MM` token gives the date it names in the given year exactly when that date exists, and nothing (the `ValueError`) otherwise |
| Dates.ParseFullDate | fatura_parser/parsers/itau.py:110-113 | a token with fewer than two `/` gives nothing; a `DD/MM/YYYY` token gives the date it names exactly when that date exists, and nothing otherwise |
| Dates.ParseDateRoundTrip | fatura_parser/parsers/itau.py:103-108 | every valid date printed as `DD/MM` reads back as itself in its year |
| Dates.ParseFullDateRoundTrip | fatura_parser/parsers/itau.py:110-113 | every valid date printed as `DD/MM/YYYY` reads back as itself |
| Dates.IsoText | fatura_parser/core.py:37 | `strftime("%Y-%m-%d")` has ten characters with dashes at positions 4 and 7 |
| Dates.IsoRoundTrip | fatura_parser/core.py:37 | the ISO text of every valid date reads back as that date |
| Patterns.SearchToEnd | fatura_parser/parsers/itau.py:41-43 | a `...$` search finds a match exactly when one ends at the end of the text, and reports the leftmost |
| ItauPatterns.Find | fatura_parser/parsers/itau.py:44-55 | `re.search` finds a match exactly when the pattern matches at some position; the match it reports starts at its own start, no earlier position starts one, and its groups have the captured shapes |
| ItauPatterns.FindAt | fatura_parser/parsers/itau.py:44-55 | when no position before `k` starts a match and `k` does, the search reports the match at `k` |
| ItauPatterns.FindOne | fatura_parser/parsers/itau.py:44-54 | `match.group(1)` of a one-group pattern is the text that group captures in the leftmost match |
| ItauPatterns.LeadingDate | fatura_parser/parsers/itau.py:40 | `DATE_PATTERN.match`: the line starts with `DD/MM` followed by white space |
| ItauPatterns.CardFinal | fatura_parser/parsers/itau.py:44 | the card number: found exactly when the pattern matches, four digits, and the text the group captures in the leftmost match |
| ItauPatterns.TotalFatura | fatura_parser/parsers/itau.py:45 | the total: found exactly when its pattern matches, and the text the group captures in the leftmost match |
| ItauPatterns.PreviousBalance | fatura_parser/parsers/itau.py:46 | the previous balance: found exactly when its pattern matches, and the text the group captures in the leftmost match |
| ItauPatterns.Payment | fatura_parser/parsers/itau.py:47 | the payment line: found exactly when its pattern matches; the date and the amount are the texts groups 1 and 2 capture in the leftmost match, and the amount has no minus |
| ItauPatterns.CurrentCharges | fatura_parser/parsers/itau.py:48 | the current charges: found exactly when their pattern matches, and the text the group captures in the leftmost match |
| ItauPatterns.DueDate | fatura_parser/parsers/itau.py:49 | the due date: found exactly when its pattern matches, and the text the group captures in the leftmost match |
| ItauPatterns.StatementDate | fatura_parser/parsers/itau.py:50 | the issue date: found exactly when its pattern matches, and the text the group captures in the leftmost match |
| ItauPatterns.IofAmount | fatura_parser/parsers/itau.py:53 | the IOF amount: found exactly when its pattern matches, and the text the group captures in the leftmost match |
| ItauPatterns.ExchangeRate | fatura_parser/parsers/itau.py:54 | the rate: found exactly when its pattern matches, unsigned, and the text the group captures in the leftmost match |
| ItauPatterns.InstallmentTail | fatura_parser/parsers/itau.py:263-268 | the installment pattern matches the end of the rest exactly when some position starts a match to the end, and the two numbers are below 100 |
| ItauPatterns.AmountTail | fatura_parser/parsers/itau.py:306-309 | the trailing-amount pattern matches exactly when some position starts a match to the end |
| ItauPatterns.CategoryLocation | fatura_parser/parsers/itau.py:42 | only a line of the category shape is read: before its first `.` a category letter followed by category letters and white space, after it location characters and white space only |
| ItauPatterns.CategoryLocationRoundTrip | fatura_parser/parsers/itau.py:290-291 | every `CATEGORY . location` line built from admissible parts reads back as those parts |
| ItauPatterns.DatedLineIsNoCategory | fatura_parser/parsers/itau.py:281-291 | a line that starts with `DD/MM` and white space is never read as a category line |
| ItauPatterns.CityEndLazy | fatura_parser/parsers/itau.py:55 | the lazy city group ends at the first position where the rest of the pattern matches |
| ItauPatterns.DetailsFrom | fatura_parser/parsers/itau.py:461 | the details search reports the leftmost start that matches, and none exists when it fails |
| ItauPatterns.IntlDetails | fatura_parser/parsers/itau.py:461-465 | a details line gives a city of at least two characters starting with a capital, an unsigned amount and a currency among USD, BRL and EUR |
| SummaryParse.AmountField | fatura_parser/parsers/itau.py:119-134 | an amount field is overwritten only when its pattern matched |
| SummaryParse.DateField | fatura_parser/parsers/itau.py:136-142 | a date field is overwritten only when its pattern matched, and an invalid date fails |
| SummaryParse.ParseSummary | fatura_parser/parsers/itau.py:115-142 | each of the six fields keeps its previous value unless its own pattern matches, and then holds the amount or date read from the captured text; the parse fails exactly when a matched date is invalid |
| Spellings.SpelledMatch | fatura_parser/parsers/itau.py:44-54 | text written piece by piece, each piece in a spelling it reads in full, is matched to its end, and each group captures its own piece |
| Spellings.FindOneReads | fatura_parser/parsers/itau.py:44-54 | such text placed where no earlier position starts a match is what `group(1)` returns |
| Spellings.AmountTextReads | fatura_parser/parsers/itau.py:88-101 | a summary amount printed from some cents, a credit with a bare `-`, reads back as those cents |
| LookupReads.CardFinalReads | fatura_parser/parsers/itau.py:44 | a page holding `final NNNN`, with no earlier match, gives back `NNNN` |
| LookupReads.CardHeaderSetsCard | fatura_parser/parsers/itau.py:210-214 | a card header holding `final NNNN`, with no earlier match, makes `NNNN` the current card and closes the future-installments section |
| LookupReads.TotalFaturaReads | fatura_parser/parsers/itau.py:45 | a page holding `Total desta fatura <amount>`, with no earlier match, gives back the amount text |
| LookupReads.PreviousBalanceReads | fatura_parser/parsers/itau.py:46 | a page holding `Total da fatura anterior <amount>`, with no earlier match, gives back the amount text |
| LookupReads.PaymentReads | fatura_parser/parsers/itau.py:47 | a page holding `Pagamento efetuado em DD/MM/YYYY`, a run of dashes and white space and an unsigned amount, with no earlier match, gives back the date text and the amount text |
| LookupReads.CurrentChargesReads | fatura_parser/parsers/itau.py:48 | a page holding `Lançamentos atuais <amount>`, with no earlier match, gives back the amount text |
| LookupReads.DueDateReads | fatura_parser/parsers/itau.py:49 | a page holding `Vencimento: DD/MM/YYYY`, with no earlier match, gives back the date text |
| LookupReads.StatementDateReads | fatura_parser/parsers/itau.py:50 | a page holding `Emissão: DD/MM/YYYY`, with no earlier match, gives back the date text |
| LookupReads.IofAmountReads | fatura_parser/parsers/itau.py:53 | a page holding `Repasse de IOF em R$ <amount>`, with no earlier match, gives back the amount text |
| LookupReads.IofLineSetsIof | fatura_parser/parsers/itau.py:401-404 | the printed IOF line sets the statement's IOF to the printed cents and changes nothing else |
| LookupReads.ExchangeRateReads | fatura_parser/parsers/itau.py:54 | a page holding `Dólar de Conversão R$ <rate>`, with no earlier match, gives back the rate text |
| LookupReads.RateLineSetsRate | fatura_parser/parsers/itau.py:426-433 | with a purchase pending, the printed rate line records the printed rate on it, finalizes it and clears it |
| SummaryReads.TotalLineReads | fatura_parser/parsers/itau.py:119-121 | a first page holding the printed total line sets the total to the printed cents |
| SummaryReads.PreviousLineReads | fatura_parser/parsers/itau.py:123-125 | a first page holding the printed previous balance line sets the previous balance to the printed cents |
| SummaryReads.PaymentLineReads | fatura_parser/parsers/itau.py:127-130 | a printed payment line never makes the parse fail, and sets the payment date and amount to the printed ones |
| SummaryReads.ChargesLineReads | fatura_parser/parsers/itau.py:132-134 | a first page holding the printed current charges line sets the charges to the printed cents |
| SummaryReads.DueLineReads | fatura_parser/parsers/itau.py:136-138 | a printed due date never makes the parse fail, and sets the due date to the printed date |
| SummaryReads.IssuedLineReads | fatura_parser/parsers/itau.py:140-142 | a printed issue date never makes the parse fail, and sets the issue date to the printed date |
| SummaryReads.SummaryPageReads | fatura_parser/parsers/itau.py:115-142 | a first page showing all six summary lines reads, from any starting summary, as exactly the printed figures |
| MainPass.Classify | fatura_parser/parsers/itau.py:194-257 | first-match classification: a purchase candidate only outside the future and international sections and only on a line no header or skip word marks, and every such unmarked dated line is one |
| MainPass.Update | fatura_parser/parsers/itau.py:198-224 | the future and international headers set their flags, the purchases header clears the international flag, a card header with `final NNNN` sets the card and clears the future flag, a card header without it changes nothing, and any other line leaves the state alone |
| MainPass.WithCategory | fatura_parser/parsers/itau.py:281-340 | the next line is consumed exactly when it has the category/location shape, and then category and upper-cased location are set |
| MainPass.NextPurchaseKept | fatura_parser/parsers/itau.py:281-298 | a purchase followed by a dated line is kept with only its own line consumed, so the next purchase is not lost |
| MainPass.Purchase | fatura_parser/parsers/itau.py:259-345 | an installment match gives a purchase exactly when the date is valid, whatever its description, with the matched description, amount and two numbers; otherwise a trailing amount gives a plain purchase exactly when the description has at least two characters and the date is valid; with neither nothing is appended; every purchase carries the current card |
| MainPass.Consume | fatura_parser/parsers/itau.py:192-346 | a purchase comes only from an unmarked dated line outside both sections and leaves the state as it was; the card changes only to a card header's number |
| MainPass.ConsumeCandidate | fatura_parser/parsers/itau.py:226-346 | an unmarked dated line outside both sections is read as a purchase candidate, and the state is left alone |
| MainPass.ConsumeHeaders | fatura_parser/parsers/itau.py:198-224 | in the loop's order, each of the four headers consumes its one line, appends nothing and makes its own change of state; any other line leaves the state alone |
| MainPass.Step | fatura_parser/parsers/itau.py:191-346 | every iteration advances the cursor by one or two lines, and a purchase comes only from an unmarked dated line |
| MainPass.StepHeaders | fatura_parser/parsers/itau.py:191-224 | on the stripped line, each header advances the cursor by one, appends nothing and makes its own change of state |
| MainPass.ColumnCards | fatura_parser/parsers/itau.py:210-322 | every purchase carries the incoming card or a card header of the column |
| MainPass.ColumnCardsOk | fatura_parser/parsers/itau.py:214 | card numbers stay four-digit strings |
| MainPass.ColumnFrom | fatura_parser/parsers/itau.py:188-346 | the column loop appends at most one purchase per line it reads |
| MainPass.IntlSectionSuppresses | fatura_parser/parsers/itau.py:204-229 | inside the international section nothing is appended until a `saques` header |
| MainPass.FutureSectionSuppresses | fatura_parser/parsers/itau.py:198-229 | inside the future-installments section nothing is appended until a card header |
| MainPass.Advance | fatura_parser/parsers/itau.py:191-346 | one loop iteration of the method keeps the column's result unchanged |
| MainPass.ParseColumn | fatura_parser/parsers/itau.py:176-346 | the imperative loop computes the recursive column reading |
| MainPass.PageColumns | fatura_parser/parsers/itau.py:152-156 | a page without `Lançamentos` and `compras e saques` yields nothing and leaves the state unchanged |
| MainPass.SkippedPageIsInert | fatura_parser/parsers/itau.py:155-156 | a skipped page can be removed from the document without effect |
| MainPass.PagesCardsOk | fatura_parser/parsers/itau.py:73-81 | across pages, with the state threaded, card numbers stay four digits |
| MainPass.PagesFrom | fatura_parser/parsers/itau.py:73-81 | every purchase of the page loop is dated in the statement year and has no payment method or international info |
| MainPass.PagesAppend | fatura_parser/parsers/itau.py:73-81 | the state runs through the pages: reading a document is reading its first pages, then the rest from the state they leave |
| MainRoundTrip.PlainLineRoundTrip | fatura_parser/parsers/itau.py:306-342 | a printed `DD/MM description amount` line reads back as that single purchase |
| MainRoundTrip.CategorizedLineRoundTrip | fatura_parser/parsers/itau.py:306-342 | a purchase line followed by its category line reads back as one purchase with category and upper-cased location |
| MainRoundTrip.InstallmentLineRoundTrip | fatura_parser/parsers/itau.py:263-303 | a printed installment line, with any trimmed description including the empty one, reads back as that installment purchase with its two numbers |
| IntlPass.Finalize | fatura_parser/parsers/itau.py:467-488 | no card, paid at once, online; international info present exactly when amount and currency were captured, rate 0 by default; unsigned details give non-negative amounts and a known currency |
| IntlPass.DatedStep | fatura_parser/parsers/itau.py:437-458 | a dated line finalizes the pending purchase without clearing it, then opens a new one, or clears it when the date is invalid, or keeps it when no amount ends the line |
| IntlPass.RateLine | fatura_parser/parsers/itau.py:427-434 | the rate line finalizes and clears a pending purchase, recording the rate when it reads |
| IntlPass.WithDetails | fatura_parser/parsers/itau.py:461-465 | a details line sets city, original amount and currency and nothing else |
| DetailsRoundTrip.DetailsRoundTrip | fatura_parser/parsers/itau.py:55 | a details line printed from a city of capitals, `-` and spaces, an amount token, a currency code and a second amount token is found by the details search, which reads back that city, that first amount and that currency |
| DetailsRoundTrip.DetailsOn | fatura_parser/parsers/itau.py:461-465 | on any line laid out as city, space, amount, space, currency, space, amount, the search gives back the city, the first amount and the currency that were laid there |
| DetailsRoundTrip.DetailsFoundAtStart | fatura_parser/parsers/itau.py:55 | on a line that starts with such a city followed by a match of the rest of the pattern, the search starts at the start of the line and the lazy city group stops exactly at the end of the city |
| DetailsRoundTrip.NoStopInCity | fatura_parser/parsers/itau.py:55 | no position inside such a city starts the rest of the pattern, so the lazy group cannot stop early |
| DetailsRoundTrip.IntlDetailsOfMatch | fatura_parser/parsers/itau.py:461-465 | once the search has its match, the city is the text of group 1 and the amount and currency are the texts of groups 2 and 3 |
| DetailsRoundTrip.RateTextReads | fatura_parser/parsers/itau.py:88-101 | an ungrouped amount token printed from a number of cents reads back as that number |
| DetailsRoundTrip.RateShapeReads | fatura_parser/parsers/itau.py:88-101 | every `\d+,\d{2}` token reads as its whole digits times 100 plus its two decimal digits |
| DetailsRoundTrip.NoSmallUnmarked | fatura_parser/parsers/itau.py:381-425 | a line without small letters escapes every keyword test of the third pass except possibly the card-holder test |
| DetailsRoundTrip.DetailsUnmarked | fatura_parser/parsers/itau.py:381-438 | a printed details line meets none of the keyword tests and does not start with a date, so it reaches the details search |
| DetailsRoundTrip.DetailsLineFills | fatura_parser/parsers/itau.py:461-465 | with a purchase pending, a printed details line fills it with its city, the value of its first amount and its currency, and changes nothing else |
| IntlPass.IntlClassify | fatura_parser/parsers/itau.py:381-465 | first-match classification of a line of the international pass |
| IntlPass.IntlAct | fatura_parser/parsers/itau.py:381-465 | a transaction is appended only from the pending purchase, and only by a flushing line; the IOF line appends nothing |
| IntlPass.IntlStep | fatura_parser/parsers/itau.py:379-465 | only the header opens the section; outside it nothing happens; the IOF line only reads the amount; only `final NNNN` changes the card |
| IntlPass.IntlColumnFrom | fatura_parser/parsers/itau.py:374-465 | every appended transaction has the international shape, is dated in the year and has well-formed details; at most one per line |
| IntlPass.IntlColumn | fatura_parser/parsers/itau.py:374-377 | every transaction a column text appends has the international shape, is dated in the year and has well-formed details |
| IntlPass.IntlColumnOf | fatura_parser/parsers/itau.py:364-377 | a failed crop or a column without the header yields nothing |
| IntlPass.IntlPage | fatura_parser/parsers/itau.py:355-377 | a page without the section header yields nothing; what its columns append is dated in the year with well-formed details |
| IntlPass.IntlPages | fatura_parser/parsers/itau.py:352-465 | every purchase abroad of the document has the international shape, is dated in the statement year and has well-formed details |
| IntlRoundTrip.IntlPurchaseStep | fatura_parser/parsers/itau.py:437-458 | a printed purchase line flushes what was pending and opens that purchase under the current card |
| IntlRoundTrip.ClosedPurchase | fatura_parser/parsers/itau.py:393-458 | a purchase line followed by the section total reads back as that purchase abroad |
| IntlRoundTrip.OpenPurchaseDropped | fatura_parser/parsers/itau.py:379-465 | a purchase still pending when the column ends is dropped |
| IntlRoundTrip.OutsideInert | fatura_parser/parsers/itau.py:389-390 | outside the section, lines without the header change nothing |
| IntlRoundTrip.SectionEndDropsPending | fatura_parser/parsers/itau.py:408-410 | `Total lan… inter` ends the section without flushing |
| IntlRoundTrip.GrandTotalFlushes | fatura_parser/parsers/itau.py:412-417 | `Total dos lan…` inside the section appends the pending purchase, if any, clears it and closes the section |
| IntlRoundTrip.DoubleFinalize | fatura_parser/parsers/itau.py:440-458 | a dated line without an amount, then a flushing line, finalize the same purchase twice |
| IntlRoundTrip.RateCompletes | fatura_parser/parsers/itau.py:427-434 | the rate line finalizes the pending purchase with the rate it reads |
| IntlRoundTrip.DetailsFill | fatura_parser/parsers/itau.py:461-465 | a details line fills the pending purchase when there is one and is ignored otherwise |
| ItauParser.StatementYear | fatura_parser/parsers/itau.py:350 | the statement's issue year, or 2025 when it is unknown |
| ItauParser.NoIntlPages | fatura_parser/parsers/itau.py:356-357 | without the international header the third pass reads nothing |
| ItauParser.OnlineAfterCards | fatura_parser/parsers/itau.py:80-84 | the purchases abroad are appended after all card purchases |
| ItauParser.Assemble | fatura_parser/parsers/itau.py:66-86 | card purchases, then purchases abroad, all in the statement year with well-formed details; no section means no IOF and no online purchase |
| ItauParser.Parse | fatura_parser/parsers/itau.py:61-86 | a missing file and an empty document fail, and so does an invalid summary date; otherwise the statement is assembled |
| Core.Total | fatura_parser/core.py:52-55 | the sum of the amounts: zero or more when every amount is, zero or less when every amount is, and the amount itself for one transaction |
| Core.TotalAppend | fatura_parser/core.py:52-55 | the total of two runs of transactions is the sum of their totals |
| Core.TotalRotate | fatura_parser/core.py:52-55 | moving the first transaction to the end keeps the total |
| Core.TotalPermutation | fatura_parser/core.py:52-55 | two lists holding the same transactions, in any order, have the same total |
| Core.ToYnabRow | fatura_parser/core.py:34-42 | ISO date, payee verbatim, empty memo; outflow set exactly for a positive amount and inflow exactly for a negative one |
| Core.YnabRoundTrip | fatura_parser/core.py:34-42 | the row reads back as the transaction, category aside |
| Core.RowAmountOf | fatura_parser/core.py:40-41 | outflow minus inflow is the amount |
| Core.YnabRows | fatura_parser/core.py:141-142 | one row per transaction, in order |
| Core.YnabNetIsTotal | fatura_parser/core.py:52-142 | the net of the YNAB rows is the statement total |
| Core.YnabRecords | fatura_parser/core.py:132-142 | the header `Date,Payee,Memo,Outflow,Inflow`, then one record per transaction |
| Core.CsvFields | fatura_parser/core.py:121-126 | four fields, the category or the empty text when there is none |
| Core.CsvRoundTrip | fatura_parser/core.py:118-126 | a record reads back as its transaction; an empty category comes back as none |
| Core.CsvRecords | fatura_parser/core.py:117-126 | the header `date,description,amount,category`, then one record per transaction, in order |
| Core.CsvAmountsAreTotal | fatura_parser/core.py:52-124 | the amounts of the CSV records add up to the total |
| Core.GetParser | fatura_parser/core.py:145-151 | CSV gives the CSV parser and PDF the PDF parser |
| Core.GetParserBijective | fatura_parser/core.py:145-151 | the parser factory is one-to-one and onto |
| Core.GetExporter | fatura_parser/core.py:154-160 | CSV gives the CSV exporter and YNAB the YNAB exporter |
| Core.GetExporterBijective | fatura_parser/core.py:154-160 | the exporter factory is one-to-one and onto |
| Core.StubParse | fatura_parser/core.py:74-99 | the stub parsers never return a statement: missing path, then not a file, then not implemented |

## Left out

- PDF access: opening the document, cropping the columns and extracting text. Pages and columns are given as text, and a crop that raised is `None`.
- The column x-boundaries and the text extraction settings.
- `export_json` and `to_dict`, which do file I/O and JSON serialisation.
- The `ImportError` raised in the constructor when the PDF library is missing.
- `Decimal` in general. Only the plain two-place form `-?D+.DD` in ASCII digits is read, and any other spelling reads as 0. A captured amount has that form once cleaned unless white space other than a space sits inside it (after a credit's minus, or as the payment pattern's `[.\s]` separator); `Decimal` rejects such a token too, so both give 0. Spellings `Decimal` accepts but no pattern captures (an exponent, a `+`, underscores, `NaN`, other Unicode digits) are not modelled.
- Text.Upper: Python's `upper()` turns `ß` into the two letters `SS`; the model leaves it as it is, and leaves every character outside ASCII and Latin-1 alone. The texts upper-cased are a location, whose pattern admits none of these characters, and a line tested for `RAFAEL`, which none of them can help spell.
- Text.Lower: characters outside ASCII and Latin-1 are left as they are. Python lowers a few of them (the Kelvin sign to `k`, `İ` to `i` and a combining dot), and none of those can complete `final` or `próximas faturas`.
- Dates.IntOf: reads only non-empty runs of ASCII digits. Python's `int()` also accepts surrounding white space, a sign, underscores between digits and other Unicode decimal digits. The dates it reads come from `\d{2}` and `\d{4}` groups, which hold none of these once `\d` is ASCII.
- The `\d` class matches only the ASCII digits; Python's matches every Unicode decimal digit. Statements printed with other digits are not modelled.
- Core.ToYnabRow: an amount is a whole number of cents, written with two decimal places. `str()` of a `Decimal` with any other exponent is not modelled (`Decimal("100")` prints as `100`, `Decimal("1.5")` as `1.5`), nor are amounts finer than a cent. A zero amount, minus zero included, fills neither outflow nor inflow in both.
- Core.CsvFields: the amount field is always the two-place text. Python writes `str(tx.amount)`, which differs for amounts with another exponent: `100` for `Decimal("100")`, `0` for the `Decimal("0")` an unreadable token gives, and `-0.00` for the `Decimal("-0.00")` of a `- 0,00` credit. The model writes `100.00`, `0.00` and `0.00`.
- Dates.IsoText: every year is written with four digits. For a year below 1000, Python's `strftime("%Y")` may write fewer digits, depending on the platform; this is not modelled. `Core.ToYnabRow` writes its date with `IsoText` and shares the assumption.
- CSV quoting and the writing of the file. The exporters are modelled as the records they hand to the CSV writer.
- `_validate_file`: its two file-system tests are boolean parameters of `Core.StubParse`, and the existence test is a boolean parameter of `ItauParser.Parse`.
- DetailsRoundTrip.DetailsRoundTrip: the round trip is stated for cities that start with a capital, hold only capitals, `-` and spaces, and do not end in a space, and `DetailsRoundTrip.DetailsLineFills` for lines the card-holder test does not catch. Cities with digits or a trailing space can make the lazy group stop elsewhere, and are not claimed to read back whole.
- ItauPatterns.TotalFatura: the summary amount pattern admits `-` only directly before the digits. A credit printed with `- ` is not claimed to read back. The reading lemmas of `LookupReads` and `SummaryReads` print a credit with a bare `-` (`Spellings.AmountText`).
- LookupReads.CardFinalReads: this and the other reading lemmas print each line with one space where the pattern admits any run of white space, and claim nothing for other spacings. They also need no earlier position of the page to start a match, which is when `re.search` reports that line.
- `fatura_parser/batch.py` and `fatura_parser/cli.py`: interactive prompts, logs, argument parsing and file discovery.
- The richer YNAB exporter the Itaú tests expect. It is not part of this model, because `core.py` has only the one shown here.
