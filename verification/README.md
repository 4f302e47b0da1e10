# simple_accounting: the bookkeeping core in Dafny

This project models the computations of a small single-user bookkeeping
web application. Each computation sits inline in a page component or in the
CSV utility module. Every stored record is a double-entry posting
(`Transaction`): one amount, debited to one account and credited to another,
on one day. The model covers:

- the **balance sheet** as of a day: the fixed account table, the per-account
  balance fold, the asset, liability and equity sections, and the synthetic
  net-income line (`当期純利益`);
- the **income statement** over a day range: four fixed account lists
  (revenue, expenses, other income, other expenses), one shared sum per
  account, positive line items only, operating and net income;
- the **period report**: a day-range filter, a report-type filter (all,
  income, expense, tax) and the summary totals;
- the **CSV codec and import merge**: the value escaping, the line parser,
  the export layout, and the import's header and row checks with its
  add-or-update merge into the keyed store;
- the **invoice and receipt forms**: the line-item operations and the totals
  kept beside them, including the receipt's half-up rounded tax;
- the **date-descending listings**: the full list, the five most recent on the
  home page, and the sales the invoice form offers.

Amounts are whole yen (`int`), tax rates are whole percent, and dates are
day numbers (`int`) whose range ends are inclusive. The invoice's tax total
is exact (`real`), because the form keeps it unrounded. Storage is a
`seq<Transaction>` for the reports and a `map<string, Record>` keyed by id for
the import. Modules follow the application's structure:

| file | module | what it holds |
|---|---|---|
| `results.dfy` | `Results` | `Option` and `Result` |
| `seqs.dfy` | `Seqs` | sums, filters, subsequences |
| `ledger.dfy` | `Ledger` | the posting record, day ranges |
| `accounts.dfy` | `Accounts` | the account table |
| `balance_sheet.dfy` | `BalanceSheet` | balances, sections, the accounting identity |
| `income_statement.dfy` | `IncomeStatement` | bucketing and the statement |
| `period_report.dfy` | `PeriodReport` | filters and the summary |
| `csv_codec.dfy` | `CsvCodec` | escaping, the line parser, line and record splitting |
| `csv_import.dfy` | `CsvImport` | the export layout, the import, the round trips |
| `invoice.dfy` | `Invoice` | invoice items and totals |
| `receipt.dfy` | `Receipt` | receipt items, amount, rounded tax |
| `listings.dfy` | `Listings` | date-descending sort, top five, sales candidates |

Three kinds of behaviour are parameters rather than fixed functions:

- the number parser behind `parseFloat` in the import and the invoice form
  (`string -> Option<int>`);
- the parser behind `Number` in the receipt form (`string -> int`);
- the account table of the balance sheet. It is a parameter with a
  well-formedness predicate, and the application's own table is proved to
  satisfy that predicate.

## Model

| member | source | states |
|---|---|---|
| Accounts.AccountMasterWellFormed | src/pages/reports/balance-sheet.tsx:43-65 | In the account table, each entry is filed under its own name, and `isDebit` holds exactly for asset and expense accounts. |
| Accounts.EntryFormAccountsRegistered | src/pages/transactions/new.tsx:28-31 | Every account the entry form offers is a key of the balance sheet's account table. |
| BalanceSheet.Accumulate | src/pages/reports/balance-sheet.tsx:180-218 | The fold tracks exactly the names mentioned on either side of some posting, including unknown ones. Each tracked balance equals its reference per-account sum of signed effects. The weighted total equals the postings' one-sidedness. |
| BalanceSheet.PostingSigns | src/pages/reports/balance-sheet.tsx:186-217 | A posting between two distinct accounts adds its amount to a debit-normal debited account and subtracts it from a credit-normal one; the credited side is the mirror image. Unregistered and unnamed accounts do not move. |
| BalanceSheet.SelfPostingNetsZero | src/pages/reports/balance-sheet.tsx:186-217 | A posting whose debit and credit name the same account leaves every balance unchanged. |
| BalanceSheet.UnmentionedIsZero | src/pages/reports/balance-sheet.tsx:186-205 | An account no posting names has balance zero. |
| BalanceSheet.AccountBalancesSound | src/pages/reports/balance-sheet.tsx:220-230 | Every reported line names a registered account, with that account's category and its reference balance, and the balance is non-zero. |
| BalanceSheet.AccountBalancesComplete | src/pages/reports/balance-sheet.tsx:220-230 | Every registered account with a non-zero balance is reported. |
| BalanceSheet.AccountBalancesDistinct | src/pages/reports/balance-sheet.tsx:220-230 | No account is reported twice. |
| BalanceSheet.UpTo | src/pages/reports/balance-sheet.tsx:94-100 | A posting is aggregated if and only if it is dated on or before the as-of day, inclusive. Each kept posting occurs as often as it is stored. |
| BalanceSheet.TallySections | src/pages/reports/balance-sheet.tsx:128-143 | The assets, liabilities and equity sections are exactly the lines of that category, in order. |
| BalanceSheet.TallyTotals | src/pages/reports/balance-sheet.tsx:121-143 | Each section total is the sum of its category's balances. The net-income accumulator is revenue minus expenses. |
| BalanceSheet.BuildSections | src/pages/reports/balance-sheet.tsx:128-153 | Assets and liabilities are their category's lines. Equity is the equity lines plus a `当期純利益` line carrying revenue minus expenses, present if and only if that amount is non-zero. |
| BalanceSheet.BuildTotals | src/pages/reports/balance-sheet.tsx:121-153 | Each of the three section totals equals the sum of the balances of its lines, the net-income line included. |
| BalanceSheet.SectionsOnlyRegistered | src/pages/reports/balance-sheet.tsx:128-153 | The asset and liability sections hold only registered accounts of that category. Equity holds registered equity accounts and at most one net-income line, which comes last. |
| BalanceSheet.SheetDiscrepancy | src/pages/reports/balance-sheet.tsx:128-217 | Assets minus (liabilities plus equity) equals the aggregated postings' total debits to registered accounts minus their total credits to registered accounts. |
| BalanceSheet.BalancedPostings | src/pages/reports/balance-sheet.tsx:186-217 | Postings between registered accounts are never one-sided in total. |
| BalanceSheet.BalanceSheetBalances | src/pages/reports/balance-sheet.tsx:186-217 | When both sides of every posting dated on or before the as-of day are registered accounts, total assets equal total liabilities plus total equity. |
| Ledger.InPeriod | src/pages/reports/income-statement.tsx:99-102 | A posting is kept if and only if `start <= date <= end`. The result keeps stored order, and each kept posting occurs as often as it is stored. |
| IncomeStatement.Pick | src/pages/reports/income-statement.tsx:156-183 | Each list gives a posting's amount to at most one listed account, and only to one of its two sides. Revenue and other income prefer the credit side; expenses and other expenses prefer the debit side. |
| IncomeStatement.OneSharePerList | src/pages/reports/income-statement.tsx:156-183 | Summed over a list, one posting's shares total its amount when it touches the list and zero otherwise. |
| IncomeStatement.SumsOf | src/pages/reports/income-statement.tsx:148-184 | The tabulation loop tracks exactly the listed accounts, each holding its reference sum over the postings. |
| IncomeStatement.PositiveItems | src/pages/reports/income-statement.tsx:188-229 | Line items are the list's accounts with a strictly positive sum, each with that sum, in list order: their accounts are a subsequence of the list, one item per list position whose sum is positive. |
| IncomeStatement.SectionFor | src/pages/reports/income-statement.tsx:188-229 | A section's items are its list's positive items, and its amount is their sum, so it is never negative. |
| IncomeStatement.GenerateIncomeStatement | src/pages/reports/income-statement.tsx:82-233 | An inverted range is refused with no statement. Otherwise, for the postings in the range, the four sections hold the positive items of the shared sums, each amount is the sum of its items, operating income is revenue minus expenses, and net income is operating income plus other income minus other expenses. |
| IncomeStatement.SharedAccountCountedTwice | src/pages/reports/income-statement.tsx:105-175 | A posting crediting `受取利息` or `その他収益` adds twice its amount to that account's sum. |
| IncomeStatement.SharedAccountInBothSections | src/pages/reports/income-statement.tsx:188-218 | A shared account is a revenue item exactly when it is an other-income item with the same amount. |
| IncomeStatement.UnlistedPostingIgnored | src/pages/reports/income-statement.tsx:156-184 | A posting naming no listed account changes no sum. |
| IncomeStatement.RevenueAndExpenseFromOnePosting | src/pages/reports/income-statement.tsx:105-168 | Crediting `元入金` counts as revenue. A `仕入`/`売上` posting feeds both a revenue sum and an expense sum. |
| PeriodReport.SelectKind | src/pages/reports/index.tsx:94-116 | The report-type filter keeps a posting if and only if the type shows it, as a subsequence of its input in which each kept posting occurs as often as it is stored. Income means `売上` or `元入金` on either side; expense means the debit side is one of the seven expense accounts; tax means `税` in the description or memo. |
| PeriodReport.TotalsAreFilteredSums | src/pages/reports/index.tsx:127-145 | The running totals equal the summed amounts of the income-related postings and of the expense-related postings (either side). |
| PeriodReport.Summarize | src/pages/reports/index.tsx:119-148 | The count is the number of postings shown. Income and expense are the sums over their related postings, and the net amount is their difference. |
| PeriodReport.GenerateReport | src/pages/reports/index.tsx:72-148 | An inverted range is refused. Otherwise it shows exactly the in-range postings of the chosen type, in stored order, with the summary of those postings. |
| PeriodReport.IncomeReportIncomeIsTotal | src/pages/reports/index.tsx:95-139 | In an income report, the income total is the total of the postings shown. |
| PeriodReport.ExpenseReportExpenseIsTotal | src/pages/reports/index.tsx:100-144 | In an expense report, the expense total is the total of the postings shown. |
| PeriodReport.OnePostingInBothTotals | src/pages/reports/index.tsx:132-148 | A `仕入`/`売上` posting counts toward both totals and nets to zero. |
| PeriodReport.CreditedExpenseOnlyInTotal | src/pages/reports/index.tsx:100-144 | A posting crediting `家賃` is excluded from an expense report but still counted in the expense total. |
| CsvCodec.Escape | src/lib/csv-utils.ts:57-67 | The empty value stays empty. A value with no comma, newline or quote is unchanged. Any other value comes back wrapped in quotes. |
| CsvCodec.EscapeRoundTrip | src/lib/csv-utils.ts:185-214 | Parsing an escaped value as a line gives back exactly that value. |
| CsvCodec.RowRoundTrip | src/lib/csv-utils.ts:185-214 | Joining with commas any cells that each encode their value, escaped or plain, parses back to exactly those values. |
| CsvCodec.ParseLine | src/lib/csv-utils.ts:185-214 | A parsed line has at least one field. |
| CsvCodec.ParseCsvLine | src/lib/csv-utils.ts:185-214 | The index loop, including its skip past a doubled quote, computes the same fields as the recursive definition. |
| CsvCodec.QuoteFreeLine | src/lib/csv-utils.ts:185-214 | A quote-free line parses to its split at every comma, which has one more field than it has commas. |
| CsvCodec.ScanCount | src/lib/csv-utils.ts:185-214 | A line never yields more fields than it has commas plus one. |
| CsvCodec.SplitJoin | src/lib/csv-utils.ts:104 | Splitting at a separator undoes joining with it, when no part contains the separator. |
| CsvCodec.JoinSplit | src/lib/csv-utils.ts:104 | Joining the pieces of a split gives back the text. |
| CsvCodec.SplitRecordsJoin | src/lib/csv-utils.ts:104 | Cutting at newlines outside quotes undoes a newline join of quote-balanced records. |
| CsvImport.ExportText | src/lib/csv-utils.ts:23-45 | Exporting nothing is refused. Otherwise the text is the header line, then one row per record, each row ended by a newline. |
| CsvImport.HeaderLineColumns | src/lib/csv-utils.ts:28-31 | The header line parses back to the eight expected names and holds no newline. |
| CsvImport.ExportRowParses | src/lib/csv-utils.ts:33-44 | A row parses back to the record's eight values in header order, provided the unescaped id, date and creation time hold no comma or quote. |
| CsvImport.Trim | src/lib/csv-utils.ts:126 | Trimming keeps a contiguous middle of the line with only white space before and after it, and leaves no white space at either end of the result. |
| CsvImport.BlankIsAllSpace | src/lib/csv-utils.ts:126-127 | A line is skipped as blank if and only if it is all white space. |
| CsvImport.Assemble | src/lib/csv-utils.ts:139-149 | The row is refused if and only if some `amount` column's cell fails to parse. Otherwise each text column holds the cell under its last occurrence, and the amount is the parse of its last `amount` cell. |
| CsvImport.ImportRowMeaning | src/lib/csv-utils.ts:130-156 | A line is refused as too short if and only if it has fewer than eight fields. It is refused for a bad amount if and only if it is long enough and an amount cell is absent or fails to parse. It is refused for a missing field if and only if neither of those holds and the id, date, description, debit or credit account is absent or empty under its last column, or there is no amount column. An accepted record holds, in each text field, the cell under the last column of that name (empty when the cell or the column is absent), and as amount the parse of the last amount cell. |
| CsvImport.ImportAccounted | src/lib/csv-utils.ts:119-178 | Every non-blank data line is counted exactly once, as an addition, an update or an error. Additions are exactly the new ids. Every error names a non-blank data line by its one-based number. |
| CsvImport.ImportFrom | src/lib/csv-utils.ts:104-117 | Text with fewer than two lines is refused. A refusal for missing headers lists exactly the expected names the first line lacks. |
| CsvImport.RefusedIffMissing | src/lib/csv-utils.ts:110-117 | With a data line present, the import is refused if and only if the first line lacks an expected name. |
| CsvImport.ApplyKeys | src/lib/csv-utils.ts:159-169 | An accepted record is put under its id. It counts as an update when the id was stored and as an addition otherwise, and no stored id is lost. A blank or refused line leaves the store and both counters unchanged. |
| CsvImport.ImportStore | src/lib/csv-utils.ts:125-173 | The store an import leaves is the old store with the accepted records put over it one by one, in line order, each under its id. |
| CsvImport.ReadExportedRow | src/lib/csv-utils.ts:125-169 | An exported row of an exportable record is read back as exactly that record. |
| CsvImport.ExportImportRoundTrip | src/lib/csv-utils.ts:28-178 | Importing the export of single-line exportable records logs no error, counts every record once, and leaves the store with each record put over its id in order. |
| CsvImport.NewlineSplitsRecord | src/lib/csv-utils.ts:57-136 | A record whose description is a newline is exported quoted across two lines. The import refuses both halves as too short and leaves the store unchanged. |
| CsvImport.QuoteAwareRoundTrip | src/lib/csv-utils.ts:28-178 | With records cut only at newlines outside quotes, the round trip holds for every exportable record, newlines included. |
| CsvImport.NewlineKeptQuoteAware | src/lib/csv-utils.ts:104 | The quote-aware import reads the newline record back into the store. |
| Invoice.CalculateTotals | src/pages/documents/new-invoice.tsx:145-156 | The subtotal is the sum of the amounts, the tax total is the sum of amount times rate over 100, and the total is their sum. |
| Invoice.EditItem | src/pages/documents/new-invoice.tsx:122-135 | Editing quantity or unit price sets the field and reprices the item. Editing the tax rate or description changes only that field. Text that does not parse counts as zero. |
| Invoice.UpdateInvoiceItem | src/pages/documents/new-invoice.tsx:122-143 | Only the edited item changes, and the totals are consistent afterwards. |
| Invoice.AddInvoiceItem | src/pages/documents/new-invoice.tsx:100-108 | Appends the blank item `("", 1, 0, 0, 10)` and keeps the other items in order. |
| Seqs.Without | src/pages/documents/new-invoice.tsx:110-112 | Deletes exactly the item at the index and keeps the rest in order. An index past the end deletes nothing. |
| Invoice.RemoveInvoiceItem | src/pages/documents/new-invoice.tsx:110-120 | Removes the item and leaves the totals consistent. |
| Invoice.AddItemFromTransaction | src/pages/documents/new-invoice.tsx:158-175 | Appends the transaction as one unit at its amount, at 10 percent, and leaves the totals consistent. |
| Invoice.AddKeepsConsistent | src/pages/documents/new-invoice.tsx:100-148 | Adding a blank item keeps consistent totals consistent without recomputing them. |
| Invoice.RemoveLowersTotals | src/pages/documents/new-invoice.tsx:110-148 | Removing an item lowers the subtotal by exactly its amount and the tax total by exactly its tax. |
| Invoice.AddFromTransactionRaisesTotals | src/pages/documents/new-invoice.tsx:145-175 | Adding a transaction raises the subtotal by its amount and the tax total by a tenth of it. |
| Invoice.OperationsKeepPriced | src/pages/documents/new-invoice.tsx:100-175 | Every item operation keeps each item's amount equal to quantity times unit price. |
| Receipt.EditItem | src/pages/documents/new-receipt.tsx:88-100 | Editing the amount or quantity sets that field, with the empty text read as zero, and sets total to amount times quantity. Editing the description changes only the description. |
| Receipt.HandleItemChange | src/pages/documents/new-receipt.tsx:85-110 | Only the edited item changes, and the receipt amount becomes the sum of the item totals. |
| Receipt.AddItem | src/pages/documents/new-receipt.tsx:112-117 | Appends the blank item `("", 0, 1, 0)` and leaves the amount as it was. |
| Receipt.AddKeepsConsistent | src/pages/documents/new-receipt.tsx:112-117 | Adding a blank item keeps the amount equal to the sum of the totals. |
| Receipt.RemoveItem | src/pages/documents/new-receipt.tsx:119-132 | Nothing changes with at most one item. Otherwise exactly the item at the index is removed and the amount is reset to the remaining totals. |
| Receipt.RemoveLowersAmount | src/pages/documents/new-receipt.tsx:119-132 | Removing one of several items lowers the amount by exactly that item's total. |
| Receipt.RoundedTax | src/pages/documents/new-receipt.tsx:134-136 | The tax is within half a yen of amount times rate over 100, with halves rounded up. |
| Receipt.CalculateTotal | src/pages/documents/new-receipt.tsx:138-140 | The total is within half a yen of amount times (100 + rate) over 100. |
| Receipt.HalvesRoundUp | src/pages/documents/new-receipt.tsx:134-136 | Half-yen taxes round towards positive infinity: 0.5 becomes 1 and -0.5 becomes 0. |
| Receipt.LoadTransaction | src/pages/documents/new-receipt.tsx:56-67 | Loading a transaction gives one item of quantity 1, whose total equals the receipt amount and the transaction's amount. |
| Receipt.EditTax | src/pages/documents/new-receipt.tsx:77-83 | A tax-rate edit keeps the amount equal to the sum of the item totals. |
| Receipt.DirectAmountEdit | src/pages/documents/new-receipt.tsx:77-83 | A direct amount edit keeps the amount equal to the sum of the totals if and only if the typed number is that sum. |
| Receipt.OperationsKeepPriced | src/pages/documents/new-receipt.tsx:85-132 | Every item operation keeps each item's total equal to amount times quantity. |
| Receipt.ItemsNeverEmpty | src/pages/documents/new-receipt.tsx:112-132 | No item operation empties the item list. |
| Listings.SortPermutation | src/pages/transactions/index.tsx:27 | The sorted list holds each stored record, unchanged, exactly as often as it is stored. |
| Listings.SortNewestFirst | src/pages/transactions/index.tsx:27 | The sorted list is non-increasing by date. |
| Listings.SortStable | src/pages/transactions/index.tsx:27 | Records of the same day keep their store order. |
| Listings.TransactionListProperties | src/pages/transactions/index.tsx:27-90 | The full list is the store rearranged newest first and stable within a day. It is empty exactly when the store is. |
| Listings.RecentProperties | src/pages/index.tsx:26-31 | The home page shows at most five stored records, newest first, none more often than stored. It shows all of them when five or fewer are stored. No omitted record is newer than the last one shown. |
| Listings.SalesCandidatesProperties | src/pages/documents/new-invoice.tsx:83-88 | The invoice form lists exactly the stored records crediting `売上` or debiting `売掛金`, newest first, and offers at most five of them. |
| Seqs.FilterIsSubsequence | src/pages/reports/index.tsx:89-116 | Every filter keeps its survivors in their original relative order. |

## Left out

- Storage: IndexedDB, file reading, Blob and download, and the ZIP export and import. The reports take a `seq<Transaction>`, and the import takes and returns a `map<string, Record>`.
- Dates: `Date` parsing, time zones and `setHours(23, 59, 59, 999)`. Every day comparison is on whole day numbers, with the end day inclusive.
- Floating point: NaN from `Number` and `parseFloat`, IEEE rounding of `amount * (tax / 100)` and of the invoice tax products, and `toLocaleString`. Amounts are integers, and the invoice tax total is an exact `real`.
- Invoice.EditItem: quantity and unit price are whole numbers. Fractional input is not modelled, and the `parseFloat(value) || 0` fallback is the parser's `None` mapped to zero.
- Receipt.EditItem: `Number(value)` is a total parser on text. A NaN from text that does not parse is not modelled.
- CsvImport.ImportRow: the stored record keeps only the eight expected columns. The application also copies the cell under any other header column onto the stored object (src/lib/csv-utils.ts:146-147).
- CsvImport.ImportRow: amounts are whole numbers read by an abstract parser. `parseFloat`'s acceptance of trailing garbage is whatever that parser does.
- Ids, dates and creation times are exported without escaping. The round trips require them to hold no comma, quote or newline, as part of `Exportable`. The model reports no failure for other values.
- Seqs.Without: negative indices, which `splice` counts from the end, are not modelled. The form only passes the index of a shown item.
- The document CSV export and import, the unescaped report download, React state and rendering, the percentage bars, navigation, and the random or time-based invoice and receipt numbers.
- The invoice form's client list and company block, and the receipt's issued-to, payment method and bank fields. No computation reads them.
- Receipt.HandleItemChange and Invoice.UpdateInvoiceItem: both require an index inside the item list, because the forms only edit items they show.

Where the behaviour in the code differs from a natural reading of the
application, the model follows the code:

- The header line is not trimmed; data lines are.
- A repeated column name keeps its last cell.
- A memo or creation-time cell past the end of the line is `undefined` in the application. It is modelled as the empty string, because every reader treats it so (`memo || ''` in src/lib/csv-utils.ts:41, `memo?.` in src/pages/reports/index.tsx:114).
- The expense and other-expense lists of the income statement consult the debit account first. Only the revenue and other-income lists consult the credit account first.

## Findings

| source | as written | input that shows it | evidently intended | confidence | as-written member | corrected member |
|---|---|---|---|---|---|---|
| src/lib/csv-utils.ts:104 | The import cuts the text at every newline before any quote handling. The export escapes a newline inside a value by quoting it (lines 57-67), so such a row is split in two. | The record `("1", "d", "\n", 0, "a", "b", "", "")`, whose description is a newline. Its export has the data lines `1,d,"` and `",0,a,b,,`. Both are refused as too short (lines 2 and 3), and the record is lost. | Records are cut only at newlines outside quotes, so the export of any valid record reads back as that record. | not executed | CsvImport.NewlineSplitsRecord | CsvImport.QuoteAwareRoundTrip |
