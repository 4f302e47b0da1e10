/** The period report: the transactions of a day range narrowed by report
    type, with a count, an income total, an expense total and their
    difference. */
module PeriodReport {
  import opened Results
  import opened Seqs
  import opened Ledger

  /** The report types offered: every transaction, income, expense, or tax
      related ones. */
  datatype ReportType = All | IncomeOnly | ExpenseOnly | TaxOnly

  /** The accounts the report treats as expenses. */
  const ReportExpenseAccounts: seq<string> := ["仕入", "旅費交通費", "通信費", "消耗品費", "水道光熱費", "家賃", "雑費"]

  /** `売上` or `元入金` on either side: income, both for the income filter and
      for the income total. */
  predicate IncomeRelated(t: Transaction)
  {
    t.debitAccount == "売上" || t.creditAccount == "売上"
    || t.debitAccount == "元入金" || t.creditAccount == "元入金"
  }

  /** The expense filter looks at the debit side only. */
  predicate ExpenseDebited(t: Transaction)
  {
    t.debitAccount in ReportExpenseAccounts
  }

  /** The expense total looks at both sides. */
  predicate ExpenseRelated(t: Transaction)
  {
    t.debitAccount in ReportExpenseAccounts || t.creditAccount in ReportExpenseAccounts
  }

  /** The description or the memo mentions `税` (tax). */
  predicate TaxRelated(t: Transaction)
  {
    '税' in t.description || '税' in t.memo
  }

  /** Whether a report of type `kind` shows `t` (the date aside). */
  predicate Shows(kind: ReportType, t: Transaction)
  {
    match kind
    case All => true
    case IncomeOnly => IncomeRelated(t)
    case ExpenseOnly => ExpenseDebited(t)
    case TaxOnly => TaxRelated(t)
  }

  /** The amount `t` adds to the income total. */
  function IncomeShare(t: Transaction): int
  {
    if IncomeRelated(t) then t.amount else 0
  }

  /** The amount `t` adds to the expense total. */
  function ExpenseShare(t: Transaction): int
  {
    if ExpenseRelated(t) then t.amount else 0
  }

  /** The narrowing by report type; `All` keeps the list as it is. */
  function SelectKind(txs: seq<Transaction>, kind: ReportType): (r: seq<Transaction>)
    ensures forall i :: 0 <= i < |r| ==> r[i] in txs && Shows(kind, r[i])
    ensures forall i :: 0 <= i < |txs| && Shows(kind, txs[i]) ==> txs[i] in r
    ensures IsSubsequence(r, txs)
    ensures forall t :: multiset(r)[t] == if Shows(kind, t) then multiset(txs)[t] else 0
  {
    FilterIsSubsequence(txs, (t: Transaction) => Shows(kind, t));
    FilterMultiset(txs, (t: Transaction) => Shows(kind, t));
    if kind == All then
      FilterAll(txs, (t: Transaction) => Shows(kind, t));
      txs
    else Filter(txs, (t: Transaction) => Shows(kind, t))
  }

  datatype Summary = Summary(totalTransactions: nat, totalIncome: int, totalExpense: int, netAmount: int)

  /** The totals as the report accumulates them, one transaction at a time
      in list order. */
  function Totals(txs: seq<Transaction>): Summary
  {
    if |txs| == 0 then Summary(0, 0, 0, 0)
    else
      var s := Totals(txs[..|txs| - 1]);
      var t := txs[|txs| - 1];
      Summary(0, s.totalIncome + IncomeShare(t), s.totalExpense + ExpenseShare(t), 0)
  }

  /** Appending a transaction adds its amount to the sum over the filter
      it passes, and nothing to the other. */
  lemma FilteredSumSnoc(init: seq<Transaction>, t: Transaction, p: Transaction -> bool)
    ensures SumOf(Filter(init + [t], p), AmountOf) == SumOf(Filter(init, p), AmountOf) + (if p(t) then t.amount else 0)
  {
    FilterAppend(init, [t], p);
    SumOfAppend(Filter(init, p), Filter([t], p), AmountOf);
  }

  /** The accumulated income total is the total of the income-related
      transactions, and the expense total that of the expense-related
      ones. */
  lemma {:induction false} TotalsAreFilteredSums(txs: seq<Transaction>)
    ensures Totals(txs).totalIncome == SumOf(Filter(txs, IncomeRelated), AmountOf)
    ensures Totals(txs).totalExpense == SumOf(Filter(txs, ExpenseRelated), AmountOf)
  {
    if |txs| > 0 {
      var init, t := txs[..|txs| - 1], txs[|txs| - 1];
      assert txs == init + [t];
      TotalsAreFilteredSums(init);
      FilteredSumSnoc(init, t, IncomeRelated);
      FilteredSumSnoc(init, t, ExpenseRelated);
    }
  }

  /** The summary of the shown transactions: their count, the income total
      over those touching `売上`/`元入金`, the expense total over those
      touching a listed expense account on either side, and the net. */
  function Summarize(txs: seq<Transaction>): (s: Summary)
    ensures s.totalTransactions == |txs|
    ensures s.totalIncome == SumOf(Filter(txs, IncomeRelated), AmountOf)
    ensures s.totalExpense == SumOf(Filter(txs, ExpenseRelated), AmountOf)
    ensures s.netAmount == s.totalIncome - s.totalExpense
  {
    var t := Totals(txs);
    TotalsAreFilteredSums(txs);
    Summary(|txs|, t.totalIncome, t.totalExpense, t.totalIncome - t.totalExpense)
  }

  datatype Report = Report(transactions: seq<Transaction>, summary: Summary)

  datatype ReportError = StartAfterEnd

  /** The report for the days `start` through `end`: refused when the range
      is inverted, otherwise the transactions of the range that the report
      type shows, in stored order, with their summary. */
  function GenerateReport(txs: seq<Transaction>, start: Day, end: Day, kind: ReportType): (r: Result<Report, ReportError>)
    ensures r.Err? <==> !ValidRange(start, end)
    ensures r.Ok? ==>
      var shown := r.value.transactions;
      (forall i :: 0 <= i < |shown| ==> shown[i] in txs && InRange(shown[i].date, start, end) && Shows(kind, shown[i]))
      && (forall i :: 0 <= i < |txs| && InRange(txs[i].date, start, end) && Shows(kind, txs[i]) ==> txs[i] in shown)
      && IsSubsequence(shown, txs)
      && r.value.summary.totalTransactions == |shown|
      && r.value.summary.totalIncome == SumOf(Filter(shown, IncomeRelated), AmountOf)
      && r.value.summary.totalExpense == SumOf(Filter(shown, ExpenseRelated), AmountOf)
      && r.value.summary.netAmount == r.value.summary.totalIncome - r.value.summary.totalExpense
  {
    if !ValidRange(start, end) then Err(StartAfterEnd)
    else
      var dated := InPeriod(txs, start, end);
      var shown := SelectKind(dated, kind);
      SubsequenceTransitive(shown, dated, txs);
      Ok(Report(shown, Summarize(shown)))
  }

  /** In an income report every shown transaction counts as income, so the
      income total is the total of the report. */
  lemma IncomeReportIncomeIsTotal(txs: seq<Transaction>, start: Day, end: Day)
    requires ValidRange(start, end)
    ensures var rep := GenerateReport(txs, start, end, IncomeOnly).value;
      rep.summary.totalIncome == TotalAmount(rep.transactions)
  {
    var rep := GenerateReport(txs, start, end, IncomeOnly).value;
    FilterAll(rep.transactions, IncomeRelated);
  }

  /** In an expense report every shown transaction debits an expense
      account, so the expense total is the total of the report. */
  lemma ExpenseReportExpenseIsTotal(txs: seq<Transaction>, start: Day, end: Day)
    requires ValidRange(start, end)
    ensures var rep := GenerateReport(txs, start, end, ExpenseOnly).value;
      rep.summary.totalExpense == TotalAmount(rep.transactions)
  {
    var rep := GenerateReport(txs, start, end, ExpenseOnly).value;
    assert forall i :: 0 <= i < |rep.transactions| ==> ExpenseRelated(rep.transactions[i]);
    FilterAll(rep.transactions, ExpenseRelated);
  }

  /** The two totals are not exclusive: a purchase `仕入` booked against a sale
      `売上` counts toward both, and nets to zero. */
  lemma OnePostingInBothTotals(t: Transaction)
    requires t.debitAccount == "仕入" && t.creditAccount == "売上"
    ensures Summarize([t]) == Summary(1, t.amount, t.amount, 0)
  {
    assert [t][..0] == [];
    assert ReportExpenseAccounts[0] == t.debitAccount;
    assert Totals([t]).totalIncome == t.amount;
  }

  /** The expense filter and the expense total disagree on the credit side:
      a posting crediting `家賃` (a rent refund) is left out of an expense
      report but counted in the expense total of an all report. */
  lemma CreditedExpenseOnlyInTotal(t: Transaction)
    requires t.creditAccount == "家賃" && t.debitAccount == "現金"
    ensures !Shows(ExpenseOnly, t)
    ensures Summarize([t]).totalExpense == t.amount
  {
    assert [t][1..] == [];
  }
}
