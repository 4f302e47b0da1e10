/** The income statement over a closed day range: postings are bucketed by
    four fixed account lists (revenue, expenses, other income, other
    expenses), each account's bucket sum becomes a line item when positive,
    and operating and net income are derived from the section amounts. */
module IncomeStatement {
  import opened Results
  import opened Seqs
  import opened Ledger

  const RevenueAccounts: seq<string> := ["売上", "元入金", "受取利息", "その他収益"]
  const ExpenseAccounts: seq<string> := ["仕入", "旅費交通費", "通信費", "消耗品費", "水道光熱費", "家賃", "雑費", "減価償却費"]
  const OtherIncomeAccounts: seq<string> := ["受取利息", "その他収益"]
  const OtherExpenseAccounts: seq<string> := ["支払利息", "その他費用"]

  /** Which side of a posting a bucket list looks at first. The income
      lists look at the credit account first, the expense lists at the
      debit account first; the other side is consulted only when the first
      is not in the list. */
  datatype Side = CreditFirst | DebitFirst

  /** A bucket list together with the side it consults first. */
  datatype Bucket = Bucket(accounts: seq<string>, first: Side)

  const Revenue: Bucket := Bucket(RevenueAccounts, CreditFirst)
  const Expenses: Bucket := Bucket(ExpenseAccounts, DebitFirst)
  const OtherIncome: Bucket := Bucket(OtherIncomeAccounts, CreditFirst)
  const OtherExpenses: Bucket := Bucket(OtherExpenseAccounts, DebitFirst)

  /** Every account any list names, in the order the sums are initialised. */
  const AllListed: seq<string> := RevenueAccounts + ExpenseAccounts + OtherIncomeAccounts + OtherExpenseAccounts

  /** The account of `t` that bucket `b` credits with the posting's amount:
      the first-consulted side when its account is listed, else the other
      side when that one is, else none. */
  function Pick(b: Bucket, t: Transaction): (r: Option<string>)
    ensures r.Some? ==> r.value in b.accounts && (r.value == t.debitAccount || r.value == t.creditAccount)
    ensures r.None? <==> t.debitAccount !in b.accounts && t.creditAccount !in b.accounts
    ensures b.first == CreditFirst && t.creditAccount in b.accounts ==> r == Some(t.creditAccount)
    ensures b.first == DebitFirst && t.debitAccount in b.accounts ==> r == Some(t.debitAccount)
  {
    match b.first
    case CreditFirst =>
      if t.creditAccount in b.accounts then Some(t.creditAccount)
      else if t.debitAccount in b.accounts then Some(t.debitAccount)
      else None
    case DebitFirst =>
      if t.debitAccount in b.accounts then Some(t.debitAccount)
      else if t.creditAccount in b.accounts then Some(t.creditAccount)
      else None
  }

  /** What bucket `b` adds to the sum of account `a` for posting `t`. */
  function BucketShare(b: Bucket, t: Transaction, a: string): int
  {
    if Pick(b, t) == Some(a) then t.amount else 0
  }

  /** What posting `t` adds to the shared sum of account `a`: one share per
      list, so an account listed twice can receive the amount twice. */
  function Contribution(t: Transaction, a: string): int
  {
    BucketShare(Revenue, t, a) + BucketShare(Expenses, t, a)
      + BucketShare(OtherIncome, t, a) + BucketShare(OtherExpenses, t, a)
  }

  /** Reference definition of an account's bucket sum over `txs`. */
  function AccountSum(txs: seq<Transaction>, a: string): int
  {
    SumOf(txs, (t: Transaction) => Contribution(t, a))
  }

  /** The shared sums before any posting: every listed account at zero. */
  function InitialSums(): (m: map<string, int>)
    ensures forall a :: a in m <==> a in AllListed
    ensures forall a :: a in m ==> m[a] == 0
  {
    map a | a in AllListed :: 0
  }

  /** One list's step of the tabulation loop. */
  function AddShare(sums: map<string, int>, b: Bucket, t: Transaction): map<string, int>
  {
    match Pick(b, t)
    case Some(a) => sums[a := (if a in sums then sums[a] else 0) + t.amount]
    case None => sums
  }

  /** One iteration of the tabulation loop: the four lists in order. */
  function Tabulate(sums: map<string, int>, t: Transaction): map<string, int>
  {
    AddShare(AddShare(AddShare(AddShare(sums, Revenue, t), Expenses, t), OtherIncome, t), OtherExpenses, t)
  }

  /** One list's step keeps the tracked names and adds that list's share. */
  lemma AddShareAt(sums: map<string, int>, b: Bucket, t: Transaction)
    requires forall x :: x in b.accounts ==> x in sums
    ensures forall x :: x in AddShare(sums, b, t) <==> x in sums
    ensures forall x :: x in sums ==> AddShare(sums, b, t)[x] == sums[x] + BucketShare(b, t, x)
  {
  }

  lemma ListsInAllListed()
    ensures forall x :: x in RevenueAccounts ==> x in AllListed
    ensures forall x :: x in ExpenseAccounts ==> x in AllListed
    ensures forall x :: x in OtherIncomeAccounts ==> x in AllListed
    ensures forall x :: x in OtherExpenseAccounts ==> x in AllListed
  {
  }

  lemma TabulateAt(sums: map<string, int>, t: Transaction, a: string)
    requires forall x :: x in sums <==> x in AllListed
    ensures var s' := Tabulate(sums, t);
      && (a in s' <==> a in AllListed)
      && (a in s' ==> s'[a] == sums[a] + Contribution(t, a))
  {
    ListsInAllListed();
    var s1 := AddShare(sums, Revenue, t);
    AddShareAt(sums, Revenue, t);
    var s2 := AddShare(s1, Expenses, t);
    AddShareAt(s1, Expenses, t);
    var s3 := AddShare(s2, OtherIncome, t);
    AddShareAt(s2, OtherIncome, t);
    AddShareAt(s3, OtherExpenses, t);
  }

  /** The tabulation loop over `txs`, in order: every listed account holds
      its reference sum, and no other name is tracked. */
  function SumsOf(txs: seq<Transaction>): (m: map<string, int>)
    ensures forall a :: a in m <==> a in AllListed
    ensures forall a :: a in m ==> m[a] == AccountSum(txs, a)
  {
    if |txs| == 0 then InitialSums()
    else
      var init := txs[..|txs| - 1];
      var t := txs[|txs| - 1];
      assert init + [t] == txs;
      var prev := SumsOf(init);
      var m := Tabulate(prev, t);
      assert forall a :: a in m <==> a in AllListed by {
        forall a ensures a in m <==> a in AllListed {
          TabulateAt(prev, t, a);
        }
      }
      assert forall a :: a in m ==> m[a] == AccountSum(txs, a) by {
        forall a | a in m ensures m[a] == AccountSum(txs, a) {
          TabulateAt(prev, t, a);
          SumOfAppend(init, [t], (u: Transaction) => Contribution(u, a));
        }
      }
      m
  }

  /** A line item: an account and its bucket sum. */
  datatype Item = Item(account: string, amount: int)

  function ItemAmount(i: Item): int
  {
    i.amount
  }

  /** The accounts the items name, in item order. */
  function ItemAccounts(items: seq<Item>): (r: seq<string>)
    ensures |r| == |items|
    ensures forall i :: 0 <= i < |items| ==> r[i] == items[i].account
  {
    if |items| == 0 then [] else [items[0].account] + ItemAccounts(items[1..])
  }

  /** An account whose sum is tracked and strictly positive. */
  function PositiveIn(sums: map<string, int>): string -> bool
  {
    (a: string) => a in sums && sums[a] > 0
  }

  /** The accounts of `accounts`, in list order, whose sum is strictly
      positive, each with its sum: one item per such list position, and
      none for any other. An untracked name compares like an undefined
      sum: never positive. */
  function PositiveItems(accounts: seq<string>, sums: map<string, int>): (r: seq<Item>)
    ensures forall i :: 0 <= i < |r| ==>
      r[i].account in accounts && r[i].account in sums && r[i].amount == sums[r[i].account] && r[i].amount > 0
    ensures forall i :: 0 <= i < |accounts| && accounts[i] in sums && sums[accounts[i]] > 0 ==>
      Item(accounts[i], sums[accounts[i]]) in r
    ensures IsSubsequence(ItemAccounts(r), accounts)
    ensures |r| == |Filter(accounts, PositiveIn(sums))|
  {
    if |accounts| == 0 then []
    else
      var a := accounts[0];
      var rest := PositiveItems(accounts[1..], sums);
      assert forall i :: 1 <= i < |accounts| ==> accounts[i] == accounts[1..][i - 1];
      if a in sums && sums[a] > 0 then
        assert ItemAccounts([Item(a, sums[a])] + rest)[1..] == ItemAccounts(rest);
        [Item(a, sums[a])] + rest
      else
        SkipHead(ItemAccounts(rest), accounts);
        rest
  }

  /** A section of the statement: its title, its account list, its line
      items and their total. */
  datatype Section = Section(category: string, accounts: seq<string>, amount: int, items: seq<Item>)

  /** The section for list `b`: the positive line items in list order, and
      their total, which is therefore never negative. */
  function SectionFor(category: string, b: Bucket, sums: map<string, int>): (s: Section)
    ensures s.accounts == b.accounts && s.category == category
    ensures s.items == PositiveItems(b.accounts, sums)
    ensures s.amount == SumOf(s.items, ItemAmount)
    ensures s.amount >= 0
  {
    var items := PositiveItems(b.accounts, sums);
    SumOfPositive(items, ItemAmount);
    Section(category, b.accounts, SumOf(items, ItemAmount), items)
  }

  datatype Statement = Statement(
    startDate: Day, endDate: Day,
    revenue: Section, expenses: Section, operatingIncome: int,
    otherIncome: Section, otherExpenses: Section, netIncome: int)

  /** The only error the statement reports: a start day after the end day. */
  datatype StatementError = InvalidRange

  /** The income statement for the postings dated from `start` through the
      end of day `end`. Refused, with no statement, when the range is
      inverted. */
  function GenerateIncomeStatement(txs: seq<Transaction>, start: Day, end: Day): (r: Result<Statement, StatementError>)
    ensures r.Err? <==> !ValidRange(start, end)
    ensures r.Ok? ==>
      var s := r.value;
      var sums := SumsOf(InPeriod(txs, start, end));
      && s.revenue.items == PositiveItems(RevenueAccounts, sums)
      && s.expenses.items == PositiveItems(ExpenseAccounts, sums)
      && s.otherIncome.items == PositiveItems(OtherIncomeAccounts, sums)
      && s.otherExpenses.items == PositiveItems(OtherExpenseAccounts, sums)
      && s.revenue.amount == SumOf(s.revenue.items, ItemAmount) >= 0
      && s.expenses.amount == SumOf(s.expenses.items, ItemAmount) >= 0
      && s.otherIncome.amount == SumOf(s.otherIncome.items, ItemAmount) >= 0
      && s.otherExpenses.amount == SumOf(s.otherExpenses.items, ItemAmount) >= 0
      && s.operatingIncome == s.revenue.amount - s.expenses.amount
      && s.netIncome == s.operatingIncome + s.otherIncome.amount - s.otherExpenses.amount
      && s.startDate == start && s.endDate == end
  {
    if !ValidRange(start, end) then Err(InvalidRange)
    else
      var sums := SumsOf(InPeriod(txs, start, end));
      var revenue := SectionFor("収益", Revenue, sums);
      var expenses := SectionFor("費用", Expenses, sums);
      var otherIncome := SectionFor("その他収益", OtherIncome, sums);
      var otherExpenses := SectionFor("その他費用", OtherExpenses, sums);
      var operatingIncome := revenue.amount - expenses.amount;
      Ok(Statement(start, end, revenue, expenses, operatingIncome, otherIncome, otherExpenses,
        operatingIncome + otherIncome.amount - otherExpenses.amount))
  }

  predicate Touches(b: Bucket, t: Transaction)
  {
    t.debitAccount in b.accounts || t.creditAccount in b.accounts
  }

  /** Within one list at most one account receives a posting's amount: over
      a list without repeats, the shares of one posting add up to its amount
      when it touches the list and to zero otherwise. */
  lemma {:induction false} OneSharePerList(b: Bucket, accounts: seq<string>, t: Transaction)
    requires forall i, j :: 0 <= i < j < |accounts| ==> accounts[i] != accounts[j]
    requires forall x :: x in b.accounts <==> x in accounts
    ensures SumOf(accounts, (a: string) => BucketShare(b, t, a)) == (if Touches(b, t) then t.amount else 0)
  {
    ShareSum(b, accounts, t);
  }

  lemma {:induction false} ShareSum(b: Bucket, accounts: seq<string>, t: Transaction)
    requires forall i, j :: 0 <= i < j < |accounts| ==> accounts[i] != accounts[j]
    ensures SumOf(accounts, (a: string) => BucketShare(b, t, a))
         == (if Pick(b, t).Some? && Pick(b, t).value in accounts then t.amount else 0)
  {
    if |accounts| > 0 {
      ShareSum(b, accounts[1..], t);
      if Pick(b, t).Some? && Pick(b, t).value == accounts[0] {
        assert accounts[0] !in accounts[1..] by {
          forall i | 0 <= i < |accounts[1..]| ensures accounts[1..][i] != accounts[0] {
            assert accounts[1..][i] == accounts[i + 1];
          }
        }
      } else {
        assert Pick(b, t).Some? ==> (Pick(b, t).value in accounts <==> Pick(b, t).value in accounts[1..]);
      }
    }
  }

  /** `受取利息` and `その他収益` are on both the revenue and the other-income
      list and share one sum, so a posting crediting one of them adds its
      amount to that sum twice. */
  lemma SharedAccountCountedTwice(t: Transaction)
    requires t.creditAccount == "受取利息" || t.creditAccount == "その他収益"
    ensures Contribution(t, t.creditAccount) == 2 * t.amount
  {
    assert t.creditAccount in RevenueAccounts && t.creditAccount in OtherIncomeAccounts;
    assert t.creditAccount !in ExpenseAccounts && t.creditAccount !in OtherExpenseAccounts;
  }

  /** The two lists show a shared account with the same (doubled) sum: it is
      a revenue item exactly when it is an other-income item. */
  lemma SharedAccountInBothSections(txs: seq<Transaction>, start: Day, end: Day, a: string, x: int)
    requires ValidRange(start, end)
    requires a == "受取利息" || a == "その他収益"
    ensures var s := GenerateIncomeStatement(txs, start, end).value;
      Item(a, x) in s.revenue.items <==> Item(a, x) in s.otherIncome.items
  {
    var sums := SumsOf(InPeriod(txs, start, end));
    var rev := PositiveItems(RevenueAccounts, sums);
    var oth := PositiveItems(OtherIncomeAccounts, sums);
    ListsInAllListed();
    var ri := if a == "受取利息" then 2 else 3;
    var oi := if a == "受取利息" then 0 else 1;
    assert RevenueAccounts[ri] == a && OtherIncomeAccounts[oi] == a;
    if Item(a, x) in rev {
      var i :| 0 <= i < |rev| && rev[i] == Item(a, x);
      assert x == sums[a] && x > 0;
    }
    if Item(a, x) in oth {
      var i :| 0 <= i < |oth| && oth[i] == Item(a, x);
      assert x == sums[a] && x > 0;
    }
  }

  /** A posting that names no listed account, such as a transfer from `現金`
      to `普通預金`, changes no sum. */
  lemma UnlistedPostingIgnored(txs: seq<Transaction>, t: Transaction, a: string)
    requires t.debitAccount !in AllListed && t.creditAccount !in AllListed
    ensures AccountSum(txs + [t], a) == AccountSum(txs, a)
  {
    ListsInAllListed();
    SumOfAppend(txs, [t], (u: Transaction) => Contribution(u, a));
  }

  /** Capital paid in (`元入金`) is counted as revenue, and one posting can
      feed a revenue and an expense sum at once: a purchase `仕入` paid by
      a sale `売上` adds its amount to both. */
  lemma RevenueAndExpenseFromOnePosting(t: Transaction)
    ensures t.creditAccount == "元入金" ==> Contribution(t, "元入金") == t.amount
    ensures t.debitAccount == "仕入" && t.creditAccount == "売上" ==>
      Contribution(t, "売上") == t.amount && Contribution(t, "仕入") == t.amount
  {
    assert "元入金" in RevenueAccounts && "売上" in RevenueAccounts && "仕入" in ExpenseAccounts;
  }
}
