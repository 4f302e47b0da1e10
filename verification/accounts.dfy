/** The fixed chart of accounts the balance sheet classifies postings by. */
module Accounts {

  /** The five account categories of the balance sheet. */
  datatype Category = Asset | Liability | Equity | Revenue | Expense

  /** A registered account: its category and its normal side. `isDebit`
      holds when a debit increases the balance. */
  datatype Account = Account(name: string, category: Category, isDebit: bool)

  /** Assets and expenses grow with debits; liabilities, equity and revenue
      grow with credits. */
  predicate DebitNormal(c: Category)
  {
    c == Asset || c == Expense
  }

  /** +1 for a debit-normal account, -1 for a credit-normal one: the sign a
      debit posting carries into the account's balance. */
  function NormalSign(a: Account): (s: int)
    ensures s == 1 || s == -1
    ensures s == 1 <==> a.isDebit
  {
    if a.isDebit then 1 else -1
  }

  /** A classification table is well formed when every entry is filed under
      its own name and its normal side follows from its category. */
  predicate WellFormed(master: map<string, Account>)
  {
    forall k :: k in master ==>
      master[k].name == k && (master[k].isDebit <==> DebitNormal(master[k].category))
  }

  /** The registered accounts, in the order the source lists them. */
  const Chart: seq<Account> := [
    Account("現金", Asset, true),
    Account("普通預金", Asset, true),
    Account("売掛金", Asset, true),
    Account("商品", Asset, true),
    Account("固定資産", Asset, true),
    Account("買掛金", Liability, false),
    Account("借入金", Liability, false),
    Account("未払金", Liability, false),
    Account("未払費用", Liability, false),
    Account("資本金", Equity, false),
    Account("元入金", Equity, false),
    Account("利益剰余金", Equity, false),
    Account("売上", Revenue, false),
    Account("仕入", Expense, true),
    Account("給料", Expense, true),
    Account("家賃", Expense, true),
    Account("水道光熱費", Expense, true),
    Account("通信費", Expense, true),
    Account("旅費交通費", Expense, true),
    Account("消耗品費", Expense, true),
    Account("雑費", Expense, true)
  ]

  /** The classification table built from a list of accounts, each filed
      under its name; a later entry with the same name replaces an earlier
      one, as a repeated key in an object literal does. */
  function TableOf(chart: seq<Account>): (m: map<string, Account>)
    ensures forall i :: 0 <= i < |chart| ==> chart[i].name in m
    ensures forall k :: k in m ==> m[k].name == k && m[k] in chart
  {
    if |chart| == 0 then map[]
    else TableOf(chart[..|chart| - 1])[chart[|chart| - 1].name := chart[|chart| - 1]]
  }

  /** The table of registered accounts. Names outside it are unknown to the
      balance sheet. */
  const AccountMaster: map<string, Account> := TableOf(Chart)

  /** The account names the transaction entry form offers. */
  const EntryFormAccounts: seq<string> := [
    "現金", "普通預金", "売上", "売掛金", "買掛金", "仕入",
    "旅費交通費", "通信費", "消耗品費", "水道光熱費", "家賃", "雑費"
  ]

  /** In the registered table `isDebit` holds exactly for asset and expense
      accounts, and each entry carries its own key as its name. */
  lemma AccountMasterWellFormed()
    ensures WellFormed(AccountMaster)
  {
    assert forall i :: 0 <= i < |Chart| ==> (Chart[i].isDebit <==> DebitNormal(Chart[i].category));
  }

  /** Every account the entry form offers is registered, so postings made
      through the form are never dropped by the balance sheet. */
  lemma EntryFormAccountsRegistered()
    ensures forall i :: 0 <= i < |EntryFormAccounts| ==> EntryFormAccounts[i] in AccountMaster
  {
    // the chart position of each offered account, in form order
    var at := [0, 1, 12, 2, 5, 13, 18, 17, 19, 16, 15, 20];
    forall i | 0 <= i < |EntryFormAccounts|
      ensures EntryFormAccounts[i] in AccountMaster
    {
      assert EntryFormAccounts[i] == Chart[at[i]].name;
    }
  }
}
