/** The balance sheet: per-account balances folded from the postings dated
    on or before an as-of day, split into asset, liability and equity
    sections, with revenue minus expense rolled into a net-income line. */
module BalanceSheet {
  import opened Seqs
  import opened Ledger
  import opened Accounts

  // ---------------------------------------------------------------------
  // Balance aggregation
  // ---------------------------------------------------------------------

  /** The running balances of the aggregation loop: the account names in the
      order they were first touched (the key order of the accumulator
      object) and the signed balance of each. */
  datatype Balances = Balances(order: seq<string>, value: map<string, int>)

  predicate Distinct<T(==)>(s: seq<T>)
  {
    forall i, j :: 0 <= i < j < |s| ==> s[i] != s[j]
  }

  /** The order lists each tracked account exactly once. */
  predicate Valid(b: Balances)
  {
    && Distinct(b.order)
    && (forall k :: k in b.value ==> k in b.order)
    && (forall i :: 0 <= i < |b.order| ==> b.order[i] in b.value)
  }

  /** Some posting of `txs` names `a` on either side. */
  predicate Mentioned(txs: seq<Transaction>, a: string)
  {
    exists i :: 0 <= i < |txs| && (txs[i].debitAccount == a || txs[i].creditAccount == a)
  }

  /** Every posting of `txs` names registered accounts on both sides. */
  predicate AllKnown(master: map<string, Account>, txs: seq<Transaction>)
  {
    forall i :: 0 <= i < |txs| ==> txs[i].debitAccount in master && txs[i].creditAccount in master
  }

  /** What posting `t` does to the balance of account `a`: a debit raises a
      debit-normal account and lowers a credit-normal one, a credit does the
      opposite, and an unknown account is not moved. */
  function Effect(master: map<string, Account>, t: Transaction, a: string): int
  {
    (if a == t.debitAccount && a in master then NormalSign(master[a]) * t.amount else 0)
    + (if a == t.creditAccount && a in master then -(NormalSign(master[a]) * t.amount) else 0)
  }

  /** Reference definition of an account's balance: the sum of the effects
      of all postings on it. */
  function BalanceOf(master: map<string, Account>, txs: seq<Transaction>, a: string): int
  {
    SumOf(txs, (t: Transaction) => Effect(master, t, a))
  }

  /** The amount by which posting `t` is one-sided: its amount counts on the
      debit side when the debit account is registered and on the credit
      side when the credit account is. Zero for a posting between two
      registered accounts. */
  function Imbalance(master: map<string, Account>, t: Transaction): int
  {
    (if t.debitAccount in master then t.amount else 0)
    - (if t.creditAccount in master then t.amount else 0)
  }

  /** The total one-sidedness of `txs`. */
  function TotalImbalance(master: map<string, Account>, txs: seq<Transaction>): int
  {
    SumOf(txs, (u: Transaction) => Imbalance(master, u))
  }

  /** A tracked account's balance weighted by its normal side; unknown and
      untracked names weigh nothing. */
  function WeightOf(master: map<string, Account>, value: map<string, int>, k: string): int
  {
    if k in master && k in value then NormalSign(master[k]) * value[k] else 0
  }

  /** The debit-side balances minus the credit-side balances. */
  function WeightedSum(master: map<string, Account>, b: Balances): int
  {
    SumOf(b.order, (k: string) => WeightOf(master, b.value, k))
  }

  /** Starts tracking `name` at zero unless it is tracked already. */
  function Touch(b: Balances, name: string): Balances
  {
    if name in b.value then b else Balances(b.order + [name], b.value[name := 0])
  }

  /** Tracks `name` and adds `delta` to its balance. */
  function Adjust(b: Balances, name: string, delta: int): Balances
  {
    var b1 := Touch(b, name);
    Balances(b1.order, b1.value[name := b1.value[name] + delta])
  }

  /** One iteration of the aggregation loop. Both account names are tracked;
      each side moves only a registered account: the debit side by
      +amount on a debit-normal account and -amount otherwise, the credit
      side the other way round. */
  function Post(master: map<string, Account>, b: Balances, t: Transaction): Balances
  {
    var debitDelta := if t.debitAccount in master then NormalSign(master[t.debitAccount]) * t.amount else 0;
    var creditDelta := if t.creditAccount in master then -(NormalSign(master[t.creditAccount]) * t.amount) else 0;
    Adjust(Adjust(b, t.debitAccount, debitDelta), t.creditAccount, creditDelta)
  }

  lemma AdjustValid(b: Balances, name: string, delta: int)
    requires Valid(b)
    ensures Valid(Adjust(b, name, delta))
  {
    if name !in b.value {
      assert name !in b.order;
    }
  }

  /** Starting to track an account at zero leaves the weighted sum as it
      is. */
  lemma TouchWeight(master: map<string, Account>, b: Balances, name: string)
    requires Valid(b)
    ensures Valid(Touch(b, name))
    ensures WeightedSum(master, Touch(b, name)) == WeightedSum(master, b)
  {
    if name !in b.value {
      var b1 := Touch(b, name);
      assert name !in b.order;
      SumOfAppend(b.order, [name], (k: string) => WeightOf(master, b1.value, k));
      SumOfCongruent(b.order, (k: string) => WeightOf(master, b1.value, k), (k: string) => WeightOf(master, b.value, k));
    }
  }

  /** Adjusting one account moves the weighted sum by that account's
      weighted change. */
  lemma AdjustWeight(master: map<string, Account>, b: Balances, name: string, delta: int)
    requires Valid(b)
    ensures WeightedSum(master, Adjust(b, name, delta))
         == WeightedSum(master, b) + (if name in master then NormalSign(master[name]) * delta else 0)
  {
    var b1 := Touch(b, name);
    TouchWeight(master, b, name);
    WeightedUpdate(master, b1.order, b1.value, name, b1.value[name] + delta);
  }

  /** Changing the balance of one tracked account changes the weighted sum
      by that account's weighted change. */
  lemma {:induction false} WeightedUpdate(master: map<string, Account>, order: seq<string>, value: map<string, int>, name: string, v: int)
    requires Distinct(order) && name in value
    ensures SumOf(order, (k: string) => WeightOf(master, value[name := v], k))
         == SumOf(order, (k: string) => WeightOf(master, value, k))
            + (if name in order then WeightOf(master, value[name := v], name) - WeightOf(master, value, name) else 0)
  {
    if |order| > 0 {
      assert Distinct(order[1..]) by {
        forall i, j | 0 <= i < j < |order[1..]| ensures order[1..][i] != order[1..][j] {
          assert order[1..][i] == order[i + 1] && order[1..][j] == order[j + 1];
        }
      }
      WeightedUpdate(master, order[1..], value, name, v);
      if order[0] == name {
        assert name !in order[1..] by {
          forall i | 0 <= i < |order[1..]| ensures order[1..][i] != name {
            assert order[1..][i] == order[i + 1];
          }
        }
      } else {
        assert name in order <==> name in order[1..];
      }
    }
  }

  /** Negating twice by the same normal side is the identity. */
  lemma SignSquare(a: Account, x: int)
    ensures NormalSign(a) * (NormalSign(a) * x) == x
  {
    if a.isDebit { } else { }
  }

  lemma PostValid(master: map<string, Account>, b: Balances, t: Transaction)
    requires Valid(b)
    ensures Valid(Post(master, b, t))
  {
    var dd := if t.debitAccount in master then NormalSign(master[t.debitAccount]) * t.amount else 0;
    AdjustValid(b, t.debitAccount, dd);
    AdjustValid(Adjust(b, t.debitAccount, dd), t.creditAccount,
      if t.creditAccount in master then -(NormalSign(master[t.creditAccount]) * t.amount) else 0);
  }

  /** Posting `t` tracks both of its account names and moves each tracked
      account by the posting's effect on it. */
  lemma PostAt(master: map<string, Account>, b: Balances, t: Transaction, k: string)
    ensures var b' := Post(master, b, t);
      && (k in b'.value <==> k in b.value || k == t.debitAccount || k == t.creditAccount)
      && (k in b'.value ==> b'.value[k] == (if k in b.value then b.value[k] else 0) + Effect(master, t, k))
  {
  }

  /** Posting `t` moves the weighted sum by the posting's imbalance. */
  lemma PostWeight(master: map<string, Account>, b: Balances, t: Transaction)
    requires Valid(b)
    ensures WeightedSum(master, Post(master, b, t)) == WeightedSum(master, b) + Imbalance(master, t)
  {
    var d, c := t.debitAccount, t.creditAccount;
    var dd := if d in master then NormalSign(master[d]) * t.amount else 0;
    var cd := if c in master then -(NormalSign(master[c]) * t.amount) else 0;
    var b1 := Adjust(b, d, dd);
    AdjustWeight(master, b, d, dd);
    AdjustValid(b, d, dd);
    AdjustWeight(master, b1, c, cd);
    var wd := if d in master then NormalSign(master[d]) * dd else 0;
    var wc := if c in master then NormalSign(master[c]) * cd else 0;
    assert wd == (if d in master then t.amount else 0) by {
      if d in master {
        SignSquare(master[d], t.amount);
      }
    }
    assert wc == -(if c in master then t.amount else 0) by {
      if c in master {
        SignSquare(master[c], -t.amount);
      }
    }
  }

  /** A posting's effect on an account it does not name is zero. */
  lemma UnnamedUnmoved(master: map<string, Account>, t: Transaction, a: string)
    requires a != t.debitAccount && a != t.creditAccount
    ensures Effect(master, t, a) == 0
  {
  }

  /** Appending a posting adds its effect to every reference balance. */
  lemma BalanceOfSnoc(master: map<string, Account>, txs: seq<Transaction>, t: Transaction, a: string)
    ensures BalanceOf(master, txs + [t], a) == BalanceOf(master, txs, a) + Effect(master, t, a)
  {
    SumOfAppend(txs, [t], (u: Transaction) => Effect(master, u, a));
  }

  /** Appending a posting adds its imbalance to the total imbalance. */
  lemma ImbalanceSnoc(master: map<string, Account>, txs: seq<Transaction>, t: Transaction)
    ensures TotalImbalance(master, txs + [t]) == TotalImbalance(master, txs) + Imbalance(master, t)
  {
    SumOfAppend(txs, [t], (u: Transaction) => Imbalance(master, u));
  }

  /** An account no posting names has a zero reference balance. */
  lemma {:induction false} UnmentionedIsZero(master: map<string, Account>, txs: seq<Transaction>, a: string)
    requires !Mentioned(txs, a)
    ensures BalanceOf(master, txs, a) == 0
  {
    if |txs| > 0 {
      assert !Mentioned(txs[1..], a) by {
        forall i | 0 <= i < |txs[1..]|
          ensures txs[1..][i].debitAccount != a && txs[1..][i].creditAccount != a
        {
          assert txs[1..][i] == txs[i + 1];
        }
      }
      UnmentionedIsZero(master, txs[1..], a);
      UnnamedUnmoved(master, txs[0], a);
    }
  }

  /** The aggregation loop over `txs`, in order. It tracks exactly the names
      some posting mentions, holds each at its reference balance, and its
      weighted sum is the total imbalance of the postings. */
  function Accumulate(master: map<string, Account>, txs: seq<Transaction>): (b: Balances)
    ensures Valid(b)
    ensures forall a :: a in b.value <==> Mentioned(txs, a)
    ensures forall a :: a in b.value ==> b.value[a] == BalanceOf(master, txs, a)
    ensures WeightedSum(master, b) == TotalImbalance(master, txs)
  {
    if |txs| == 0 then Balances([], map[])
    else
      var init := txs[..|txs| - 1];
      var t := txs[|txs| - 1];
      var prev := Accumulate(master, init);
      AccumulateStep(master, txs, prev);
      Post(master, prev, t)
  }

  /** The names mentioned by a sequence are those of its prefix plus those
      of its last posting. */
  lemma MentionedSnoc(txs: seq<Transaction>, a: string)
    requires |txs| > 0
    ensures Mentioned(txs, a) <==>
      Mentioned(txs[..|txs| - 1], a) || txs[|txs| - 1].debitAccount == a || txs[|txs| - 1].creditAccount == a
  {
    var init := txs[..|txs| - 1];
    if Mentioned(init, a) {
      var i :| 0 <= i < |init| && (init[i].debitAccount == a || init[i].creditAccount == a);
      assert txs[i] == init[i];
    }
    if Mentioned(txs, a) {
      var i :| 0 <= i < |txs| && (txs[i].debitAccount == a || txs[i].creditAccount == a);
      if i < |init| {
        assert txs[i] == init[i];
      }
    }
  }

  lemma AccumulateStep(master: map<string, Account>, txs: seq<Transaction>, prev: Balances)
    requires |txs| > 0
    requires Valid(prev)
    requires forall a :: a in prev.value <==> Mentioned(txs[..|txs| - 1], a)
    requires forall a :: a in prev.value ==> prev.value[a] == BalanceOf(master, txs[..|txs| - 1], a)
    requires WeightedSum(master, prev) == TotalImbalance(master, txs[..|txs| - 1])
    ensures var b := Post(master, prev, txs[|txs| - 1]);
      && Valid(b)
      && (forall a :: a in b.value <==> Mentioned(txs, a))
      && (forall a :: a in b.value ==> b.value[a] == BalanceOf(master, txs, a))
      && WeightedSum(master, b) == TotalImbalance(master, txs)
  {
    var init, t := txs[..|txs| - 1], txs[|txs| - 1];
    assert init + [t] == txs;
    PostValid(master, prev, t);
    PostWeight(master, prev, t);
    ImbalanceSnoc(master, init, t);
    StepKeys(master, txs, prev);
    StepValues(master, txs, prev);
  }

  lemma StepKeys(master: map<string, Account>, txs: seq<Transaction>, prev: Balances)
    requires |txs| > 0
    requires forall a :: a in prev.value <==> Mentioned(txs[..|txs| - 1], a)
    ensures forall a :: a in Post(master, prev, txs[|txs| - 1]).value <==> Mentioned(txs, a)
  {
    var t := txs[|txs| - 1];
    forall a ensures a in Post(master, prev, t).value <==> Mentioned(txs, a) {
      MentionedSnoc(txs, a);
      PostAt(master, prev, t, a);
    }
  }

  lemma StepValues(master: map<string, Account>, txs: seq<Transaction>, prev: Balances)
    requires |txs| > 0
    requires forall a :: a in prev.value <==> Mentioned(txs[..|txs| - 1], a)
    requires forall a :: a in prev.value ==> prev.value[a] == BalanceOf(master, txs[..|txs| - 1], a)
    ensures forall a :: a in Post(master, prev, txs[|txs| - 1]).value ==>
      Post(master, prev, txs[|txs| - 1]).value[a] == BalanceOf(master, txs, a)
  {
    var init, t := txs[..|txs| - 1], txs[|txs| - 1];
    assert init + [t] == txs;
    var b := Post(master, prev, t);
    forall a | a in b.value ensures b.value[a] == BalanceOf(master, txs, a) {
      PostAt(master, prev, t, a);
      BalanceOfSnoc(master, init, t, a);
      if a !in prev.value {
        UnmentionedIsZero(master, init, a);
      }
    }
  }

  // ---------------------------------------------------------------------
  // Account balance lines
  // ---------------------------------------------------------------------

  /** A balance line of the report. */
  datatype AccountBalance = AccountBalance(account: string, category: Category, balance: int)

  /** The tracked accounts, in key order, that are registered and have a
      non-zero balance, each with its category. Unknown names are dropped
      here without any error. */
  function LinesOf(master: map<string, Account>, value: map<string, int>, order: seq<string>): seq<AccountBalance>
  {
    if |order| == 0 then []
    else
      var k := order[0];
      if k in value && value[k] != 0 && k in master then [AccountBalance(k, master[k].category, value[k])] + LinesOf(master, value, order[1..])
      else LinesOf(master, value, order[1..])
  }

  /** Line `l` is a tracked, registered account of `order` with its
      non-zero balance and its category. */
  predicate LineOf(master: map<string, Account>, value: map<string, int>, order: seq<string>, l: AccountBalance)
  {
    && l.account in order && l.account in master && l.account in value
    && l.balance == value[l.account] && l.balance != 0
    && l.category == master[l.account].category
  }

  /** Each line is a tracked, registered account of the order with its
      non-zero balance and its category. */
  lemma {:induction false} LinesSound(master: map<string, Account>, value: map<string, int>, order: seq<string>)
    ensures forall l :: l in LinesOf(master, value, order) ==> LineOf(master, value, order, l)
  {
    if |order| > 0 {
      var k := order[0];
      var tail := order[1..];
      LinesSound(master, value, tail);
      forall l | l in LinesOf(master, value, order) ensures LineOf(master, value, order, l) {
        if l !in LinesOf(master, value, tail) {
          assert l.account == k;
        } else {
          assert LineOf(master, value, tail, l);
          InTail(order, l.account);
        }
      }
    }
  }

  /** Distinct tracked names give distinct lines. */
  lemma {:induction false} LinesDistinct(master: map<string, Account>, value: map<string, int>, order: seq<string>)
    requires Distinct(order)
    ensures forall i, j :: 0 <= i < j < |LinesOf(master, value, order)| ==>
      LinesOf(master, value, order)[i].account != LinesOf(master, value, order)[j].account
  {
    if |order| > 0 {
      var k := order[0];
      assert Distinct(order[1..]) by {
        forall i, j | 0 <= i < j < |order[1..]| ensures order[1..][i] != order[1..][j] {
          assert order[1..][i] == order[i + 1] && order[1..][j] == order[j + 1];
        }
      }
      LinesDistinct(master, value, order[1..]);
      LinesSound(master, value, order[1..]);
      var rest := LinesOf(master, value, order[1..]);
      assert k !in order[1..] by {
        forall i | 0 <= i < |order[1..]| ensures order[1..][i] != k {
          assert order[1..][i] == order[i + 1];
        }
      }
      if k in value && value[k] != 0 && k in master {
        var r := LinesOf(master, value, order);
        assert r == [AccountBalance(k, master[k].category, value[k])] + rest;
        forall i, j | 0 <= i < j < |r| ensures r[i].account != r[j].account {
          assert r[j] == rest[j - 1];
          assert rest[j - 1] in rest;
          if i > 0 {
            assert r[i] == rest[i - 1];
            assert rest[i - 1].account != rest[j - 1].account;
          }
        }
      }
    }
  }

  /** Every tracked, registered account with a non-zero balance has a
      line. */
  lemma {:induction false} LinesComplete(master: map<string, Account>, value: map<string, int>, order: seq<string>, k: string)
    requires k in order && k in master && k in value && value[k] != 0
    ensures exists j :: 0 <= j < |LinesOf(master, value, order)| && LinesOf(master, value, order)[j].account == k
  {
    var r := LinesOf(master, value, order);
    if order[0] == k {
      assert r[0].account == k;
    } else {
      assert k in order[1..];
      LinesComplete(master, value, order[1..], k);
      var rest := LinesOf(master, value, order[1..]);
      var j :| 0 <= j < |rest| && rest[j].account == k;
      if order[0] in value && value[order[0]] != 0 && order[0] in master {
        assert r[j + 1] == rest[j];
      }
    }
  }

  /** The signed contribution of a line to "assets minus liabilities and
      equity": debit-normal categories count positively. */
  function CatWeight(l: AccountBalance): int
  {
    if DebitNormal(l.category) then l.balance else -l.balance
  }

  /** Dropping zero balances and unknown names leaves the weighted sum as
      it is. */
  lemma {:induction false} LinesWeight(master: map<string, Account>, value: map<string, int>, order: seq<string>)
    requires WellFormed(master)
    ensures SumOf(LinesOf(master, value, order), CatWeight) == SumOf(order, (k: string) => WeightOf(master, value, k))
  {
    if |order| > 0 {
      LinesWeight(master, value, order[1..]);
      var k := order[0];
      if k in value && value[k] != 0 && k in master {
        var l := AccountBalance(k, master[k].category, value[k]);
        assert ([l] + LinesOf(master, value, order[1..]))[1..] == LinesOf(master, value, order[1..]);
        assert CatWeight(l) == WeightOf(master, value, k);
      }
    }
  }

  /** The result of the aggregation: the lines of the registered accounts
      with a non-zero balance over `txs`, in the order they were first
      touched. */
  function CalculateAccountBalances(master: map<string, Account>, txs: seq<Transaction>): seq<AccountBalance>
  {
    var b := Accumulate(master, txs);
    LinesOf(master, b.value, b.order)
  }

  /** Line `l` reports registered account `l.account` of its own category
      with its non-zero balance over `txs`. */
  predicate Reports(master: map<string, Account>, txs: seq<Transaction>, l: AccountBalance)
  {
    && l.account in master
    && l.category == master[l.account].category
    && l.balance == BalanceOf(master, txs, l.account)
    && l.balance != 0
  }

  /** Every line reports a registered account with its category and its
      non-zero balance. */
  lemma AccountBalancesSound(master: map<string, Account>, txs: seq<Transaction>)
    ensures forall l :: l in CalculateAccountBalances(master, txs) ==> Reports(master, txs, l)
  {
    var b := Accumulate(master, txs);
    LinesSound(master, b.value, b.order);
  }

  /** Every registered account with a non-zero balance has a line. */
  lemma AccountBalancesComplete(master: map<string, Account>, txs: seq<Transaction>, a: string)
    requires a in master && BalanceOf(master, txs, a) != 0
    ensures exists j :: 0 <= j < |CalculateAccountBalances(master, txs)| && CalculateAccountBalances(master, txs)[j].account == a
  {
    var b := Accumulate(master, txs);
    if !Mentioned(txs, a) {
      UnmentionedIsZero(master, txs, a);
    }
    assert a in b.value && b.value[a] == BalanceOf(master, txs, a);
    assert a in b.order;
    LinesComplete(master, b.value, b.order, a);
    var r := LinesOf(master, b.value, b.order);
    assert r == CalculateAccountBalances(master, txs);
    var j :| 0 <= j < |r| && r[j].account == a;
  }

  /** No account has two lines. */
  lemma AccountBalancesDistinct(master: map<string, Account>, txs: seq<Transaction>)
    ensures var r := CalculateAccountBalances(master, txs);
      forall i, j :: 0 <= i < j < |r| ==> r[i].account != r[j].account
  {
    var b := Accumulate(master, txs);
    LinesDistinct(master, b.value, b.order);
  }

  // ---------------------------------------------------------------------
  // Sections
  // ---------------------------------------------------------------------

  /** A section of the sheet: its lines and their running total. */
  datatype Section = Section(title: string, accounts: seq<AccountBalance>, total: int)

  datatype Sheet = Sheet(assets: Section, liabilities: Section, equity: Section)

  /** The state of the section-splitting loop. */
  datatype Tally = Tally(
    assets: seq<AccountBalance>, liabilities: seq<AccountBalance>, equity: seq<AccountBalance>,
    totalAssets: int, totalLiabilities: int, totalEquity: int, netIncome: int)

  /** The name of the synthetic equity line carrying the period's profit. */
  const NetIncomeAccount: string := "当期純利益"

  function BalanceField(l: AccountBalance): int
  {
    l.balance
  }

  function IsIn(c: Category): AccountBalance -> bool
  {
    (l: AccountBalance) => l.category == c
  }

  /** The sum of the balances of the lines of category `c`. */
  function CategorySum(lines: seq<AccountBalance>, c: Category): int
  {
    SumOf(Filter(lines, IsIn(c)), BalanceField)
  }

  /** One iteration of the section loop: a line goes to the section of its
      category, or into the net-income accumulator for revenue (added) and
      expense (subtracted). */
  function Classify(t: Tally, l: AccountBalance): Tally
  {
    match l.category
    case Asset => t.(assets := t.assets + [l], totalAssets := t.totalAssets + l.balance)
    case Liability => t.(liabilities := t.liabilities + [l], totalLiabilities := t.totalLiabilities + l.balance)
    case Equity => t.(equity := t.equity + [l], totalEquity := t.totalEquity + l.balance)
    case Revenue => t.(netIncome := t.netIncome + l.balance)
    case Expense => t.(netIncome := t.netIncome - l.balance)
  }

  /** The section loop over `lines`, in order, from empty sections and a
      zero accumulator. */
  function TallyOf(lines: seq<AccountBalance>): Tally
  {
    if |lines| == 0 then Tally([], [], [], 0, 0, 0, 0)
    else Classify(TallyOf(lines[..|lines| - 1]), lines[|lines| - 1])
  }

  /** Each section of the loop holds exactly the lines of its category, in
      their original order. */
  lemma {:induction false} TallySections(lines: seq<AccountBalance>)
    ensures TallyOf(lines).assets == Filter(lines, IsIn(Asset))
    ensures TallyOf(lines).liabilities == Filter(lines, IsIn(Liability))
    ensures TallyOf(lines).equity == Filter(lines, IsIn(Equity))
  {
    if |lines| > 0 {
      var init, l := lines[..|lines| - 1], lines[|lines| - 1];
      assert init + [l] == lines;
      TallySections(init);
      TallyStep(init, l, Asset);
      TallyStep(init, l, Liability);
      TallyStep(init, l, Equity);
    }
  }

  /** Each running total of the loop is the sum of its category's
      balances, and the accumulator is revenue minus expense. */
  lemma TallyTotals(lines: seq<AccountBalance>)
    ensures TallyOf(lines).totalAssets == CategorySum(lines, Asset)
    ensures TallyOf(lines).totalLiabilities == CategorySum(lines, Liability)
    ensures TallyOf(lines).totalEquity == CategorySum(lines, Equity)
    ensures TallyOf(lines).netIncome == CategorySum(lines, Revenue) - CategorySum(lines, Expense)
  {
    SectionTotals(lines);
    NetIncomeTotal(lines);
  }

  /** The three section totals of the loop. */
  lemma {:induction false} SectionTotals(lines: seq<AccountBalance>)
    ensures TallyOf(lines).totalAssets == CategorySum(lines, Asset)
    ensures TallyOf(lines).totalLiabilities == CategorySum(lines, Liability)
    ensures TallyOf(lines).totalEquity == CategorySum(lines, Equity)
  {
    if |lines| > 0 {
      var init := lines[..|lines| - 1];
      SectionTotals(init);
      ClassifyTotals(TallyOf(init), lines[|lines| - 1]);
      SumStep(lines, Asset);
      SumStep(lines, Liability);
      SumStep(lines, Equity);
    }
  }

  /** The accumulator of the loop. */
  lemma {:induction false} NetIncomeTotal(lines: seq<AccountBalance>)
    ensures TallyOf(lines).netIncome == CategorySum(lines, Revenue) - CategorySum(lines, Expense)
  {
    if |lines| > 0 {
      var init := lines[..|lines| - 1];
      NetIncomeTotal(init);
      ClassifyTotals(TallyOf(init), lines[|lines| - 1]);
      SumStep(lines, Revenue);
      SumStep(lines, Expense);
    }
  }

  /** One iteration adds the line's balance to the total of its own
      category only, subtracting an expense from the accumulator. */
  lemma ClassifyTotals(t: Tally, l: AccountBalance)
    ensures Classify(t, l).totalAssets == t.totalAssets + (if l.category == Asset then l.balance else 0)
    ensures Classify(t, l).totalLiabilities == t.totalLiabilities + (if l.category == Liability then l.balance else 0)
    ensures Classify(t, l).totalEquity == t.totalEquity + (if l.category == Equity then l.balance else 0)
    ensures Classify(t, l).netIncome == t.netIncome
      + (if l.category == Revenue then l.balance else 0) - (if l.category == Expense then l.balance else 0)
  {
  }

  /** The last line adds to the sum of its own category only. */
  lemma SumStep(lines: seq<AccountBalance>, c: Category)
    requires |lines| > 0
    ensures var l := lines[|lines| - 1];
      CategorySum(lines, c) == CategorySum(lines[..|lines| - 1], c) + (if l.category == c then l.balance else 0)
  {
    var init, l := lines[..|lines| - 1], lines[|lines| - 1];
    assert init + [l] == lines;
    TallyStep(init, l, c);
  }

  /** Assets minus liabilities, equity and the accumulator is the weighted
      sum of all lines: every line lands in exactly one place, with the
      sign of its normal side. */
  lemma {:induction false} TallyWeight(lines: seq<AccountBalance>)
    ensures var t := TallyOf(lines);
      t.totalAssets - t.totalLiabilities - t.totalEquity - t.netIncome == SumOf(lines, CatWeight)
  {
    if |lines| > 0 {
      var init, l := lines[..|lines| - 1], lines[|lines| - 1];
      assert init + [l] == lines;
      TallyWeight(init);
      SumOfAppend(init, [l], CatWeight);
    }
  }

  /** Appending a line extends the filter and the sum of its category only. */
  lemma TallyStep(init: seq<AccountBalance>, l: AccountBalance, c: Category)
    ensures Filter(init + [l], IsIn(c)) == Filter(init, IsIn(c)) + (if l.category == c then [l] else [])
    ensures CategorySum(init + [l], c) == CategorySum(init, c) + (if l.category == c then l.balance else 0)
  {
    FilterAppend(init, [l], IsIn(c));
    SumOfAppend(Filter(init, IsIn(c)), Filter([l], IsIn(c)), BalanceField);
  }

  /** The sheet assembled from balance lines: the net-income line joins
      equity, and its total, exactly when the accumulator is non-zero. */
  function Build(lines: seq<AccountBalance>): Sheet
  {
    var t := TallyOf(lines);
    var equityLines := if t.netIncome != 0 then t.equity + [AccountBalance(NetIncomeAccount, Equity, t.netIncome)] else t.equity;
    var equityTotal := if t.netIncome != 0 then t.totalEquity + t.netIncome else t.totalEquity;
    Sheet(
      Section("資産の部", t.assets, t.totalAssets),
      Section("負債の部", t.liabilities, t.totalLiabilities),
      Section("純資産の部", equityLines, equityTotal))
  }

  /** The asset and liability sections hold the lines of their category;
      equity holds its lines followed by the net-income line, revenue minus
      expense, when that is non-zero. */
  lemma BuildSections(lines: seq<AccountBalance>)
    ensures Build(lines).assets.accounts == Filter(lines, IsIn(Asset))
    ensures Build(lines).liabilities.accounts == Filter(lines, IsIn(Liability))
    ensures var ni := CategorySum(lines, Revenue) - CategorySum(lines, Expense);
      Build(lines).equity.accounts == Filter(lines, IsIn(Equity))
        + (if ni != 0 then [AccountBalance(NetIncomeAccount, Equity, ni)] else [])
  {
    TallySections(lines);
    TallyTotals(lines);
  }

  /** Every section total is the sum of the balances the section lists. */
  lemma BuildTotals(lines: seq<AccountBalance>)
    ensures Build(lines).assets.total == SumOf(Build(lines).assets.accounts, BalanceField)
    ensures Build(lines).liabilities.total == SumOf(Build(lines).liabilities.accounts, BalanceField)
    ensures Build(lines).equity.total == SumOf(Build(lines).equity.accounts, BalanceField)
  {
    var t := TallyOf(lines);
    TallySections(lines);
    TallyTotals(lines);
    SumOfAppend(t.equity, [AccountBalance(NetIncomeAccount, Equity, t.netIncome)], BalanceField);
  }

  /** Assets minus liabilities and equity, as the sheet totals them, is the
      weighted sum of all lines. */
  lemma BuildWeight(lines: seq<AccountBalance>)
    ensures var s := Build(lines);
      s.assets.total - s.liabilities.total - s.equity.total == SumOf(lines, CatWeight)
  {
    TallyWeight(lines);
  }

  // ---------------------------------------------------------------------
  // The report
  // ---------------------------------------------------------------------

  /** The postings the sheet as of `asOf` aggregates: those dated on or
      before the as-of day, inclusive, in stored order. */
  function UpTo(txs: seq<Transaction>, asOf: Day): (r: seq<Transaction>)
    ensures forall i :: 0 <= i < |r| ==> r[i] in txs && r[i].date <= asOf
    ensures forall i :: 0 <= i < |txs| && txs[i].date <= asOf ==> txs[i] in r
    ensures forall t :: multiset(r)[t] == if t.date <= asOf then multiset(txs)[t] else 0
  {
    FilterMultiset(txs, (t: Transaction) => t.date <= asOf);
    Filter(txs, (t: Transaction) => t.date <= asOf)
  }

  /** The balance sheet as of day `asOf` under classification table
      `master`. */
  function BalanceSheetAsOf(master: map<string, Account>, txs: seq<Transaction>, asOf: Day): Sheet
  {
    Build(CalculateAccountBalances(master, UpTo(txs, asOf)))
  }

  /** The balance sheet the application shows, under the registered table. */
  function BalanceSheetReport(txs: seq<Transaction>, asOf: Day): Sheet
  {
    BalanceSheetAsOf(AccountMaster, txs, asOf)
  }

  /** Assets minus liabilities and equity is exactly the one-sidedness of
      the aggregated postings: the total amount of debits to registered
      accounts minus credits to registered accounts. */
  lemma {:induction false} SheetDiscrepancy(master: map<string, Account>, txs: seq<Transaction>, asOf: Day)
    requires WellFormed(master)
    ensures var s := BalanceSheetAsOf(master, txs, asOf);
      s.assets.total - (s.liabilities.total + s.equity.total)
        == TotalImbalance(master, UpTo(txs, asOf))
  {
    var kept := UpTo(txs, asOf);
    var b := Accumulate(master, kept);
    LinesWeight(master, b.value, b.order);
    BuildWeight(CalculateAccountBalances(master, kept));
  }

  /** The accounting identity: when both sides of every posting are
      registered accounts, total assets equal total liabilities plus total
      equity, the two figures the sheet shows side by side. */
  lemma {:induction false} BalanceSheetBalances(txs: seq<Transaction>, asOf: Day)
    requires AllKnown(AccountMaster, UpTo(txs, asOf))
    ensures var s := BalanceSheetReport(txs, asOf);
      s.assets.total == s.liabilities.total + s.equity.total
  {
    AccountMasterWellFormed();
    SheetDiscrepancy(AccountMaster, txs, asOf);
    var kept := UpTo(txs, asOf);
    BalancedPostings(AccountMaster, kept);
  }

  /** Postings between registered accounts are not one-sided. */
  lemma {:induction false} BalancedPostings(master: map<string, Account>, txs: seq<Transaction>)
    requires AllKnown(master, txs)
    ensures TotalImbalance(master, txs) == 0
  {
    if |txs| > 0 {
      assert AllKnown(master, txs[1..]) by {
        forall i | 0 <= i < |txs[1..]| ensures txs[1..][i].debitAccount in master && txs[1..][i].creditAccount in master {
          assert txs[1..][i] == txs[i + 1];
        }
      }
      BalancedPostings(master, txs[1..]);
    }
  }

  /** A debit posting raises a debit-normal account and lowers a
      credit-normal one; a credit posting does the opposite; a posting
      between two distinct accounts moves nothing else. */
  lemma PostingSigns(master: map<string, Account>, txs: seq<Transaction>, t: Transaction, a: string)
    requires t.debitAccount != t.creditAccount
    ensures var after := BalanceOf(master, txs + [t], a);
      var before := BalanceOf(master, txs, a);
      && (a == t.debitAccount && a in master ==>
            after == before + (if master[a].isDebit then t.amount else -t.amount))
      && (a == t.creditAccount && a in master ==>
            after == before + (if master[a].isDebit then -t.amount else t.amount))
      && (a !in master || (a != t.debitAccount && a != t.creditAccount) ==> after == before)
  {
    BalanceOfSnoc(master, txs, t, a);
  }

  /** A posting whose two sides name the same account leaves every balance
      as it was. */
  lemma SelfPostingNetsZero(master: map<string, Account>, txs: seq<Transaction>, t: Transaction, a: string)
    requires t.debitAccount == t.creditAccount
    ensures BalanceOf(master, txs + [t], a) == BalanceOf(master, txs, a)
  {
    BalanceOfSnoc(master, txs, t, a);
  }

  /** Every line names a registered account of the line's category. */
  predicate Registered(master: map<string, Account>, lines: seq<AccountBalance>)
  {
    forall i :: 0 <= i < |lines| ==> lines[i].account in master && master[lines[i].account].category == lines[i].category
  }

  /** A section holds registered accounts of category `c` only. */
  predicate SectionOf(master: map<string, Account>, lines: seq<AccountBalance>, c: Category)
  {
    forall i :: 0 <= i < |lines| ==> lines[i].account in master && master[lines[i].account].category == c
  }

  lemma FilterRegistered(master: map<string, Account>, lines: seq<AccountBalance>, c: Category)
    requires Registered(master, lines)
    ensures SectionOf(master, Filter(lines, IsIn(c)), c)
  {
    var f := Filter(lines, IsIn(c));
    forall i | 0 <= i < |f| ensures f[i].account in master && master[f[i].account].category == c {
      assert f[i] in lines && f[i].category == c;
      var j :| 0 <= j < |lines| && lines[j] == f[i];
    }
  }

  /** The equity section is equity lines followed by at most the
      net-income line. */
  predicate EquityShape(master: map<string, Account>, eq: seq<AccountBalance>)
  {
    || SectionOf(master, eq, Equity)
    || (|eq| > 0 && SectionOf(master, eq[..|eq| - 1], Equity) && eq[|eq| - 1].account == NetIncomeAccount)
  }

  /** A sheet built from registered lines has registered sections. */
  lemma BuildRegistered(master: map<string, Account>, lines: seq<AccountBalance>)
    requires Registered(master, lines)
    ensures SectionOf(master, Build(lines).assets.accounts, Asset)
    ensures SectionOf(master, Build(lines).liabilities.accounts, Liability)
    ensures EquityShape(master, Build(lines).equity.accounts)
  {
    FilterRegistered(master, lines, Asset);
    FilterRegistered(master, lines, Liability);
    FilterRegistered(master, lines, Equity);
    BuildSections(lines);
    var e := Build(lines).equity.accounts;
    var eq := Filter(lines, IsIn(Equity));
    if |e| > |eq| {
      assert e[..|e| - 1] == eq;
    }
  }

  /** No section line names an unregistered account: the asset and
      liability lines are registered accounts of their category, and the
      equity lines are registered equity accounts followed by at most the
      net-income line. */
  lemma SectionsOnlyRegistered(master: map<string, Account>, txs: seq<Transaction>, asOf: Day)
    ensures SectionOf(master, BalanceSheetAsOf(master, txs, asOf).assets.accounts, Asset)
    ensures SectionOf(master, BalanceSheetAsOf(master, txs, asOf).liabilities.accounts, Liability)
    ensures EquityShape(master, BalanceSheetAsOf(master, txs, asOf).equity.accounts)
  {
    var kept := UpTo(txs, asOf);
    var lines := CalculateAccountBalances(master, kept);
    AccountBalancesSound(master, kept);
    assert Registered(master, lines) by {
      forall i | 0 <= i < |lines| ensures lines[i].account in master && master[lines[i].account].category == lines[i].category {
        assert Reports(master, kept, lines[i]);
      }
    }
    BuildRegistered(master, lines);
  }
}
