/** The date-descending transaction listings: the full list, the five most
    recent on the home page, and the sales the invoice form offers. The
    ordering is a stable sort by date, newest first, as a comparator
    `b.date - a.date` gives under a stable sort. */
module Listings {
  import opened Seqs
  import opened Ledger

  /** Non-increasing by date: every entry is at least as recent as any
      later one. */
  predicate NewestFirst(s: seq<Transaction>)
  {
    forall i, j :: 0 <= i < j < |s| ==> s[i].date >= s[j].date
  }

  /** Places `x` before the first entry that is not newer than it. */
  function Insert(x: Transaction, r: seq<Transaction>): seq<Transaction>
  {
    if |r| == 0 || x.date >= r[0].date then [x] + r
    else [r[0]] + Insert(x, r[1..])
  }

  /** The listing order: newest first, entries of the same day in store
      order. */
  function SortByDateDesc(s: seq<Transaction>): seq<Transaction>
  {
    if |s| == 0 then [] else Insert(s[0], SortByDateDesc(s[1..]))
  }

  /** The first five entries, or all of them when there are fewer. */
  function TopFive(s: seq<Transaction>): (r: seq<Transaction>)
    ensures |r| == if |s| < 5 then |s| else 5
    ensures forall i :: 0 <= i < |r| ==> r[i] == s[i]
  {
    if |s| <= 5 then s else s[..5]
  }

  /** The home page's recent transactions. */
  function Recent(txs: seq<Transaction>): seq<Transaction>
  {
    TopFive(SortByDateDesc(txs))
  }

  /** The invoice form's candidates: the postings crediting `売上` (sales)
      or debiting `売掛金` (receivables). */
  predicate IsSale(t: Transaction)
  {
    t.creditAccount == "売上" || t.debitAccount == "売掛金"
  }

  /** The sales the invoice form lists, newest first. */
  function SalesCandidates(txs: seq<Transaction>): seq<Transaction>
  {
    SortByDateDesc(Filter(txs, IsSale))
  }

  /** The sales the invoice form offers as buttons: the first five of its
      list. */
  function OfferedSales(txs: seq<Transaction>): seq<Transaction>
  {
    TopFive(SalesCandidates(txs))
  }

  // ---------------------------------------------------------------------
  // Insertion
  // ---------------------------------------------------------------------

  /** Insertion adds exactly one occurrence of `x`. */
  lemma {:induction false} InsertPermutation(x: Transaction, r: seq<Transaction>)
    ensures multiset(Insert(x, r)) == multiset(r) + multiset{x}
  {
    if |r| > 0 && x.date < r[0].date {
      InsertPermutation(x, r[1..]);
      assert r == [r[0]] + r[1..];
    }
  }

  /** A tail of a newest-first list is newest-first and no newer than its
      head. */
  lemma NewestFirstTail(r: seq<Transaction>)
    requires |r| > 0 && NewestFirst(r)
    ensures NewestFirst(r[1..])
    ensures forall i :: 0 <= i < |r[1..]| ==> r[1..][i].date <= r[0].date
  {
    forall i, j | 0 <= i < j < |r[1..]| ensures r[1..][i].date >= r[1..][j].date {
      assert r[1..][i] == r[i + 1] && r[1..][j] == r[j + 1];
    }
    forall i | 0 <= i < |r[1..]| ensures r[1..][i].date <= r[0].date {
      assert r[1..][i] == r[i + 1];
    }
  }

  /** Prepending an entry at least as new as everything keeps the list
      newest-first. */
  lemma ConsNewestFirst(y: Transaction, r: seq<Transaction>)
    requires NewestFirst(r)
    requires forall i :: 0 <= i < |r| ==> r[i].date <= y.date
    ensures NewestFirst([y] + r)
  {
    forall i, j | 0 <= i < j < |[y] + r| ensures ([y] + r)[i].date >= ([y] + r)[j].date {
      if i > 0 {
        assert ([y] + r)[i] == r[i - 1];
      }
      assert ([y] + r)[j] == r[j - 1];
    }
  }

  /** Every entry after insertion is `x` or an old entry. */
  lemma {:induction false} InsertMembers(x: Transaction, r: seq<Transaction>)
    ensures forall i :: 0 <= i < |Insert(x, r)| ==> Insert(x, r)[i] == x || Insert(x, r)[i] in r
  {
    InsertPermutation(x, r);
    forall i | 0 <= i < |Insert(x, r)| ensures Insert(x, r)[i] == x || Insert(x, r)[i] in r {
      var y := Insert(x, r)[i];
      assert y in multiset(Insert(x, r));
    }
  }

  /** Insertion into a newest-first list keeps it newest-first. */
  lemma {:induction false} InsertNewestFirst(x: Transaction, r: seq<Transaction>)
    requires NewestFirst(r)
    ensures NewestFirst(Insert(x, r))
  {
    if |r| == 0 || x.date >= r[0].date {
      forall i | 0 <= i < |r| ensures r[i].date <= x.date {
        if i > 0 {
          assert r[0].date >= r[i].date;
        }
      }
      ConsNewestFirst(x, r);
    } else {
      NewestFirstTail(r);
      InsertNewestFirst(x, r[1..]);
      var rest := Insert(x, r[1..]);
      forall i | 0 <= i < |rest| ensures rest[i].date <= r[0].date {
        InsertMembers(x, r[1..]);
        if rest[i] != x {
          var j :| 0 <= j < |r[1..]| && r[1..][j] == rest[i];
        }
      }
      ConsNewestFirst(r[0], rest);
    }
  }

  /** The entries of day `d`. */
  function OnDay(d: Day): Transaction -> bool
  {
    (t: Transaction) => t.date == d
  }

  /** Insertion puts `x` ahead of the old entries of its own day. */
  lemma {:induction false} InsertStable(x: Transaction, r: seq<Transaction>, d: Day)
    requires NewestFirst(r)
    ensures Filter(Insert(x, r), OnDay(d)) == (if x.date == d then [x] else []) + Filter(r, OnDay(d))
  {
    if |r| > 0 && x.date < r[0].date {
      NewestFirstTail(r);
      InsertStable(x, r[1..], d);
      assert Insert(x, r)[1..] == Insert(x, r[1..]);
    }
  }

  // ---------------------------------------------------------------------
  // The sorted listing
  // ---------------------------------------------------------------------

  /** The listing is a rearrangement of the stored records: each record,
      unchanged, as often as it is stored. */
  lemma {:induction false} SortPermutation(s: seq<Transaction>)
    ensures multiset(SortByDateDesc(s)) == multiset(s)
  {
    if |s| > 0 {
      SortPermutation(s[1..]);
      InsertPermutation(s[0], SortByDateDesc(s[1..]));
      assert s == [s[0]] + s[1..];
    }
  }

  /** The listing is newest first. */
  lemma {:induction false} SortNewestFirst(s: seq<Transaction>)
    ensures NewestFirst(SortByDateDesc(s))
  {
    if |s| > 0 {
      SortNewestFirst(s[1..]);
      InsertNewestFirst(s[0], SortByDateDesc(s[1..]));
    }
  }

  /** Records of the same day keep their store order. */
  lemma {:induction false} SortStable(s: seq<Transaction>, d: Day)
    ensures Filter(SortByDateDesc(s), OnDay(d)) == Filter(s, OnDay(d))
  {
    if |s| > 0 {
      SortStable(s[1..], d);
      SortNewestFirst(s[1..]);
      InsertStable(s[0], SortByDateDesc(s[1..]), d);
    }
  }

  /** The listing is as long as the store; an empty store lists nothing. */
  lemma SortLength(s: seq<Transaction>)
    ensures |SortByDateDesc(s)| == |s|
    ensures |s| == 0 <==> SortByDateDesc(s) == []
  {
    SortPermutation(s);
    assert |multiset(SortByDateDesc(s))| == |multiset(s)|;
  }

  // ---------------------------------------------------------------------
  // The first five
  // ---------------------------------------------------------------------

  /** A prefix of a list holds no more of any record than the list. */
  lemma PrefixMultiset(s: seq<Transaction>, n: nat)
    requires n <= |s|
    ensures multiset(s[..n]) <= multiset(s)
  {
    assert s == s[..n] + s[n..];
  }

  /** The first five of a sorted listing: at most five, newest first, each
      shown one stored (and no record more often than stored), everything
      when at most five are stored, and nothing left out newer than the
      last one shown. */
  lemma {:induction false} TopFiveOfSorted(s: seq<Transaction>)
    ensures var r := TopFive(SortByDateDesc(s));
      && |r| <= 5
      && NewestFirst(r)
      && multiset(r) <= multiset(s)
      && (|s| <= 5 ==> multiset(r) == multiset(s))
      && (forall x :: x in s && x !in r ==> |r| == 5 && x.date <= r[4].date)
  {
    var sorted := SortByDateDesc(s);
    var r := TopFive(sorted);
    SortPermutation(s);
    SortNewestFirst(s);
    SortLength(s);
    PrefixMultiset(sorted, |r|);
    assert r == sorted[..|r|];
    forall x | x in s && x !in r ensures |r| == 5 && x.date <= r[4].date {
      assert x in multiset(sorted);
      var j :| 0 <= j < |sorted| && sorted[j] == x;
      assert j >= |r|;
    }
  }

  /** The home page shows at most five stored transactions, newest first;
      all of them when at most five are stored; and no omitted one is newer
      than the last shown. */
  lemma RecentProperties(txs: seq<Transaction>)
    ensures |Recent(txs)| <= 5
    ensures NewestFirst(Recent(txs))
    ensures multiset(Recent(txs)) <= multiset(txs)
    ensures |txs| <= 5 ==> multiset(Recent(txs)) == multiset(txs)
    ensures forall x :: x in txs && x !in Recent(txs) ==> |Recent(txs)| == 5 && x.date <= Recent(txs)[4].date
  {
    TopFiveOfSorted(txs);
  }

  /** The full list is the store rearranged newest first, stable within a
      day. */
  lemma TransactionListProperties(txs: seq<Transaction>)
    ensures multiset(SortByDateDesc(txs)) == multiset(txs)
    ensures NewestFirst(SortByDateDesc(txs))
    ensures forall d :: Filter(SortByDateDesc(txs), OnDay(d)) == Filter(txs, OnDay(d))
    ensures txs == [] <==> SortByDateDesc(txs) == []
  {
    SortPermutation(txs);
    SortNewestFirst(txs);
    SortLength(txs);
    forall d ensures Filter(SortByDateDesc(txs), OnDay(d)) == Filter(txs, OnDay(d)) {
      SortStable(txs, d);
    }
  }

  /** The invoice form lists exactly the stored sales, newest first, and
      offers at most five of them. */
  lemma SalesCandidatesProperties(txs: seq<Transaction>)
    ensures multiset(SalesCandidates(txs)) == multiset(Filter(txs, IsSale))
    ensures forall x :: x in SalesCandidates(txs) <==> x in txs && IsSale(x)
    ensures NewestFirst(SalesCandidates(txs))
    ensures |OfferedSales(txs)| <= 5
    ensures forall x :: x in OfferedSales(txs) ==> x in txs && IsSale(x)
  {
    var sales := Filter(txs, IsSale);
    SortPermutation(sales);
    SortNewestFirst(sales);
    forall x ensures x in SalesCandidates(txs) <==> x in txs && IsSale(x) {
      assert x in SalesCandidates(txs) <==> x in multiset(sales);
      if x in txs && IsSale(x) {
        var i :| 0 <= i < |txs| && txs[i] == x;
      }
    }
    TopFiveOfSorted(sales);
    forall x | x in OfferedSales(txs) ensures x in txs && IsSale(x) {
      var i :| 0 <= i < |OfferedSales(txs)| && OfferedSales(txs)[i] == x;
      assert x == SalesCandidates(txs)[i];
    }
  }
}
