/** The stored transaction record as the reports read it, and the day
    ranges the reports filter by. */
module Ledger {
  import opened Seqs

  /** A calendar day, counted from an arbitrary epoch. Every comparison the
      reports make is at day resolution, with end days inclusive. */
  type Day = int

  /** One double-entry posting: a single `amount` debited to `debitAccount`
      and credited to `creditAccount`. No balancing check is made, so both
      sides may name the same account or an unknown one. An absent memo is
      the empty string. */
  datatype Transaction = Transaction(
    id: string,
    date: Day,
    description: string,
    amount: int,
    debitAccount: string,
    creditAccount: string,
    memo: string)

  /** `date` lies in the closed range from `start` through the end of day
      `end`. */
  predicate InRange(date: Day, start: Day, end: Day)
  {
    start <= date <= end
  }

  /** The reports refuse a range whose start lies after the end of its end
      day. */
  predicate ValidRange(start: Day, end: Day)
  {
    start <= end
  }

  /** The amount a transaction moves. */
  function AmountOf(t: Transaction): int
  {
    t.amount
  }

  /** The sum of the amounts of `txs`. */
  function TotalAmount(txs: seq<Transaction>): int
  {
    SumOf(txs, AmountOf)
  }

  /** The transactions of `txs` dated within the closed range, in order. */
  function InPeriod(txs: seq<Transaction>, start: Day, end: Day): (r: seq<Transaction>)
    ensures forall i :: 0 <= i < |r| ==> r[i] in txs && InRange(r[i].date, start, end)
    ensures forall i :: 0 <= i < |txs| && InRange(txs[i].date, start, end) ==> txs[i] in r
    ensures IsSubsequence(r, txs)
    ensures forall t :: multiset(r)[t] == if InRange(t.date, start, end) then multiset(txs)[t] else 0
  {
    FilterIsSubsequence(txs, (t: Transaction) => InRange(t.date, start, end));
    FilterMultiset(txs, (t: Transaction) => InRange(t.date, start, end));
    Filter(txs, (t: Transaction) => InRange(t.date, start, end))
  }
}
