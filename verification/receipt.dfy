/** The line items of a new receipt, the amount the form keeps beside them,
    and the rounded tax and total it shows. Amounts are whole yen and the
    tax rate is whole percent. */
module Receipt {
  import opened Seqs
  import opened Ledger

  datatype ReceiptItem = ReceiptItem(description: string, amount: int, quantity: int, total: int)

  /** The parts of a receipt the arithmetic touches. */
  datatype Receipt = Receipt(date: Day, description: string, amount: int, tax: int, items: seq<ReceiptItem>)

  /** The fields the item editor can name. */
  datatype Field = Description | Amount | Quantity | Total

  /** The blank item the form starts with and appends. */
  const BlankItem: ReceiptItem := ReceiptItem("", 0, 1, 0)

  /** The receipt as the form opens it on day `today`: one blank item, a
      zero amount and a 10 percent tax rate. */
  function Initial(today: Day): Receipt
  {
    Receipt(today, "", 0, 10, [BlankItem])
  }

  function ItemTotal(it: ReceiptItem): int
  {
    it.total
  }

  /** The receipt's amount is the sum of its item totals. */
  predicate Consistent(r: Receipt)
  {
    r.amount == SumOf(r.items, ItemTotal)
  }

  /** Every item's total is its unit amount times its quantity. */
  predicate Priced(items: seq<ReceiptItem>)
  {
    forall i :: 0 <= i < |items| ==> items[i].total == items[i].amount * items[i].quantity
  }

  /** A numeric input: the empty text is zero, anything else is what the
      number parser makes of it. */
  function NumberInput(value: string, parse: string -> int): int
  {
    if value == "" then 0 else parse(value)
  }

  /** The item after an edit of `field`: a unit amount or quantity edit
      recomputes the item total, a description edit changes only the
      description, and the total cannot be edited directly. */
  function EditItem(it: ReceiptItem, field: Field, value: string, parse: string -> int): (r: ReceiptItem)
    ensures field == Amount || field == Quantity ==> r.total == r.amount * r.quantity
    ensures field == Amount ==> r == it.(amount := NumberInput(value, parse), total := r.total)
    ensures field == Quantity ==> r == it.(quantity := NumberInput(value, parse), total := r.total)
    ensures field == Description ==> r == it.(description := value)
    ensures field == Total ==> r == it
  {
    match field
    case Amount =>
      var a := NumberInput(value, parse);
      it.(amount := a, total := a * it.quantity)
    case Quantity =>
      var q := NumberInput(value, parse);
      it.(quantity := q, total := it.amount * q)
    case Description => it.(description := value)
    case Total => it
  }

  /** Edits the item at `index` and sets the amount to the sum of the item
      totals; every other item is left as it is. The form only edits items
      it shows. */
  function HandleItemChange(r: Receipt, index: nat, field: Field, value: string, parse: string -> int): (r': Receipt)
    requires index < |r.items|
    ensures Consistent(r')
    ensures |r'.items| == |r.items|
    ensures r'.items[index] == EditItem(r.items[index], field, value, parse)
    ensures forall i :: 0 <= i < |r'.items| && i != index ==> r'.items[i] == r.items[i]
    ensures r'.tax == r.tax && r'.date == r.date && r'.description == r.description
  {
    var items := r.items[index := EditItem(r.items[index], field, value, parse)];
    r.(items := items, amount := SumOf(items, ItemTotal))
  }

  /** Appends a blank item; the amount is left as it is. */
  function AddItem(r: Receipt): (r': Receipt)
    ensures r'.items == r.items + [BlankItem] && r'.amount == r.amount
  {
    r.(items := r.items + [BlankItem])
  }

  /** Removes the item at `index` and resets the amount to the sum of the
      remaining totals, unless it is the only item, when nothing changes. */
  function RemoveItem(r: Receipt, index: nat): (r': Receipt)
    ensures |r.items| <= 1 ==> r' == r
    ensures |r.items| > 1 ==> Consistent(r') && r'.items == Without(r.items, index)
  {
    if |r.items| <= 1 then r
    else
      var items := Without(r.items, index);
      r.(items := items, amount := SumOf(items, ItemTotal))
  }

  /** The tax on `amount` at `rate` percent, rounded to the nearest yen with
      halves rounded up, as `Math.round` does. */
  function RoundedTax(amount: int, rate: int): (t: int)
    ensures 100 * t - 50 <= amount * rate < 100 * t + 50
  {
    (2 * (amount * rate) + 100) / 200
  }

  /** The tax the receipt shows. */
  function CalculateTax(r: Receipt): int
  {
    RoundedTax(r.amount, r.tax)
  }

  /** The total the receipt shows: the amount plus its rounded tax. */
  function CalculateTotal(r: Receipt): (total: int)
    ensures 100 * total - 50 <= r.amount * (100 + r.tax) < 100 * total + 50
  {
    r.amount + CalculateTax(r)
  }

  /** The receipt filled from transaction `t`: its day, its description,
      its amount, and a single item of one unit at that amount. */
  function LoadTransaction(r: Receipt, t: Transaction): (r': Receipt)
    ensures Consistent(r') && Priced(r'.items)
    ensures |r'.items| == 1 && r'.items[0].quantity == 1
    ensures r'.items[0].total == r'.amount == t.amount
    ensures r'.date == t.date && r'.description == t.description && r'.tax == r.tax
  {
    r.(date := t.date, amount := t.amount, description := t.description,
       items := [ReceiptItem(t.description, t.amount, 1, t.amount)])
  }

  /** A direct edit of the amount field: the empty text is zero, anything
      else is taken as parsed, with no regard to the items. */
  function EditAmount(r: Receipt, value: string, parse: string -> int): Receipt
  {
    r.(amount := NumberInput(value, parse))
  }

  /** A direct edit of the tax-rate field. */
  function EditTax(r: Receipt, value: string, parse: string -> int): (r': Receipt)
    ensures Consistent(r) ==> Consistent(r')
  {
    r.(tax := NumberInput(value, parse))
  }

  // ---------------------------------------------------------------------
  // Properties
  // ---------------------------------------------------------------------

  /** The opening receipt is consistent and priced. */
  lemma InitialConsistent(today: Day)
    ensures Consistent(Initial(today)) && Priced(Initial(today).items)
  {
    assert Initial(today).items[1..] == [];
  }

  /** Adding a blank item keeps the amount the sum of the totals: the blank
      item's total is zero. */
  lemma AddKeepsConsistent(r: Receipt)
    requires Consistent(r)
    ensures Consistent(AddItem(r))
  {
    SumOfAppend(r.items, [BlankItem], ItemTotal);
  }

  /** Removing item `index` of several lowers the amount by exactly that
      item's total. */
  lemma RemoveLowersAmount(r: Receipt, index: nat)
    requires Consistent(r) && 1 < |r.items| && index < |r.items|
    ensures RemoveItem(r, index).amount == r.amount - r.items[index].total
  {
    var items := r.items;
    var before, it, after := items[..index], items[index], items[index + 1..];
    assert items == before + [it] + after;
    assert Without(items, index) == before + after;
    SumOfAppend(before + [it], after, ItemTotal);
    SumOfAppend(before, [it], ItemTotal);
    SumOfAppend(before, after, ItemTotal);
  }

  /** The item list never becomes empty. */
  lemma ItemsNeverEmpty(r: Receipt, index: nat, field: Field, value: string, parse: string -> int, t: Transaction)
    requires |r.items| >= 1
    ensures |AddItem(r).items| >= 1
    ensures |RemoveItem(r, index).items| >= 1
    ensures index < |r.items| ==> |HandleItemChange(r, index, field, value, parse).items| >= 1
    ensures |LoadTransaction(r, t).items| >= 1
  {
  }

  /** Every item operation keeps every item priced. */
  lemma OperationsKeepPriced(r: Receipt, index: nat, field: Field, value: string, parse: string -> int)
    requires Priced(r.items)
    ensures Priced(AddItem(r).items)
    ensures Priced(RemoveItem(r, index).items)
    ensures index < |r.items| ==> Priced(HandleItemChange(r, index, field, value, parse).items)
  {
    var add := AddItem(r).items;
    assert forall i :: 0 <= i < |add| ==> add[i] == if i < |r.items| then r.items[i] else BlankItem;
  }

  /** A direct amount edit keeps the amount the sum of the item totals only
      when the typed number happens to be that sum. */
  lemma DirectAmountEdit(r: Receipt, value: string, parse: string -> int)
    ensures Consistent(EditAmount(r, value, parse)) <==> NumberInput(value, parse) == SumOf(r.items, ItemTotal)
  {
  }

  /** Halves round up, towards positive infinity: a tax of 0.5 yen is 1 yen
      and a tax of -0.5 yen is 0 yen. */
  lemma HalvesRoundUp()
    ensures RoundedTax(5, 10) == 1
    ensures RoundedTax(-5, 10) == 0
    ensures RoundedTax(1000, 10) == 100
  {
  }
}
