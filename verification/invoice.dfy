/** The line items of a new invoice and the totals the form keeps beside
    them. Amounts are whole yen and tax rates whole percent; the tax part
    of a total is exact, so it is a `real`. */
module Invoice {
  import opened Results
  import opened Seqs
  import opened Ledger

  datatype InvoiceItem = InvoiceItem(description: string, quantity: int, unitPrice: int, amount: int, taxRate: int)

  /** The items and the three totals shown under them. */
  datatype Invoice = Invoice(items: seq<InvoiceItem>, subTotal: int, taxTotal: real, total: real)

  /** The fields the item editor can name. */
  datatype Field = Description | Quantity | UnitPrice | Amount | TaxRate

  /** The blank item the form starts with and appends. */
  const BlankItem: InvoiceItem := InvoiceItem("", 1, 0, 0, 10)

  /** The invoice as the form opens it: one blank item, zero totals. */
  const Initial: Invoice := Invoice([BlankItem], 0, 0.0, 0.0)

  function ItemAmount(it: InvoiceItem): int
  {
    it.amount
  }

  /** The tax on one item: its amount times its rate in percent. */
  function ItemTax(it: InvoiceItem): real
  {
    (it.amount as real) * (it.taxRate as real) / 100.0
  }

  /** The totals agree with the items: the subtotal sums the amounts, the
      tax total sums the item taxes, and the total is their sum. */
  predicate Consistent(inv: Invoice)
  {
    && inv.subTotal == SumOf(inv.items, ItemAmount)
    && inv.taxTotal == RealSumOf(inv.items, ItemTax)
    && inv.total == inv.subTotal as real + inv.taxTotal
  }

  /** Every item is priced: its amount is quantity times unit price. */
  predicate Priced(items: seq<InvoiceItem>)
  {
    forall i :: 0 <= i < |items| ==> items[i].amount == items[i].quantity * items[i].unitPrice
  }

  /** The totals recomputed from `items`, which become the invoice's
      items. */
  function CalculateTotals(inv: Invoice, items: seq<InvoiceItem>): (r: Invoice)
    ensures Consistent(r) && r.items == items
  {
    var subTotal := SumOf(items, ItemAmount);
    var taxTotal := RealSumOf(items, ItemTax);
    Invoice(items, subTotal, taxTotal, subTotal as real + taxTotal)
  }

  /** Appends a blank item. The totals are left as they are. */
  function AddInvoiceItem(inv: Invoice): (r: Invoice)
    ensures r.items == inv.items + [BlankItem]
  {
    inv.(items := inv.items + [BlankItem])
  }

  /** Removes the item at `index` and recomputes the totals. */
  function RemoveInvoiceItem(inv: Invoice, index: nat): (r: Invoice)
    ensures Consistent(r)
    ensures r.items == Without(inv.items, index)
  {
    CalculateTotals(inv, Without(inv.items, index))
  }

  /** A numeric edit: the parsed number, or zero when the text does not
      parse (a zero parse is zero either way). */
  function NumberOr0(value: string, parse: string -> Option<int>): int
  {
    parse(value).GetOr(0)
  }

  /** The item after an edit of `field`: quantity and unit price reprice
      the item, the tax rate and the description change only themselves,
      and the amount cannot be edited directly. */
  function EditItem(it: InvoiceItem, field: Field, value: string, parse: string -> Option<int>): (r: InvoiceItem)
    ensures field == Quantity || field == UnitPrice ==> r.amount == r.quantity * r.unitPrice
    ensures field == Quantity ==> r == it.(quantity := NumberOr0(value, parse), amount := r.amount)
    ensures field == UnitPrice ==> r == it.(unitPrice := NumberOr0(value, parse), amount := r.amount)
    ensures field == TaxRate ==> r == it.(taxRate := NumberOr0(value, parse))
    ensures field == Description ==> r == it.(description := value)
    ensures field == Amount ==> r == it
  {
    match field
    case Quantity =>
      var q := NumberOr0(value, parse);
      it.(quantity := q, amount := q * it.unitPrice)
    case UnitPrice =>
      var p := NumberOr0(value, parse);
      it.(unitPrice := p, amount := it.quantity * p)
    case TaxRate => it.(taxRate := NumberOr0(value, parse))
    case Description => it.(description := value)
    case Amount => it
  }

  /** Edits the item at `index` and recomputes the totals; every other
      item is left as it is. The form only edits items it shows. */
  function UpdateInvoiceItem(inv: Invoice, index: nat, field: Field, value: string, parse: string -> Option<int>): (r: Invoice)
    requires index < |inv.items|
    ensures Consistent(r)
    ensures |r.items| == |inv.items|
    ensures r.items[index] == EditItem(inv.items[index], field, value, parse)
    ensures forall i :: 0 <= i < |r.items| && i != index ==> r.items[i] == inv.items[i]
  {
    CalculateTotals(inv, inv.items[index := EditItem(inv.items[index], field, value, parse)])
  }

  /** The item a transaction becomes: its description, one unit at its
      amount, at 10 percent. */
  function ItemFrom(t: Transaction): InvoiceItem
  {
    InvoiceItem(t.description, 1, t.amount, t.amount, 10)
  }

  /** Appends the item for transaction `t` and recomputes the totals. */
  function AddItemFromTransaction(inv: Invoice, t: Transaction): (r: Invoice)
    ensures Consistent(r)
    ensures r.items == inv.items + [ItemFrom(t)]
  {
    CalculateTotals(inv, inv.items + [ItemFrom(t)])
  }

  // ---------------------------------------------------------------------
  // Properties
  // ---------------------------------------------------------------------

  /** The opening invoice is consistent and priced. */
  lemma InitialConsistent()
    ensures Consistent(Initial) && Priced(Initial.items)
  {
    assert Initial.items[1..] == [];
  }

  /** Adding a blank item keeps consistent totals consistent without a
      recomputation: the blank item weighs nothing. */
  lemma AddKeepsConsistent(inv: Invoice)
    requires Consistent(inv)
    ensures Consistent(AddInvoiceItem(inv))
  {
    SumOfAppend(inv.items, [BlankItem], ItemAmount);
    RealSumOfAppend(inv.items, [BlankItem], ItemTax);
  }

  /** Removing item `index` lowers the subtotal by exactly its amount and
      the tax total by exactly its tax. */
  lemma RemoveLowersTotals(inv: Invoice, index: nat)
    requires Consistent(inv) && index < |inv.items|
    ensures RemoveInvoiceItem(inv, index).subTotal == inv.subTotal - inv.items[index].amount
    ensures RemoveInvoiceItem(inv, index).taxTotal == inv.taxTotal - ItemTax(inv.items[index])
  {
    var items := inv.items;
    var before, it, after := items[..index], items[index], items[index + 1..];
    assert items == before + [it] + after;
    assert Without(items, index) == before + after;
    SumOfAppend(before + [it], after, ItemAmount);
    SumOfAppend(before, [it], ItemAmount);
    SumOfAppend(before, after, ItemAmount);
    RealSumOfAppend(before + [it], after, ItemTax);
    RealSumOfAppend(before, [it], ItemTax);
    RealSumOfAppend(before, after, ItemTax);
  }

  /** Adding a transaction's item raises the subtotal by its amount and
      the tax total by a tenth of it. */
  lemma AddFromTransactionRaisesTotals(inv: Invoice, t: Transaction)
    requires Consistent(inv)
    ensures AddItemFromTransaction(inv, t).subTotal == inv.subTotal + t.amount
    ensures AddItemFromTransaction(inv, t).taxTotal == inv.taxTotal + (t.amount as real) / 10.0
  {
    SumOfAppend(inv.items, [ItemFrom(t)], ItemAmount);
    RealSumOfAppend(inv.items, [ItemFrom(t)], ItemTax);
  }

  /** Every edit keeps every item priced. */
  lemma OperationsKeepPriced(inv: Invoice, index: nat, field: Field, value: string, parse: string -> Option<int>, t: Transaction)
    requires Priced(inv.items)
    ensures Priced(AddInvoiceItem(inv).items)
    ensures Priced(RemoveInvoiceItem(inv, index).items)
    ensures index < |inv.items| ==> Priced(UpdateInvoiceItem(inv, index, field, value, parse).items)
    ensures Priced(AddItemFromTransaction(inv, t).items)
  {
    var add := AddInvoiceItem(inv).items;
    assert forall i :: 0 <= i < |add| ==> add[i] == if i < |inv.items| then inv.items[i] else BlankItem;
    var from := AddItemFromTransaction(inv, t).items;
    assert forall i :: 0 <= i < |from| ==> from[i] == if i < |inv.items| then inv.items[i] else ItemFrom(t);
  }
}
