/** The invoice editor's form state and its item-list edits.  Each edit
    replaces the form by a copy whose item list is changed in one place:
    one field of one line, one line appended, or one line removed. */
module InvoiceEditor {
  import opened Wrappers
  import opened Vat

  /** The editable part of the form; the dates come from the clock and are
      not part of this model. */
  datatype InvoiceForm = InvoiceForm(
    number: string,
    customerId: string,
    currency: string,
    language: string,
    isVatReverseCharge: bool,
    items: seq<LineItem>)

  /** The line a new form starts with and `addItem` appends. */
  const DefaultItem := LineItem("", 1.0, 0.0, 21.0)

  /** A new form: no number yet, Czech crowns, Czech language and one
      default line. */
  function NewForm(): (f: InvoiceForm)
    ensures f.items == [DefaultItem] && f.number == "" && f.customerId == ""
    ensures f.currency == "CZK" && f.language == "cs" && !f.isVatReverseCharge
  {
    InvoiceForm("", "", "CZK", "cs", false, [DefaultItem])
  }

  /** An invoice as the server returns it; absent fields are `None`. */
  datatype StoredInvoice = StoredInvoice(
    number: string,
    customerId: string,
    currency: Option<string>,
    language: Option<string>,
    isVatReverseCharge: Option<bool>,
    items: Option<seq<LineItem>>)

  /** `value || fallback` on a string: absent and empty both fall back. */
  function OrElse(value: Option<string>, fallback: string): (r: string)
    ensures fallback != "" ==> r != ""
    ensures value.Some? && value.value != "" ==> r == value.value
  {
    if value.Some? && value.value != "" then value.value else fallback
  }

  /** Loading an invoice into the form: missing currency, language, flag and
      items take the new form's defaults.  A present item list is kept as it
      is, even when it is empty. */
  function LoadForm(inv: StoredInvoice): (f: InvoiceForm)
    ensures f.currency != "" && f.language != ""
    ensures f.items == if inv.items.Some? then inv.items.value else NewForm().items
    ensures f.isVatReverseCharge <==> inv.isVatReverseCharge == Some(true)
    ensures f.number == inv.number && f.customerId == inv.customerId
  {
    InvoiceForm(
      inv.number,
      inv.customerId,
      OrElse(inv.currency, "CZK"),
      OrElse(inv.language, "cs"),
      inv.isVatReverseCharge.GetOr(false),
      inv.items.GetOr([DefaultItem]))
  }

  /** A `[field]: value` update of one line. */
  datatype ItemChange =
    | Description(text: string)
    | Quantity(quantity: real)
    | UnitPrice(price: real)
    | VatRate(rate: real)

  /** `{ ...item, [field]: value }`: the named field takes the new value and
      every other field keeps its old one. */
  function SetField(item: LineItem, change: ItemChange): (r: LineItem)
    ensures r.description == (if change.Description? then change.text else item.description)
    ensures r.quantity == (if change.Quantity? then change.quantity else item.quantity)
    ensures r.unitPrice == (if change.UnitPrice? then change.price else item.unitPrice)
    ensures r.vatRate == (if change.VatRate? then change.rate else item.vatRate)
  {
    match change
    case Description(text) => item.(description := text)
    case Quantity(q) => item.(quantity := q)
    case UnitPrice(p) => item.(unitPrice := p)
    case VatRate(v) => item.(vatRate := v)
  }

  /** `handleItemChange(index, field, value)`. */
  function HandleItemChange(form: InvoiceForm, index: nat, change: ItemChange): (r: InvoiceForm)
    requires index < |form.items|
    ensures |r.items| == |form.items|
    ensures r.items[index] == SetField(form.items[index], change)
    ensures forall j :: 0 <= j < |form.items| && j != index ==> r.items[j] == form.items[j]
    ensures r.(items := form.items) == form
  {
    form.(items := form.items[index := SetField(form.items[index], change)])
  }

  /** Making the same change twice is making it once. */
  lemma ChangeIdempotent(form: InvoiceForm, index: nat, change: ItemChange)
    requires index < |form.items|
    ensures HandleItemChange(HandleItemChange(form, index, change), index, change)
         == HandleItemChange(form, index, change)
  {
  }

  /** `addItem`. */
  function AddItem(form: InvoiceForm): (r: InvoiceForm)
    ensures |r.items| == |form.items| + 1
    ensures r.items[..|form.items|] == form.items && r.items[|form.items|] == DefaultItem
    ensures r.(items := form.items) == form
  {
    form.(items := form.items + [DefaultItem])
  }

  /** `items.filter((_, i) => i !== index)`, the positions counted from
      the front of `items`. */
  function WithoutIndex(items: seq<LineItem>, index: int): (r: seq<LineItem>)
    ensures |r| <= |items|
  {
    if items == [] then []
    else (if index == 0 then [] else [items[0]]) + WithoutIndex(items[1..], index - 1)
  }

  /** The filter removes exactly the line at `index` and keeps the others
      in order; an index outside the list removes nothing. */
  lemma {:induction false} WithoutIndexSlices(items: seq<LineItem>, index: int)
    ensures 0 <= index < |items| ==> WithoutIndex(items, index) == items[..index] + items[index + 1..]
    ensures !(0 <= index < |items|) ==> WithoutIndex(items, index) == items
  {
    if items != [] {
      WithoutIndexSlices(items[1..], index - 1);
      if index == 0 {
        assert items[1..] == items[..0] + items[1..];
      } else if 0 < index < |items| {
        assert items[..index] == [items[0]] + items[1..][..index - 1];
        assert items[index + 1..] == items[1..][index..];
      } else {
        assert items == [items[0]] + items[1..];
      }
    }
  }

  /** `removeItem(index)`. */
  function RemoveItem(form: InvoiceForm, index: int): (r: InvoiceForm)
    ensures 0 <= index < |form.items| ==> r.items == form.items[..index] + form.items[index + 1..]
    ensures !(0 <= index < |form.items|) ==> r.items == form.items
    ensures r.(items := form.items) == form
  {
    WithoutIndexSlices(form.items, index);
    form.(items := WithoutIndex(form.items, index))
  }

  /** The remove buttons are enabled unless exactly one line is left. */
  predicate CanRemove(form: InvoiceForm) {
    |form.items| != 1
  }

  /** A new form cannot lose its only line, and removing through an enabled
      button never empties a list that has lines. */
  lemma RemoveKeepsALine(form: InvoiceForm, index: int)
    requires |form.items| >= 1 && CanRemove(form)
    ensures !CanRemove(NewForm())
    ensures |RemoveItem(form, index).items| >= 1
  {
  }

  // ---------------------------------------------------------------------
  // How the edits move the totals
  // ---------------------------------------------------------------------

  /** Changing a line moves the invoice total by the change in that line's
      total, and no more. */
  lemma ChangeMovesTotal(form: InvoiceForm, index: nat, change: ItemChange)
    requires index < |form.items|
    ensures var r := HandleItemChange(form, index, change);
      SumTotal(r.items) == SumTotal(form.items) - LineTotal(form.items[index]) + LineTotal(r.items[index])
  {
    var r := HandleItemChange(form, index, change);
    SumOfSplit(form.items, index, LineTotal);
    SumOfSplit(r.items, index, LineTotal);
    assert r.items[..index] == form.items[..index];
    assert r.items[index + 1..] == form.items[index + 1..];
  }

  /** A new line is worth nothing: adding it leaves every total unchanged. */
  lemma AddKeepsTotals(form: InvoiceForm)
    ensures SumBase(AddItem(form).items) == SumBase(form.items)
    ensures SumVat(AddItem(form).items) == SumVat(form.items)
    ensures SumTotal(AddItem(form).items) == SumTotal(form.items)
  {
    assert AddItem(form).items[..|form.items|] == form.items;
  }

  /** Removing a line takes exactly its total off the invoice total. */
  lemma RemoveMovesTotal(form: InvoiceForm, index: nat)
    requires index < |form.items|
    ensures SumTotal(RemoveItem(form, index).items) == SumTotal(form.items) - LineTotal(form.items[index])
  {
    SumOfSplit(form.items, index, LineTotal);
    SumOfConcat(form.items[..index], form.items[index + 1..], LineTotal);
  }
}
