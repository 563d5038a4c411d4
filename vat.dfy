/** Line items and the VAT arithmetic shared by the invoice editor, the PDF
    template, the invoice list and the server.  Amounts are exact reals:
    each line has a base (quantity times unit price), a VAT part (the base
    times the rate in percent) and a total; an invoice sums these, and its
    VAT is also grouped by rate into a dictionary built item by item. */
module Vat {

  /** One line of an invoice. */
  datatype LineItem = LineItem(description: string, quantity: real, unitPrice: real, vatRate: real)

  /** `quantity * unitPrice`. */
  function Base(item: LineItem): real {
    item.quantity * item.unitPrice
  }

  /** `baseAmount * (vatRate / 100)`. */
  function VatOf(item: LineItem): real {
    Base(item) * (item.vatRate / 100.0)
  }

  /** `baseAmount + vatAmount`. */
  function LineTotal(item: LineItem): real {
    Base(item) + VatOf(item)
  }

  /** The line total the server uses, `itemTotal * (1 + vatRate / 100)`, is
      the line's base plus its VAT. */
  lemma GrossIsLineTotal(item: LineItem)
    ensures Base(item) * (1.0 + item.vatRate / 100.0) == LineTotal(item)
    ensures VatOf(item) == LineTotal(item) - Base(item)
  {
  }

  /** `items.reduce((sum, item) => sum + f(item), 0)`: a left fold. */
  function SumOf(items: seq<LineItem>, f: LineItem -> real): real {
    if items == [] then 0.0
    else SumOf(items[..|items| - 1], f) + f(items[|items| - 1])
  }

  function SumBase(items: seq<LineItem>): real {
    SumOf(items, Base)
  }

  function SumVat(items: seq<LineItem>): real {
    SumOf(items, VatOf)
  }

  function SumTotal(items: seq<LineItem>): real {
    SumOf(items, LineTotal)
  }

  /** The sum of the line totals is the summed base plus the summed VAT. */
  lemma {:induction false} TotalIsBasePlusVat(items: seq<LineItem>)
    ensures SumTotal(items) == SumBase(items) + SumVat(items)
  {
    if items != [] {
      TotalIsBasePlusVat(items[..|items| - 1]);
    }
  }

  /** A sum over two lists laid end to end. */
  lemma {:induction false} SumOfConcat(a: seq<LineItem>, b: seq<LineItem>, f: LineItem -> real)
    ensures SumOf(a + b, f) == SumOf(a, f) + SumOf(b, f)
  {
    if b != [] {
      assert (a + b)[..|a + b| - 1] == a + b[..|b| - 1];
      SumOfConcat(a, b[..|b| - 1], f);
    } else {
      assert a + b == a;
    }
  }

  /** A sum with one line taken out. */
  lemma SumOfSplit(items: seq<LineItem>, index: nat, f: LineItem -> real)
    requires index < |items|
    ensures SumOf(items, f) == SumOf(items[..index], f) + f(items[index]) + SumOf(items[index + 1..], f)
  {
    assert items == items[..index] + [items[index]] + items[index + 1..];
    SumOfConcat(items[..index] + [items[index]], items[index + 1..], f);
    SumOfConcat(items[..index], [items[index]], f);
    assert SumOf([items[index]], f) == f(items[index]) by {
      assert [items[index]][..0] == [];
    }
  }

  /** The server's invoice total: the fold of `acc + itemTotal * (1 + vatRate / 100)`. */
  function ServerTotal(items: seq<LineItem>): real {
    if items == [] then 0.0
    else
      var item := items[|items| - 1];
      ServerTotal(items[..|items| - 1]) + Base(item) * (1.0 + item.vatRate / 100.0)
  }

  /** The stored total is the sum of the line totals the editor shows, and
      so the summed base plus the summed VAT. */
  lemma {:induction false} ServerTotalIsSum(items: seq<LineItem>)
    ensures ServerTotal(items) == SumTotal(items)
    ensures ServerTotal(items) == SumBase(items) + SumVat(items)
  {
    if items != [] {
      ServerTotalIsSum(items[..|items| - 1]);
      GrossIsLineTotal(items[|items| - 1]);
    }
    TotalIsBasePlusVat(items);
  }

  // ---------------------------------------------------------------------
  // VAT grouped by rate
  // ---------------------------------------------------------------------

  /** The distinct rates of the items. */
  function Rates(items: seq<LineItem>): set<real> {
    set i | 0 <= i < |items| :: items[i].vatRate
  }

  /** The VAT of the items charged at `rate`, summed. */
  function RateVat(items: seq<LineItem>, rate: real): real {
    if items == [] then 0.0
    else
      var item := items[|items| - 1];
      RateVat(items[..|items| - 1], rate) + (if item.vatRate == rate then VatOf(item) else 0.0)
  }

  /** One step of the `forEach`: a missing or zero entry for the item's
      rate is (re)set to 0, then the item's VAT is added to it. */
  function AddVat(vatByRate: map<real, real>, item: LineItem): map<real, real> {
    var start := if item.vatRate in vatByRate && vatByRate[item.vatRate] != 0.0 then vatByRate[item.vatRate] else 0.0;
    vatByRate[item.vatRate := start + VatOf(item)]
  }

  /** The `vatByRate` dictionary after the items, in order. */
  function VatByRate(items: seq<LineItem>): map<real, real> {
    if items == [] then map[]
    else AddVat(VatByRate(items[..|items| - 1]), items[|items| - 1])
  }

  /** The dictionary has exactly the items' rates as keys, and for each the
      VAT of the items at that rate. */
  lemma {:induction false} VatByRateGroups(items: seq<LineItem>)
    ensures VatByRate(items).Keys == Rates(items)
    ensures forall r :: r in VatByRate(items) ==> VatByRate(items)[r] == RateVat(items, r)
  {
    if items != [] {
      var prefix := items[..|items| - 1];
      VatByRateGroups(prefix);
      assert Rates(items) == Rates(prefix) + {items[|items| - 1].vatRate} by {
        forall r | r in Rates(items) ensures r in Rates(prefix) + {items[|items| - 1].vatRate} {
          var i :| 0 <= i < |items| && items[i].vatRate == r;
          if i < |items| - 1 {
            assert prefix[i] == items[i];
          }
        }
        forall r | r in Rates(prefix) ensures r in Rates(items) {
          var i :| 0 <= i < |prefix| && prefix[i].vatRate == r;
          assert items[i] == prefix[i];
        }
      }
      var last := items[|items| - 1];
      if last.vatRate !in Rates(prefix) {
        RateVatAbsent(prefix, last.vatRate);
      }
    }
  }

  /** A rate no item is charged at has no VAT. */
  lemma {:induction false} RateVatAbsent(items: seq<LineItem>, rate: real)
    requires rate !in Rates(items)
    ensures RateVat(items, rate) == 0.0
  {
    if items != [] {
      var prefix := items[..|items| - 1];
      assert Rates(prefix) <= Rates(items) by {
        forall r | r in Rates(prefix) ensures r in Rates(items) {
          var i :| 0 <= i < |prefix| && prefix[i].vatRate == r;
          assert items[i] == prefix[i];
        }
      }
      RateVatAbsent(prefix, rate);
    }
  }

  /** `order` lists each key of `keys` exactly once: the order in which
      `Object.values` enumerates the dictionary, which the engine decides. */
  predicate Enumerates(order: seq<real>, keys: set<real>) {
    && (forall i, j :: 0 <= i < j < |order| ==> order[i] != order[j])
    && (forall i :: 0 <= i < |order| ==> order[i] in keys)
    && (forall k :: k in keys ==> k in order)
  }

  /** `Object.values(vatByRate).reduce((sum, vat) => sum + vat, 0)`, the
      values taken in the order `order`. */
  function ValuesSum(vatByRate: map<real, real>, order: seq<real>): real
    requires forall i :: 0 <= i < |order| ==> order[i] in vatByRate
  {
    if order == [] then 0.0
    else ValuesSum(vatByRate, order[..|order| - 1]) + vatByRate[order[|order| - 1]]
  }

  /** The per-rate VAT of the items, summed over the rates in `order`. */
  function RowsSum(items: seq<LineItem>, order: seq<real>): real {
    if order == [] then 0.0
    else RowsSum(items, order[..|order| - 1]) + RateVat(items, order[|order| - 1])
  }

  /** How often `rate` occurs in `order`. */
  function Hits(order: seq<real>, rate: real): nat {
    if order == [] then 0
    else Hits(order[..|order| - 1], rate) + (if order[|order| - 1] == rate then 1 else 0)
  }

  /** In a list without repetitions a rate occurs once or not at all. */
  lemma {:induction false} HitsDistinct(order: seq<real>, rate: real)
    requires forall i, j :: 0 <= i < j < |order| ==> order[i] != order[j]
    ensures Hits(order, rate) == if rate in order then 1 else 0
  {
    if order != [] {
      var prefix := order[..|order| - 1];
      HitsDistinct(prefix, rate);
      assert rate in order <==> rate in prefix || order[|order| - 1] == rate;
    }
  }

  /** With no items every rate has VAT 0. */
  lemma {:induction false} RowsSumEmpty(order: seq<real>)
    ensures RowsSum([], order) == 0.0
  {
    if order != [] {
      RowsSumEmpty(order[..|order| - 1]);
    }
  }

  /** The rows after one more item gain that item's VAT once per occurrence
      of its rate. */
  lemma {:induction false} RowsSumStep(items: seq<LineItem>, order: seq<real>)
    requires items != []
    ensures var last := items[|items| - 1];
      RowsSum(items, order) == RowsSum(items[..|items| - 1], order) + (Hits(order, last.vatRate) as real) * VatOf(last)
  {
    if order != [] {
      RowsSumStep(items, order[..|order| - 1]);
    }
  }

  /** Summing the per-rate VAT over a list holding every rate once gives
      the invoice's VAT. */
  lemma {:induction false} RowsSumIsVat(items: seq<LineItem>, order: seq<real>)
    requires forall i, j :: 0 <= i < j < |order| ==> order[i] != order[j]
    requires forall r :: r in Rates(items) ==> r in order
    ensures RowsSum(items, order) == SumVat(items)
  {
    if items == [] {
      RowsSumEmpty(order);
    } else {
      var prefix := items[..|items| - 1];
      var last := items[|items| - 1];
      assert last.vatRate in Rates(items);
      assert Rates(prefix) <= Rates(items) by {
        forall r | r in Rates(prefix) ensures r in Rates(items) {
          var i :| 0 <= i < |prefix| && prefix[i].vatRate == r;
          assert items[i] == prefix[i];
        }
      }
      RowsSumIsVat(prefix, order);
      RowsSumStep(items, order);
      HitsDistinct(order, last.vatRate);
    }
  }

  /** Reading the dictionary's values in `order` reads the per-rate VAT. */
  lemma {:induction false} ValuesSumIsRows(items: seq<LineItem>, order: seq<real>)
    requires forall i :: 0 <= i < |order| ==> order[i] in Rates(items)
    ensures VatByRate(items).Keys == Rates(items)
    ensures ValuesSum(VatByRate(items), order) == RowsSum(items, order)
  {
    VatByRateGroups(items);
    if order != [] {
      ValuesSumIsRows(items, order[..|order| - 1]);
    }
  }

  /** The VAT rows add up to the invoice's VAT, whatever order the engine
      enumerates them in. */
  lemma VatRowsSum(items: seq<LineItem>, order: seq<real>)
    requires Enumerates(order, Rates(items))
    ensures VatByRate(items).Keys == Rates(items)
    ensures ValuesSum(VatByRate(items), order) == SumVat(items)
  {
    ValuesSumIsRows(items, order);
    RowsSumIsVat(items, order);
  }

  /** The `forEach` that builds `vatByRate` in place. */
  method GroupVatByRate(items: seq<LineItem>) returns (vatByRate: map<real, real>)
    ensures vatByRate == VatByRate(items)
    ensures vatByRate.Keys == Rates(items)
    ensures forall r :: r in vatByRate ==> vatByRate[r] == RateVat(items, r)
  {
    vatByRate := map[];
    for i := 0 to |items|
      invariant vatByRate == VatByRate(items[..i])
    {
      var item := items[i];
      ghost var before := vatByRate;
      var baseAmount := item.quantity * item.unitPrice;
      var vatAmount := baseAmount * (item.vatRate / 100.0);
      assert vatAmount == VatOf(item);
      if item.vatRate !in vatByRate || vatByRate[item.vatRate] == 0.0 {
        vatByRate := vatByRate[item.vatRate := 0.0];
      }
      vatByRate := vatByRate[item.vatRate := vatByRate[item.vatRate] + vatAmount];
      assert vatByRate == AddVat(before, item);
      assert items[..i + 1][..i] == items[..i];
    }
    assert items[..|items|] == items;
    VatByRateGroups(items);
  }

  /** `Object.values(vatByRate).reduce((sum, vat) => sum + vat, 0)`, the
      values read in the engine's order `order`. */
  method SumValues(vatByRate: map<real, real>, order: seq<real>) returns (total: real)
    requires forall i :: 0 <= i < |order| ==> order[i] in vatByRate
    ensures total == ValuesSum(vatByRate, order)
  {
    total := 0.0;
    for i := 0 to |order|
      invariant total == ValuesSum(vatByRate, order[..i])
    {
      assert order[..i + 1][..i] == order[..i];
      total := total + vatByRate[order[i]];
    }
    assert order[..|order|] == order;
  }

  /** The VAT summary block: the base total, the VAT rows, their sum and
      the grand total, the rows read in the engine's order `order` of the
      rates.  The grand total is the sum of the line totals. */
  method VatSummary(items: seq<LineItem>, order: seq<real>)
    returns (baseTotal: real, vatByRate: map<real, real>, totalVat: real, grandTotal: real)
    requires Enumerates(order, Rates(items))
    ensures baseTotal == SumBase(items)
    ensures vatByRate.Keys == Rates(items)
    ensures forall r :: r in vatByRate ==> vatByRate[r] == RateVat(items, r)
    ensures totalVat == SumVat(items)
    ensures grandTotal == SumTotal(items)
  {
    baseTotal := SumBase(items);
    vatByRate := GroupVatByRate(items);
    totalVat := SumValues(vatByRate, order);
    VatRowsSum(items, order);
    grandTotal := baseTotal + totalVat;
    TotalIsBasePlusVat(items);
  }
}
