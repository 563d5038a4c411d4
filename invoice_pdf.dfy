/** The arithmetic and the choices of the invoice PDF template: language,
    locale and translation table, the per-row amounts of the items table,
    and the totals block (base total, VAT per rate, the stored total to pay
    and the reverse-charge note).  Layout and currency formatting are not
    part of this model. */
module InvoicePdf {
  import opened Wrappers
  import opened Vat

  /** The fields of a stored invoice the template reads. */
  datatype PdfInvoice = PdfInvoice(
    language: Option<string>,
    currency: string,
    items: seq<LineItem>,
    total: real,
    isVatReverseCharge: bool)

  /** `invoice.language || 'cs'`. */
  function LangCode(language: Option<string>): (r: string)
    ensures r != ""
    ensures language.Some? && language.value != "" ==> r == language.value
    ensures (language.None? || language.value == "") ==> r == "cs"
  {
    if language.Some? && language.value != "" then language.value else "cs"
  }

  /** The number and date locale: Czech for `cs`, British English otherwise. */
  function Locale(langCode: string): (r: string)
    ensures r == "cs-CZ" <==> langCode == "cs"
    ensures r == "en-GB" <==> langCode != "cs"
  {
    if langCode == "cs" then "cs-CZ" else "en-GB"
  }

  /** `translations[langCode] || translations.cs`, for a table that has a
      Czech entry. */
  function Translation<T>(table: map<string, T>, langCode: string): (t: T)
    requires "cs" in table
    ensures langCode in table ==> t == table[langCode]
    ensures langCode !in table ==> t == table["cs"]
  {
    if langCode in table then table[langCode] else table["cs"]
  }

  /** An invoice with no language is printed in Czech, with the Czech
      locale. */
  lemma DefaultsToCzech<T>(table: map<string, T>, inv: PdfInvoice)
    requires "cs" in table && inv.language.None?
    ensures Locale(LangCode(inv.language)) == "cs-CZ"
    ensures Translation(table, LangCode(inv.language)) == table["cs"]
  {
  }

  /** One row of the items table. */
  datatype PdfRow = PdfRow(description: string, quantity: real, unitPrice: real, vatAmount: real, totalWithVat: real)

  /** The row of an item: its VAT is the base times the rate in percent and
      its total is the base plus that VAT. */
  function RowOf(item: LineItem): (r: PdfRow)
    ensures r.vatAmount == item.quantity * item.unitPrice * (item.vatRate / 100.0)
    ensures r.totalWithVat == item.quantity * item.unitPrice + r.vatAmount
    ensures r.totalWithVat == item.quantity * item.unitPrice * (1.0 + item.vatRate / 100.0)
  {
    var baseAmount := item.quantity * item.unitPrice;
    var vatAmount := baseAmount * (item.vatRate / 100.0);
    GrossIsLineTotal(item);
    PdfRow(item.description, item.quantity, item.unitPrice, vatAmount, baseAmount + vatAmount)
  }

  /** `invoice.items.map(...)`. */
  function Rows(items: seq<LineItem>): (rows: seq<PdfRow>)
    ensures |rows| == |items|
    ensures forall i :: 0 <= i < |items| ==> rows[i] == RowOf(items[i])
  {
    seq(|items|, i requires 0 <= i < |items| => RowOf(items[i]))
  }

  /** The sum of the totals printed in the rows. */
  function RowTotalsSum(rows: seq<PdfRow>): real {
    if rows == [] then 0.0
    else RowTotalsSum(rows[..|rows| - 1]) + rows[|rows| - 1].totalWithVat
  }

  /** The row totals add up to the sum of the line totals. */
  lemma {:induction false} RowTotalsAreLineTotals(items: seq<LineItem>)
    ensures RowTotalsSum(Rows(items)) == SumTotal(items)
  {
    if items != [] {
      var prefix := items[..|items| - 1];
      RowTotalsAreLineTotals(prefix);
      assert Rows(items)[..|items| - 1] == Rows(prefix);
    }
  }

  /** The totals block as printed. */
  datatype PdfTotals = PdfTotals(baseTotal: real, vatByRate: map<real, real>, totalToPay: real, reverseChargeNote: bool)

  /** The totals block: the base total and the VAT per rate are computed
      from the items, the total to pay is the stored total, and the
      reverse-charge note is shown iff the invoice is flagged. */
  method Totals(inv: PdfInvoice) returns (totals: PdfTotals)
    ensures totals.baseTotal == SumBase(inv.items)
    ensures totals.vatByRate.Keys == Rates(inv.items)
    ensures forall r :: r in totals.vatByRate ==> totals.vatByRate[r] == RateVat(inv.items, r)
    ensures totals.totalToPay == inv.total
    ensures totals.reverseChargeNote <==> inv.isVatReverseCharge
  {
    var baseTotal := SumBase(inv.items);
    var vatByRate := GroupVatByRate(inv.items);
    totals := PdfTotals(baseTotal, vatByRate, inv.total, inv.isVatReverseCharge);
  }

  /** For an invoice whose stored total the server computed from its items,
      the printed rows, the base total plus the VAT rows (read in any
      order), and the total to pay all agree. */
  lemma TotalsAgree(inv: PdfInvoice, order: seq<real>)
    requires inv.total == ServerTotal(inv.items)
    requires Enumerates(order, Rates(inv.items))
    ensures VatByRate(inv.items).Keys == Rates(inv.items)
    ensures SumBase(inv.items) + ValuesSum(VatByRate(inv.items), order) == inv.total
    ensures RowTotalsSum(Rows(inv.items)) == inv.total
  {
    VatRowsSum(inv.items, order);
    ServerTotalIsSum(inv.items);
    RowTotalsAreLineTotals(inv.items);
  }
}
