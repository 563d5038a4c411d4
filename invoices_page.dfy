/** The invoice list page: the search filter over the fetched invoices, the
    base/VAT split of each invoice, the statistics over the filtered rows,
    the owner column switch and the year selector's fallback. */
module InvoicesPage {
  import opened Wrappers
  import opened Text
  import opened Seqs
  import opened Vat

  /** An invoice as the list receives it. */
  datatype ListedInvoice = ListedInvoice(number: int, total: real, customerName: string, items: seq<LineItem>)

  /** The search test: the number's decimal text contains the term, or the
      lower-cased customer name contains the lower-cased term. */
  predicate Matches(inv: ListedInvoice, term: string) {
    Includes(IntString(inv.number), term) || Includes(ToLower(inv.customerName), ToLower(term))
  }

  /** `filteredInvoices`. */
  function FilterInvoices(invoices: seq<ListedInvoice>, term: string): (r: seq<ListedInvoice>)
    ensures forall inv :: inv in r <==> inv in invoices && Matches(inv, term)
    ensures IsSubsequence(r, invoices)
  {
    FilterIsSubsequence(invoices, inv => Matches(inv, term));
    Filter(invoices, inv => Matches(inv, term))
  }

  /** An empty search keeps every invoice. */
  lemma EmptyTermKeepsAll(invoices: seq<ListedInvoice>)
    ensures FilterInvoices(invoices, "") == invoices
  {
    forall inv | inv in invoices ensures Matches(inv, "") {
      IncludesEmpty(IntString(inv.number));
    }
    FilterAll(invoices, inv => Matches(inv, ""));
  }

  /** The base and VAT parts shown for one invoice. */
  datatype Amounts = Amounts(base: real, vat: real)

  /** `calculateAmounts`: the base is summed from the items and the VAT is
      whatever the stored total adds to it. */
  function CalculateAmounts(inv: ListedInvoice): (a: Amounts)
    ensures a.base == SumBase(inv.items)
    ensures a.base + a.vat == inv.total
  {
    var base := SumBase(inv.items);
    Amounts(base, inv.total - base)
  }

  /** For an invoice whose total the server computed, the derived VAT is
      exactly the items' VAT. */
  lemma AmountsOfServerTotal(inv: ListedInvoice)
    requires inv.total == ServerTotal(inv.items)
    ensures CalculateAmounts(inv).vat == SumVat(inv.items)
  {
    ServerTotalIsSum(inv.items);
  }

  /** The statistics cards. */
  datatype Stats = Stats(base: real, vat: real, count: nat)

  /** The stored totals of the invoices, summed. */
  function TotalsSum(invoices: seq<ListedInvoice>): real {
    if invoices == [] then 0.0
    else TotalsSum(invoices[..|invoices| - 1]) + invoices[|invoices| - 1].total
  }

  /** The `reduce` over the rows that builds the statistics: it counts the
      rows, and the base plus the VAT is the sum of their totals. */
  function StatsOf(invoices: seq<ListedInvoice>): (s: Stats)
    ensures s.count == |invoices|
    ensures s.base + s.vat == TotalsSum(invoices)
  {
    if invoices == [] then Stats(0.0, 0.0, 0)
    else
      var acc := StatsOf(invoices[..|invoices| - 1]);
      var a := CalculateAmounts(invoices[|invoices| - 1]);
      Stats(acc.base + a.base, acc.vat + a.vat, acc.count + 1)
  }

  /** The statistics of the page are those of the filtered rows. */
  function PageStats(invoices: seq<ListedInvoice>, term: string): (s: Stats)
    ensures s.count == |FilterInvoices(invoices, term)|
    ensures s.base + s.vat == TotalsSum(FilterInvoices(invoices, term))
    ensures s.count <= |invoices|
  {
    StatsOf(FilterInvoices(invoices, term))
  }

  /** The owner column is shown iff no user is selected. */
  function ShowOwnerColumn(selectedUserId: string): (show: bool)
    ensures show <==> selectedUserId == ""
  {
    selectedUserId == ""
  }

  /** The years offered: the fetched list when it is non-empty, otherwise
      (also when the request fails, `None`) just the current year. */
  function AvailableYears(fetched: Option<seq<int>>, currentYear: int): (years: seq<int>)
    ensures years != []
    ensures fetched.Some? && fetched.value != [] ==> years == fetched.value
    ensures fetched.None? || fetched.value == [] ==> years == [currentYear]
  {
    match fetched
    case Some(ys) => if |ys| > 0 then ys else [currentYear]
    case None => [currentYear]
  }
}
