/**
 * The invoice table of the billing page (src/components/billing/InvoicesList.tsx):
 * the visible rows for a search query and a status filter, and the status badge.
 */
module InvoicesList {
  import opened Text
  import opened Lists
  import opened Palette

  datatype Invoice = Invoice(
    id: string,
    invoiceNumber: string,
    childName: string,
    parentName: string,
    amount: real,
    status: string,
    dueDate: string,
    issuedDate: string)

  /** The child's name, the parent's name or the invoice number, lower-cased, contains the lower-cased query. */
  predicate MatchesSearch(invoice: Invoice, searchQuery: string) {
    || Contains(Lower(invoice.childName), Lower(searchQuery))
    || Contains(Lower(invoice.parentName), Lower(searchQuery))
    || Contains(Lower(invoice.invoiceNumber), Lower(searchQuery))
  }

  /** The filter is "all" or equals the status exactly, case included. */
  predicate MatchesStatus(invoice: Invoice, statusFilter: string) {
    statusFilter == "all" || invoice.status == statusFilter
  }

  /** `filteredInvoices` */
  function FilteredInvoices(invoices: seq<Invoice>, searchQuery: string, statusFilter: string): (r: seq<Invoice>)
    ensures IsSubsequence(r, invoices)
    ensures forall v :: v in r <==> v in invoices && MatchesSearch(v, searchQuery) && MatchesStatus(v, statusFilter)
    ensures forall v :: v in invoices && MatchesSearch(v, searchQuery) && MatchesStatus(v, statusFilter) ==>
      multiset(r)[v] == multiset(invoices)[v]
  {
    Filter(invoices, v => MatchesSearch(v, searchQuery) && MatchesStatus(v, statusFilter))
  }

  lemma FilteredInvoicesIdempotent(invoices: seq<Invoice>, searchQuery: string, statusFilter: string)
    ensures FilteredInvoices(FilteredInvoices(invoices, searchQuery, statusFilter), searchQuery, statusFilter)
         == FilteredInvoices(invoices, searchQuery, statusFilter)
  {
    var p := v => MatchesSearch(v, searchQuery) && MatchesStatus(v, statusFilter);
    FilterFilter(invoices, p, p, p);
  }

  /** With the filter "all" the rows are exactly the search matches: no status constraint at all. */
  lemma AllImposesNoStatus(invoices: seq<Invoice>, searchQuery: string)
    ensures FilteredInvoices(invoices, searchQuery, "all") == Filter(invoices, v => MatchesSearch(v, searchQuery))
  {
    FilterCongruent(invoices,
      v => MatchesSearch(v, searchQuery) && MatchesStatus(v, "all"),
      v => MatchesSearch(v, searchQuery));
  }

  /** The status test does not fold case: filter "Paid" keeps no invoice whose status is "paid". */
  lemma StatusFilterIsExact(invoices: seq<Invoice>, searchQuery: string)
    ensures forall v :: v in invoices && v.status == "paid" ==> v !in FilteredInvoices(invoices, searchQuery, "Paid")
  {
    assert "paid" != "Paid" by { assert "paid"[0] != "Paid"[0]; }
  }

  /** `getStatusBadge`: the three known statuses capitalised and coloured, anything else shown verbatim. */
  function StatusBadge(status: string): (r: Badge)
    ensures status in {"paid", "pending", "overdue"} ==> r.text == Capitalize(status) && r.tone != Plain
    ensures status == "paid" ==> r.tone == Green
    ensures status == "pending" ==> r.tone == Yellow
    ensures status == "overdue" ==> r.tone == Red
    ensures status !in {"paid", "pending", "overdue"} ==> r == Badge(status, Plain)
  {
    match status
    case "paid" => Badge(Capitalize(status), Green)
    case "pending" => Badge(Capitalize(status), Yellow)
    case "overdue" => Badge(Capitalize(status), Red)
    case _ => Badge(status, Plain)
  }

  /** The labels of the three known statuses. */
  lemma StatusBadgeLabels(status: string)
    requires status in {"paid", "pending", "overdue"}
    ensures StatusBadge(status).text == if status == "paid" then "Paid" else if status == "pending" then "Pending" else "Overdue"
  {
  }

  lemma StatusBadgeTonesDistinct(s1: string, s2: string)
    requires s1 in {"paid", "pending", "overdue"} && s2 in {"paid", "pending", "overdue"}
    requires s1 != s2
    ensures StatusBadge(s1).tone != StatusBadge(s2).tone
  {
  }
}
