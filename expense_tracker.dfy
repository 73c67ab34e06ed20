/**
 * The expense table of the billing page (src/components/billing/ExpenseTracker.tsx):
 * the visible rows for a search query and a category filter, the category
 * option list of the filter select and its labels, and the status badge.
 */
module ExpenseTracker {
  import opened Text
  import opened Lists
  import opened Palette

  datatype Expense = Expense(
    id: string,
    date: string,
    category: string,
    description: string,
    amount: real,
    paymentMethod: string,
    status: string)

  /** The description or the category, lower-cased, contains the lower-cased query. */
  predicate MatchesSearch(e: Expense, searchQuery: string) {
    Contains(Lower(e.description), Lower(searchQuery)) || Contains(Lower(e.category), Lower(searchQuery))
  }

  /** The filter is exactly "all", or equals the category up to case. */
  predicate MatchesCategory(e: Expense, categoryFilter: string) {
    categoryFilter == "all" || Lower(e.category) == Lower(categoryFilter)
  }

  /** `filteredExpenses` */
  function FilteredExpenses(expenses: seq<Expense>, searchQuery: string, categoryFilter: string): (r: seq<Expense>)
    ensures IsSubsequence(r, expenses)
    ensures forall e :: e in r <==> e in expenses && MatchesSearch(e, searchQuery) && MatchesCategory(e, categoryFilter)
    ensures forall e :: e in expenses && MatchesSearch(e, searchQuery) && MatchesCategory(e, categoryFilter) ==>
      multiset(r)[e] == multiset(expenses)[e]
  {
    Filter(expenses, e => MatchesSearch(e, searchQuery) && MatchesCategory(e, categoryFilter))
  }

  /** Filtering the visible rows again with the same query and filter changes nothing. */
  lemma FilteredExpensesIdempotent(expenses: seq<Expense>, searchQuery: string, categoryFilter: string)
    ensures FilteredExpenses(FilteredExpenses(expenses, searchQuery, categoryFilter), searchQuery, categoryFilter)
         == FilteredExpenses(expenses, searchQuery, categoryFilter)
  {
    var p := e => MatchesSearch(e, searchQuery) && MatchesCategory(e, categoryFilter);
    FilterFilter(expenses, p, p, p);
  }

  /** The initial state of the page (empty search, filter "all") shows every expense. */
  lemma EmptyQueryShowsAll(expenses: seq<Expense>)
    ensures FilteredExpenses(expenses, "", "all") == expenses
  {
    forall e | e in expenses
      ensures MatchesSearch(e, "")
    {
      ContainsEmpty(Lower(e.description));
    }
    FilterAll(expenses, e => MatchesSearch(e, "") && MatchesCategory(e, "all"));
  }

  /**
   * Case does not matter in the query nor in the filter, as long as neither
   * filter is the exact sentinel "all" without the other also being it.
   */
  lemma FilteredExpensesIgnoresCase(expenses: seq<Expense>, q1: string, q2: string, c1: string, c2: string)
    requires Lower(q1) == Lower(q2) && Lower(c1) == Lower(c2)
    requires c1 == "all" <==> c2 == "all"
    ensures FilteredExpenses(expenses, q1, c1) == FilteredExpenses(expenses, q2, c2)
  {
    FilterCongruent(expenses,
      e => MatchesSearch(e, q1) && MatchesCategory(e, c1),
      e => MatchesSearch(e, q2) && MatchesCategory(e, c2));
  }

  /**
   * The sentinel test is exact: a filter that only lower-cases to "all" (such
   * as "ALL") is not a bypass, it keeps only rows whose category is "all".
   */
  lemma AllSentinelIsCaseSensitive(expenses: seq<Expense>, searchQuery: string, categoryFilter: string)
    requires categoryFilter != "all" && Lower(categoryFilter) == "all"
    ensures forall e :: e in FilteredExpenses(expenses, searchQuery, categoryFilter) ==> Lower(e.category) == "all"
  {
  }

  /** `expenses.map((expense) => expense.category.toLowerCase())` */
  function LowerCategories(expenses: seq<Expense>): (r: seq<string>)
    ensures |r| == |expenses|
    ensures forall i :: 0 <= i < |expenses| ==> r[i] == Lower(expenses[i].category)
  {
    seq(|expenses|, i requires 0 <= i < |expenses| => Lower(expenses[i].category))
  }

  /** `categories`: "all", then each lower-cased category once, in order of first occurrence. */
  function CategoryOptions(expenses: seq<Expense>): (r: seq<string>)
    ensures |r| >= 1 && r[0] == "all"
    ensures NoDuplicates(r[1..])
    ensures forall c :: c in r[1..] <==> exists i :: 0 <= i < |expenses| && Lower(expenses[i].category) == c
    ensures forall c :: c in r[1..] <==> c in LowerCategories(expenses)
    ensures forall i, j :: 1 <= i < j < |r| ==>
      FirstIndex(LowerCategories(expenses), r[i]) < FirstIndex(LowerCategories(expenses), r[j])
  {
    var cats := LowerCategories(expenses);
    var r := ["all"] + Distinct(cats);
    assert r[1..] == Distinct(cats);
    assert forall c :: c in cats <==> exists i :: 0 <= i < |expenses| && Lower(expenses[i].category) == c;
    r
  }

  /**
   * The list repeats "all" exactly when some category lower-cases to "all":
   * the sentinel is prepended without being removed from the categories.
   */
  lemma CategoryOptionsRepeatAll(expenses: seq<Expense>)
    ensures NoDuplicates(CategoryOptions(expenses))
        <==> forall i :: 0 <= i < |expenses| ==> Lower(expenses[i].category) != "all"
  {
    var r := CategoryOptions(expenses);
    if !NoDuplicates(r) {
      var i, j :| 0 <= i < j < |r| && r[i] == r[j];
      assert i == 0;
      assert r[1..][j - 1] == "all";
    }
    if "all" in r[1..] {
      var k :| 0 <= k < |r[1..]| && r[1..][k] == "all";
      assert r[0] == r[k + 1];
    }
  }

  /** Choosing any category the select offers, with an empty search, shows at least one expense. */
  lemma EveryOptionSelectsSomething(expenses: seq<Expense>, option: string)
    requires option in CategoryOptions(expenses)[1..]
    ensures FilteredExpenses(expenses, "", option) != []
  {
    var i :| 0 <= i < |expenses| && Lower(expenses[i].category) == option;
    var e := expenses[i];
    ContainsEmpty(Lower(e.description));
    LowerIdempotent(e.category);
    assert MatchesCategory(e, option);
    assert e in FilteredExpenses(expenses, "", option);
  }

  /** The text of a select item: "All Categories" for "all", else the option capitalised. */
  function OptionLabel(option: string): (r: string)
    ensures option == "all" ==> r == "All Categories"
    ensures option != "all" ==> r == Capitalize(option)
    ensures option != "all" && option != [] ==> r[0] == UpperChar(option[0]) && r[1..] == option[1..]
  {
    if option == "all" then "All Categories" else Capitalize(option)
  }

  /** Every category option's label spells that option, up to case. */
  lemma OptionLabelSpellsCategory(expenses: seq<Expense>, option: string)
    requires option in CategoryOptions(expenses)[1..] && option != "all"
    ensures Lower(OptionLabel(option)) == option
  {
    var i :| 0 <= i < |expenses| && Lower(expenses[i].category) == option;
    LowerIdempotent(expenses[i].category);
  }

  /** `getStatusBadge` */
  function StatusBadge(status: string): (r: Badge)
    ensures status in {"approved", "pending", "rejected"} ==> r.text == Capitalize(status) && r.tone != Plain
    ensures status == "approved" ==> r.tone == Green
    ensures status == "pending" ==> r.tone == Yellow
    ensures status == "rejected" ==> r.tone == Red
    ensures status !in {"approved", "pending", "rejected"} ==> r == Badge(status, Plain)
  {
    match status
    case "approved" => Badge(Capitalize(status), Green)
    case "pending" => Badge(Capitalize(status), Yellow)
    case "rejected" => Badge(Capitalize(status), Red)
    case _ => Badge(status, Plain)
  }

  /** The labels of the three known statuses. */
  lemma StatusBadgeLabels(status: string)
    requires status in {"approved", "pending", "rejected"}
    ensures StatusBadge(status).text == if status == "approved" then "Approved" else if status == "pending" then "Pending" else "Rejected"
  {
  }

  /** The three known statuses get three different colours. */
  lemma StatusBadgeTonesDistinct(s1: string, s2: string)
    requires s1 in {"approved", "pending", "rejected"} && s2 in {"approved", "pending", "rejected"}
    requires s1 != s2
    ensures StatusBadge(s1).tone != StatusBadge(s2).tone
  {
  }
}
