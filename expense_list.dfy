/**
 * The history view (`src/components/ExpenseList.tsx`): search and category filter, a stable sort
 * on one of four keys, the list of categories for the filter menu, the CSV export and the total
 * of the shown expenses.
 */
module ExpenseList {
  import opened Seqs
  import opened Sorting
  import opened Text
  import opened Expenses

  /** The search box and the category menu. */
  datatype Query = Query(search: string, category: string)

  /** The search text, lower-cased, occurs in the lower-cased description or category. */
  predicate MatchesSearch(e: Expense, search: string)
  {
    Contains(Lower(e.description), Lower(search)) || Contains(Lower(e.category), Lower(search))
  }

  /** `'all'` selects every category; any other value selects exactly that category. */
  predicate MatchesCategory(e: Expense, filterCategory: string)
  {
    filterCategory == "all" || e.category == filterCategory
  }

  predicate Matches(e: Expense, q: Query)
  {
    MatchesSearch(e, q.search) && MatchesCategory(e, q.category)
  }

  function FilterExpenses(xs: seq<Expense>, q: Query): seq<Expense>
  {
    Filter(xs, Matches, q)
  }

  /** The sort comparator: negative when `a` goes first, positive when `b` does, 0 for a tie. */
  function Compare(a: Expense, b: Expense, sortBy: string): real
  {
    if sortBy == "date-desc" then DateCompare(b.date, a.date) as real
    else if sortBy == "date-asc" then DateCompare(a.date, b.date) as real
    else if sortBy == "amount-desc" then b.amount - a.amount
    else if sortBy == "amount-asc" then a.amount - b.amount
    else 0.0
  }

  predicate Precedes(a: Expense, b: Expense, sortBy: string)
  {
    Compare(a, b, sortBy) <= 0.0
  }

  function SortExpenses(xs: seq<Expense>, sortBy: string): seq<Expense>
  {
    SortBy(xs, Precedes, sortBy)
  }

  /** `filteredAndSortedExpenses`. */
  function FilteredAndSorted(xs: seq<Expense>, search: string, filterCategory: string, sortBy: string): seq<Expense>
  {
    SortExpenses(FilterExpenses(xs, Query(search, filterCategory)), sortBy)
  }

  /** Each comparator is a total preorder, which is what a sort needs. */
  lemma PrecedesIsTotalPreorder(sortBy: string)
    ensures TotalPreorder(Precedes, sortBy)
  {
    forall x: Expense, y: Expense ensures Precedes(x, y, sortBy) || Precedes(y, x, sortBy) {
      LexTrichotomy(x.date, y.date);
    }
    forall x: Expense, y: Expense, z: Expense | Precedes(x, y, sortBy) && Precedes(y, z, sortBy)
      ensures Precedes(x, z, sortBy)
    {
      if sortBy == "date-desc" && x.date != y.date && y.date != z.date {
        LexTransitive(z.date, y.date, x.date);
      } else if sortBy == "date-asc" && x.date != y.date && y.date != z.date {
        LexTransitive(x.date, y.date, z.date);
      }
    }
  }

  /** Two expenses tie exactly when they agree on the selected key; an unknown key ties everything. */
  lemma TiedMeansSameKey(a: Expense, b: Expense, sortBy: string)
    ensures sortBy == "date-desc" || sortBy == "date-asc" ==> (Tied(a, b, Precedes, sortBy) <==> a.date == b.date)
    ensures sortBy == "amount-desc" || sortBy == "amount-asc" ==> (Tied(a, b, Precedes, sortBy) <==> a.amount == b.amount)
    ensures sortBy !in {"date-desc", "date-asc", "amount-desc", "amount-asc"} ==> Tied(a, b, Precedes, sortBy)
  {
    LexAsymmetric(a.date, b.date);
  }

  /** Every shown expense matches both the search and the category filter, and every match is shown. */
  lemma ShownAreExactlyMatches(xs: seq<Expense>, search: string, filterCategory: string, sortBy: string)
    ensures forall i :: 0 <= i < |FilteredAndSorted(xs, search, filterCategory, sortBy)| ==>
      var e := FilteredAndSorted(xs, search, filterCategory, sortBy)[i];
      e in xs && MatchesSearch(e, search) && MatchesCategory(e, filterCategory)
    ensures forall i :: 0 <= i < |xs| && MatchesSearch(xs[i], search) && MatchesCategory(xs[i], filterCategory) ==>
      xs[i] in FilteredAndSorted(xs, search, filterCategory, sortBy)
    ensures multiset(FilteredAndSorted(xs, search, filterCategory, sortBy))
         == multiset(FilterExpenses(xs, Query(search, filterCategory)))
  {
    var q := Query(search, filterCategory);
    var f := FilterExpenses(xs, q);
    var r := FilteredAndSorted(xs, search, filterCategory, sortBy);
    assert multiset(r) == multiset(f);
    forall i | 0 <= i < |r| ensures r[i] in xs && Matches(r[i], q) {
      assert r[i] in multiset(f);
    }
    forall i | 0 <= i < |xs| && Matches(xs[i], q) ensures xs[i] in r {
      assert xs[i] in multiset(r);
    }
  }

  /** The filter keeps the input order. */
  lemma FilterKeepsOrder(xs: seq<Expense>, q: Query)
    ensures IsSubsequence(FilterExpenses(xs, q), xs)
  {
    FilterIsSubsequence(xs, Matches, q);
  }

  /** An empty search with category `'all'` shows every expense, ordered only by the sort. */
  lemma EmptySearchShowsAll(xs: seq<Expense>, sortBy: string)
    ensures FilterExpenses(xs, Query("", "all")) == xs
    ensures FilteredAndSorted(xs, "", "all", sortBy) == SortExpenses(xs, sortBy)
  {
    forall i | 0 <= i < |xs| ensures Matches(xs[i], Query("", "all")) {
      assert Lower("") == "";
      assert "" <= Lower(xs[i].description);
    }
    FilterKeepsAll(xs, Matches, Query("", "all"));
  }

  /** Filtering the filtered list again with the same query changes nothing. */
  lemma FilterTwiceIsFilterOnce(xs: seq<Expense>, q: Query)
    ensures FilterExpenses(FilterExpenses(xs, q), q) == FilterExpenses(xs, q)
  {
    FilterIdempotent(xs, Matches, q);
  }

  /** The shown list is ordered by the selected key; an unknown key keeps the filter's order. */
  lemma ShownAreOrdered(xs: seq<Expense>, search: string, filterCategory: string, sortBy: string)
    ensures var r := FilteredAndSorted(xs, search, filterCategory, sortBy);
      && (sortBy == "date-desc" ==> forall i, j :: 0 <= i < j < |r| ==> !LexLess(r[i].date, r[j].date))
      && (sortBy == "date-asc" ==> forall i, j :: 0 <= i < j < |r| ==> !LexLess(r[j].date, r[i].date))
      && (sortBy == "amount-desc" ==> forall i, j :: 0 <= i < j < |r| ==> r[i].amount >= r[j].amount)
      && (sortBy == "amount-asc" ==> forall i, j :: 0 <= i < j < |r| ==> r[i].amount <= r[j].amount)
      && (sortBy !in {"date-desc", "date-asc", "amount-desc", "amount-asc"} ==>
            r == FilterExpenses(xs, Query(search, filterCategory)))
  {
    var f := FilterExpenses(xs, Query(search, filterCategory));
    var r := SortExpenses(f, sortBy);
    PrecedesIsTotalPreorder(sortBy);
    SortBySorted(f, Precedes, sortBy);
    if sortBy == "date-desc" {
      forall i, j | 0 <= i < j < |r| ensures !LexLess(r[i].date, r[j].date) {
        assert Precedes(r[i], r[j], sortBy);
        LexAsymmetric(r[i].date, r[j].date);
        LexIrreflexive(r[i].date);
      }
    } else if sortBy == "date-asc" {
      forall i, j | 0 <= i < j < |r| ensures !LexLess(r[j].date, r[i].date) {
        assert Precedes(r[i], r[j], sortBy);
        LexAsymmetric(r[i].date, r[j].date);
        LexIrreflexive(r[i].date);
      }
    } else if sortBy !in {"date-desc", "date-asc", "amount-desc", "amount-asc"} {
      SortByAllTied(f, Precedes, sortBy);
    }
  }

  /** Stability: expenses that agree on the sort key appear in the order the filter produced them. */
  lemma ShownTiesKeepOrder(xs: seq<Expense>, search: string, filterCategory: string, sortBy: string, x: Expense)
    ensures Ties(FilteredAndSorted(xs, search, filterCategory, sortBy), x, Precedes, sortBy)
         == Ties(FilterExpenses(xs, Query(search, filterCategory)), x, Precedes, sortBy)
  {
    PrecedesIsTotalPreorder(sortBy);
    SortByStable(FilterExpenses(xs, Query(search, filterCategory)), x, Precedes, sortBy);
  }

  /** `totalAmount`: the sum over the shown expenses. */
  function TotalAmount(xs: seq<Expense>, search: string, filterCategory: string, sortBy: string): real
  {
    SumAmounts(FilteredAndSorted(xs, search, filterCategory, sortBy))
  }

  /** Sorting does not change the total: it is the sum over the filtered expenses. */
  lemma TotalAmountIsFilteredSum(xs: seq<Expense>, search: string, filterCategory: string, sortBy: string)
    ensures TotalAmount(xs, search, filterCategory, sortBy) == SumAmounts(FilterExpenses(xs, Query(search, filterCategory)))
  {
    var f := FilterExpenses(xs, Query(search, filterCategory));
    SumPermutation(SortExpenses(f, sortBy), f, Amount);
  }

  /** `categories`: the distinct categories of the expenses, in first-appearance order. */
  function FilterCategories(xs: seq<Expense>): seq<string>
  {
    Distinct(Map(xs, Category))
  }

  /** Each category of the list appears in the menu exactly once, in the order first seen. */
  lemma FilterCategoriesListsEachOnce(xs: seq<Expense>)
    ensures forall i :: 0 <= i < |xs| ==> xs[i].category in FilterCategories(xs)
    ensures forall c :: c in FilterCategories(xs) ==> exists i :: 0 <= i < |xs| && xs[i].category == c
    ensures forall i, j :: 0 <= i < j < |FilterCategories(xs)| ==> FilterCategories(xs)[i] != FilterCategories(xs)[j]
    ensures forall i, j :: 0 <= i < j < |FilterCategories(xs)| ==>
      FirstIndex(Map(xs, Category), FilterCategories(xs)[i]) < FirstIndex(Map(xs, Category), FilterCategories(xs)[j])
  {
    var cs := Map(xs, Category);
    forall i | 0 <= i < |xs| ensures xs[i].category in FilterCategories(xs) {
      assert cs[i] == xs[i].category;
    }
    forall c | c in FilterCategories(xs) ensures exists i :: 0 <= i < |xs| && xs[i].category == c {
      var i :| 0 <= i < |cs| && cs[i] == c;
      assert xs[i].category == c;
    }
    DistinctFirstAppearance(cs);
  }

  const CsvHeader: string := "Date,Amount,Category,Description"

  /**
   * One exported line: `date,amount,"category","description"`. `showAmount` stands for
   * JavaScript's number-to-text conversion. Quotes inside a field are not escaped.
   */
  function CsvRow(e: Expense, showAmount: real -> string): string
  {
    e.date + "," + showAmount(e.amount) + ",\"" + e.category + "\",\"" + e.description + "\""
  }

  function CsvRows(xs: seq<Expense>, showAmount: real -> string): (r: seq<string>)
    ensures |r| == |xs|
  {
    seq(|xs|, i requires 0 <= i < |xs| => CsvRow(xs[i], showAmount))
  }

  /**
   * `csvContent` in `handleExport`: the header, then one line per stored expense, joined by
   * newlines. The text starts with the header, and an empty list exports the header alone.
   */
  function Csv(expenses: seq<Expense>, showAmount: real -> string): (r: string)
    ensures CsvHeader <= r
    ensures expenses == [] ==> r == CsvHeader
  {
    var lines := [CsvHeader] + CsvRows(expenses, showAmount);
    assert lines[0] == CsvHeader;
    assert expenses == [] ==> lines == [CsvHeader];
    Join(lines, '\n')
  }

  predicate NoNewline(e: Expense, showAmount: real -> string)
  {
    '\n' !in e.date && '\n' !in showAmount(e.amount) && '\n' !in e.category && '\n' !in e.description
  }

  /**
   * When no field holds a newline, the exported text splits back into the header and exactly one
   * line per stored expense, in stored order: the full list, whatever filter the view shows.
   */
  lemma CsvLines(expenses: seq<Expense>, showAmount: real -> string)
    requires forall i :: 0 <= i < |expenses| ==> NoNewline(expenses[i], showAmount)
    ensures |Split(Csv(expenses, showAmount), '\n')| == |expenses| + 1
    ensures Split(Csv(expenses, showAmount), '\n')[0] == CsvHeader
    ensures forall i :: 0 <= i < |expenses| ==>
      Split(Csv(expenses, showAmount), '\n')[i + 1] == CsvRow(expenses[i], showAmount)
  {
    var lines := [CsvHeader] + CsvRows(expenses, showAmount);
    forall i | 0 <= i < |lines| ensures '\n' !in lines[i] {
      if i > 0 {
        var e := expenses[i - 1];
        assert NoNewline(e, showAmount);
        assert lines[i] == e.date + "," + showAmount(e.amount) + ",\"" + e.category + "\",\"" + e.description + "\"";
      }
    }
    SplitJoin(lines, '\n');
  }

  /** Because quotes are not escaped, two different expenses can export to the same line. */
  lemma CsvRowNotInjective(showAmount: real -> string)
    ensures CsvRow(Expense("1", "2024-03-01", 5.0, "a\",\"b", "c"), showAmount)
         == CsvRow(Expense("2", "2024-03-01", 5.0, "a", "b\",\"c"), showAmount)
  {
  }
}
