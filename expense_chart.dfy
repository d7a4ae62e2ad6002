/**
 * The analytics tab (`src/components/ExpenseChart.tsx`): spending per category for the pie
 * chart, spending per month for the trend chart (at most the last six bars), and when each part
 * is shown. The accumulator objects of the source are modelled as their entries in insertion
 * order, which is the order `Object.entries` lists them in.
 */
module ExpenseChart {
  import opened Seqs
  import opened Sorting
  import opened Expenses
  import IndexPage

  /** One property of an accumulator object: a category or a `YYYY-MM` month, and its total. */
  datatype Entry = Entry(key: string, value: real)

  /** One bar of the trend chart: the month's display label and its total. */
  datatype Bar = Bar(month: string, amount: real)

  /** What the totals are grouped by: the category, or the first seven characters of the date. */
  datatype Grouping = ByCategory | ByMonth

  function KeyOf(g: Grouping, e: Expense): string
  {
    match g
    case ByCategory => e.category
    case ByMonth => MonthKey(e.date)
  }

  predicate InGroup(e: Expense, gk: (Grouping, string)) { KeyOf(gk.0, e) == gk.1 }

  function Value(e: Entry): real { e.value }

  function EntryKey(e: Entry): string { e.key }

  function Keys(es: seq<Entry>): seq<string> { Map(es, EntryKey) }

  function KeysOf(xs: seq<Expense>, g: Grouping): seq<string> { Map(xs, e => KeyOf(g, e)) }

  /** `acc[key] || 0`: the value stored under `key`, or 0 when there is none. */
  function Lookup(es: seq<Entry>, key: string): real
  {
    if es == [] then 0.0
    else if es[0].key == key then es[0].value
    else Lookup(es[1..], key)
  }

  /** `acc[key] = (acc[key] || 0) + amount`: update the entry in place, or add it at the end. */
  function AddTo(acc: seq<Entry>, key: string, amount: real): seq<Entry>
  {
    if acc == [] then [Entry(key, amount)]
    else if acc[0].key == key then [Entry(key, acc[0].value + amount)] + acc[1..]
    else [acc[0]] + AddTo(acc[1..], key, amount)
  }

  /** The `reduce` that builds `categoryData` (by category) or `monthlyData` (by month). */
  function Totals(xs: seq<Expense>, g: Grouping): seq<Entry>
  {
    if xs == [] then []
    else
      var last := xs[|xs| - 1];
      AddTo(Totals(xs[..|xs| - 1], g), KeyOf(g, last), last.amount)
  }

  function CategoryData(xs: seq<Expense>): seq<Entry> { Totals(xs, ByCategory) }

  function MonthlyData(xs: seq<Expense>): seq<Entry> { Totals(xs, ByMonth) }

  lemma {:induction false} AddToKeys(acc: seq<Entry>, key: string, amount: real)
    ensures Keys(AddTo(acc, key, amount)) == if key in Keys(acc) then Keys(acc) else Keys(acc) + [key]
  {
    if acc != [] {
      assert Keys(acc) == [acc[0].key] + Keys(acc[1..]);
      if acc[0].key != key {
        AddToKeys(acc[1..], key, amount);
        assert Keys(AddTo(acc, key, amount)) == [acc[0].key] + Keys(AddTo(acc[1..], key, amount));
      } else {
        assert Keys(AddTo(acc, key, amount)) == [key] + Keys(acc[1..]);
      }
    }
  }

  lemma {:induction false} AddToLookup(acc: seq<Entry>, key: string, amount: real, k: string)
    ensures Lookup(AddTo(acc, key, amount), k) == Lookup(acc, k) + (if k == key then amount else 0.0)
  {
    if acc != [] && acc[0].key != key {
      AddToLookup(acc[1..], key, amount, k);
      assert AddTo(acc, key, amount)[1..] == AddTo(acc[1..], key, amount);
    } else if acc != [] {
      assert AddTo(acc, key, amount)[1..] == acc[1..];
    }
  }

  lemma {:induction false} AddToSum(acc: seq<Entry>, key: string, amount: real)
    ensures SumOf(AddTo(acc, key, amount), Value) == SumOf(acc, Value) + amount
  {
    if acc != [] && acc[0].key != key {
      AddToSum(acc[1..], key, amount);
      assert AddTo(acc, key, amount)[1..] == AddTo(acc[1..], key, amount);
    } else if acc != [] {
      assert AddTo(acc, key, amount)[1..] == acc[1..];
    }
  }

  /** The keys are the distinct categories (or months) of the expenses, each once, in first-appearance order. */
  lemma {:induction false} TotalsKeys(xs: seq<Expense>, g: Grouping)
    ensures Keys(Totals(xs, g)) == Distinct(KeysOf(xs, g))
  {
    if xs != [] {
      var n := |xs| - 1;
      var ks := KeysOf(xs, g);
      TotalsKeys(xs[..n], g);
      assert ks[..n] == KeysOf(xs[..n], g);
      assert ks[n] == KeyOf(g, xs[n]);
      assert forall k :: k in Distinct(ks[..n]) <==> k in ks[..n];
      AddToKeys(Totals(xs[..n], g), KeyOf(g, xs[n]), xs[n].amount);
    }
  }

  /** The value under each key is the sum of the amounts of the expenses with that key. */
  lemma {:induction false} TotalsLookup(xs: seq<Expense>, g: Grouping, key: string)
    ensures Lookup(Totals(xs, g), key) == SumAmounts(Filter(xs, InGroup, (g, key)))
  {
    if xs != [] {
      var n := |xs| - 1;
      TotalsLookup(xs[..n], g, key);
      AddToLookup(Totals(xs[..n], g), KeyOf(g, xs[n]), xs[n].amount, key);
      FilterSumLast(xs, InGroup, (g, key), Amount);
    }
  }

  /** The totals add up to the sum of all amounts: nothing is lost or counted twice. */
  lemma {:induction false} TotalsSum(xs: seq<Expense>, g: Grouping)
    ensures SumOf(Totals(xs, g), Value) == SumAmounts(xs)
  {
    if xs != [] {
      var n := |xs| - 1;
      TotalsSum(xs[..n], g);
      AddToSum(Totals(xs[..n], g), KeyOf(g, xs[n]), xs[n].amount);
      assert xs == xs[..n] + [xs[n]];
      SumAppend(xs[..n], [xs[n]], Amount);
    }
  }

  /** `totalSpent`. */
  function TotalSpent(xs: seq<Expense>): real { SumAmounts(xs) }

  /** `categoryData`: one entry per category present, holding that category's total, adding up to `totalSpent`. */
  lemma CategoryDataIsPerCategoryTotal(xs: seq<Expense>, c: string)
    ensures Keys(CategoryData(xs)) == Distinct(KeysOf(xs, ByCategory))
    ensures (c in Keys(CategoryData(xs))) <==> exists i :: 0 <= i < |xs| && xs[i].category == c
    ensures Lookup(CategoryData(xs), c) == SumAmounts(Filter(xs, InCategory, c))
    ensures SumOf(CategoryData(xs), Value) == TotalSpent(xs)
  {
    TotalsKeys(xs, ByCategory);
    var ks := KeysOf(xs, ByCategory);
    if c in Keys(CategoryData(xs)) {
      var i :| 0 <= i < |ks| && ks[i] == c;
      assert xs[i].category == c;
    }
    if exists i :: 0 <= i < |xs| && xs[i].category == c {
      var i :| 0 <= i < |xs| && xs[i].category == c;
      assert ks[i] == c;
    }
    TotalsLookup(xs, ByCategory, c);
    FilterSameTest(xs, InGroup, (ByCategory, c), InCategory, c);
    TotalsSum(xs, ByCategory);
  }

  /** `monthlyData`: totals keyed by `date.slice(0, 7)`, adding up to `totalSpent`. */
  lemma MonthlyDataIsPerMonthTotal(xs: seq<Expense>, month: string)
    ensures Keys(MonthlyData(xs)) == Distinct(KeysOf(xs, ByMonth))
    ensures Lookup(MonthlyData(xs), month) == SumAmounts(Filter(xs, InGroup, (ByMonth, month)))
    ensures SumOf(MonthlyData(xs), Value) == TotalSpent(xs)
  {
    TotalsKeys(xs, ByMonth);
    TotalsLookup(xs, ByMonth, month);
    TotalsSum(xs, ByMonth);
  }

  /** The header's "This Month" figure equals the trend data for the current month. */
  lemma MonthlyTotalMatchesMonthlyData(xs: seq<Expense>, currentMonth: string)
    requires |currentMonth| == 7
    ensures IndexPage.MonthlyTotal(xs, currentMonth) == Lookup(MonthlyData(xs), currentMonth)
  {
    forall i | 0 <= i < |xs| ensures InMonth(xs[i], currentMonth) <==> InGroup(xs[i], (ByMonth, currentMonth)) {
      InMonthIffMonthKey(xs[i], currentMonth);
    }
    FilterSameTest(xs, InMonth, currentMonth, InGroup, (ByMonth, currentMonth));
    TotalsLookup(xs, ByMonth, currentMonth);
  }

  /** The pie order, from `(a, b) => b.value - a.value`: larger totals first. */
  predicate LargerFirst(a: Entry, b: Entry, u: ()) { b.value - a.value <= 0.0 }

  /** `pieData`. */
  function PieData(xs: seq<Expense>): seq<Entry>
  {
    SortBy(CategoryData(xs), LargerFirst, ())
  }

  /** The pie has one slice per category present, the same slices as `categoryData`, largest first. */
  lemma PieDataOrdered(xs: seq<Expense>)
    ensures multiset(PieData(xs)) == multiset(CategoryData(xs))
    ensures |PieData(xs)| == |Distinct(KeysOf(xs, ByCategory))|
    ensures forall i, j :: 0 <= i < j < |PieData(xs)| ==> PieData(xs)[i].value >= PieData(xs)[j].value
  {
    TotalsKeys(xs, ByCategory);
    assert |multiset(PieData(xs))| == |multiset(CategoryData(xs))|;
    SortBySorted(CategoryData(xs), LargerFirst, ());
  }

  /** The trend order, from `(a, b) => a.month.localeCompare(b.month)` on the month labels. */
  predicate LabelOrder(a: Bar, b: Bar, localeCompare: (string, string) -> int)
  {
    localeCompare(a.month, b.month) <= 0
  }

  /** The month entries as bars, each labelled by `monthLabel` (the source's `toLocaleDateString`). */
  function MonthBars(es: seq<Entry>, monthLabel: string -> string): (r: seq<Bar>)
    ensures |r| == |es|
  {
    seq(|es|, i requires 0 <= i < |es| => Bar(monthLabel(es[i].key), es[i].value))
  }

  /** `slice(-6)`. */
  function LastSix<T>(s: seq<T>): seq<T>
  {
    if |s| <= 6 then s else s[|s| - 6..]
  }

  /** All the month bars, sorted by label. */
  function SortedBars(xs: seq<Expense>, monthLabel: string -> string, localeCompare: (string, string) -> int): seq<Bar>
  {
    SortBy(MonthBars(MonthlyData(xs), monthLabel), LabelOrder, localeCompare)
  }

  /** `barData`. */
  function BarData(xs: seq<Expense>, monthLabel: string -> string, localeCompare: (string, string) -> int): seq<Bar>
  {
    LastSix(SortedBars(xs, monthLabel, localeCompare))
  }

  /** At most six bars: the last ones of the sorted month list, one per month while there are six months or fewer. */
  lemma BarDataIsLastSix(xs: seq<Expense>, monthLabel: string -> string, localeCompare: (string, string) -> int)
    ensures var all := SortedBars(xs, monthLabel, localeCompare);
      && |all| == |Distinct(KeysOf(xs, ByMonth))|
      && |BarData(xs, monthLabel, localeCompare)| == (if |all| < 6 then |all| else 6)
      && BarData(xs, monthLabel, localeCompare) == all[|all| - |BarData(xs, monthLabel, localeCompare)|..]
  {
    TotalsKeys(xs, ByMonth);
    var all := SortedBars(xs, monthLabel, localeCompare);
    assert |multiset(all)| == |multiset(MonthBars(MonthlyData(xs), monthLabel))|;
  }

  /** When the label comparator is a total preorder, the bars come out in label order. */
  lemma BarDataOrdered(xs: seq<Expense>, monthLabel: string -> string, localeCompare: (string, string) -> int)
    requires TotalPreorder(LabelOrder, localeCompare)
    ensures forall i, j :: 0 <= i < j < |BarData(xs, monthLabel, localeCompare)| ==>
      localeCompare(BarData(xs, monthLabel, localeCompare)[i].month, BarData(xs, monthLabel, localeCompare)[j].month) <= 0
  {
    var all := SortedBars(xs, monthLabel, localeCompare);
    SortBySorted(MonthBars(MonthlyData(xs), monthLabel), LabelOrder, localeCompare);
    var b := BarData(xs, monthLabel, localeCompare);
    var d := |all| - |b|;
    forall i, j | 0 <= i < j < |b| ensures LabelOrder(b[i], b[j], localeCompare) {
      assert b[i] == all[d + i] && b[j] == all[d + j];
    }
  }

  /** What the analytics tab renders. */
  datatype Analytics =
    | NoExpenses
    | Charts(pie: seq<Entry>, bars: seq<Bar>, showTrend: bool, totalSpent: real)

  function AnalyticsView(xs: seq<Expense>, monthLabel: string -> string, localeCompare: (string, string) -> int): (v: Analytics)
    ensures v.NoExpenses? <==> xs == []
  {
    if |xs| == 0 then NoExpenses
    else
      var bars := BarData(xs, monthLabel, localeCompare);
      Charts(PieData(xs), bars, |bars| > 1, TotalSpent(xs))
  }

  lemma {:induction false} DistinctHasTwo(ks: seq<string>)
    ensures |Distinct(ks)| > 1 <==> exists i, j :: 0 <= i < |ks| && 0 <= j < |ks| && ks[i] != ks[j]
  {
    var d := Distinct(ks);
    if |d| > 1 {
      assert d[0] in ks && d[1] in ks && d[0] != d[1];
      var i :| 0 <= i < |ks| && ks[i] == d[0];
      var j :| 0 <= j < |ks| && ks[j] == d[1];
    }
    if exists i, j :: 0 <= i < |ks| && 0 <= j < |ks| && ks[i] != ks[j] {
      var i, j :| 0 <= i < |ks| && 0 <= j < |ks| && ks[i] != ks[j];
      assert ks[i] in d && ks[j] in d;
    }
  }

  /** Some two expenses fall in different months. */
  predicate SpansTwoMonths(xs: seq<Expense>)
  {
    exists i, j :: 0 <= i < |xs| && 0 <= j < |xs| && MonthKey(xs[i].date) != MonthKey(xs[j].date)
  }

  lemma MonthCountAboveOne(xs: seq<Expense>)
    ensures |Distinct(KeysOf(xs, ByMonth))| > 1 <==> SpansTwoMonths(xs)
  {
    var ks := KeysOf(xs, ByMonth);
    DistinctHasTwo(ks);
    if SpansTwoMonths(xs) {
      var i, j :| 0 <= i < |xs| && 0 <= j < |xs| && MonthKey(xs[i].date) != MonthKey(xs[j].date);
      assert ks[i] != ks[j];
    }
    if exists i, j :: 0 <= i < |ks| && 0 <= j < |ks| && ks[i] != ks[j] {
      var i, j :| 0 <= i < |ks| && 0 <= j < |ks| && ks[i] != ks[j];
      assert MonthKey(xs[i].date) != MonthKey(xs[j].date);
    }
  }

  /**
   * The empty state is shown exactly for an empty list; otherwise the pie always has a slice and
   * the trend chart is shown exactly when the expenses span at least two months.
   */
  lemma AnalyticsShowsTrendForTwoMonths(xs: seq<Expense>, monthLabel: string -> string, localeCompare: (string, string) -> int)
    ensures AnalyticsView(xs, monthLabel, localeCompare).NoExpenses? <==> |xs| == 0
    ensures |xs| > 0 ==> |AnalyticsView(xs, monthLabel, localeCompare).pie| > 0
    ensures |xs| > 0 ==> (AnalyticsView(xs, monthLabel, localeCompare).showTrend <==> SpansTwoMonths(xs))
  {
    if |xs| > 0 {
      PieDataOrdered(xs);
      assert KeysOf(xs, ByCategory)[0] in Distinct(KeysOf(xs, ByCategory));
      BarDataIsLastSix(xs, monthLabel, localeCompare);
      MonthCountAboveOne(xs);
    }
  }
}
