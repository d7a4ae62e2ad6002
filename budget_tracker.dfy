/**
 * The budget table (`src/components/BudgetTracker.tsx`): six default category budgets, their
 * `spent` recomputed from the current month's expenses, limit editing with validation, a
 * three-way status per budget and the overall totals.
 */
module BudgetTracker {
  import opened Wrappers
  import opened Seqs
  import opened Text
  import opened Expenses

  datatype Budget = Budget(category: string, limit: real, spent: real)

  datatype Status = OverBudget | NearLimit | OnTrack

  const DefaultCategories: seq<string> :=
    ["Food & Dining", "Transportation", "Housing & Rent", "Utilities", "Shopping", "Entertainment"]

  const DefaultLimit: real := 500.0

  function BudgetCategory(b: Budget): string { b.category }

  function Limit(b: Budget): real { b.limit }

  function Spent(b: Budget): real { b.spent }

  /** The category column of the table, top to bottom. */
  function Categories(bs: seq<Budget>): seq<string>
  {
    Map(bs, BudgetCategory)
  }

  predicate LimitsPositive(bs: seq<Budget>)
  {
    forall i :: 0 <= i < |bs| ==> bs[i].limit > 0.0
  }

  /** The budgets the initialising effect installs: one per default category. */
  function DefaultBudgets(): seq<Budget>
  {
    seq(|DefaultCategories|, i requires 0 <= i < |DefaultCategories| =>
      Budget(DefaultCategories[i], DefaultLimit, 0.0))
  }

  /** The amount spent this month in `category`: the current-month expenses of exactly that category. */
  function SpentIn(xs: seq<Expense>, currentMonth: string, category: string): real
  {
    SumAmounts(Filter(MonthExpenses(xs, currentMonth), InCategory, category))
  }

  /** The recomputation effect: each budget's `spent` from the expenses, nothing else touched. */
  function WithSpent(bs: seq<Budget>, xs: seq<Expense>, currentMonth: string): seq<Budget>
  {
    seq(|bs|, i requires 0 <= i < |bs| => bs[i].(spent := SpentIn(xs, currentMonth, bs[i].category)))
  }

  /** The update `handleSaveBudget` applies once the new limit is accepted. */
  function WithLimit(bs: seq<Budget>, category: string, limit: real): seq<Budget>
  {
    seq(|bs|, i requires 0 <= i < |bs| => if bs[i].category == category then bs[i].(limit := limit) else bs[i])
  }

  /**
   * `getBudgetStatus`, following JavaScript's division: x/0 is Infinity for x > 0 and NaN for 0.
   * For a positive limit the three statuses are exclusive and cover every case: over budget from
   * the limit on, near the limit from 80% of it, on track below that.
   */
  function BudgetStatus(b: Budget): (s: Status)
    ensures b.limit > 0.0 ==> (s == OverBudget <==> b.spent >= b.limit)
    ensures b.limit > 0.0 ==> (s == NearLimit <==> 0.8 * b.limit <= b.spent < b.limit)
    ensures b.limit > 0.0 ==> (s == OnTrack <==> b.spent < 0.8 * b.limit)
  {
    if b.limit == 0.0 then (if b.spent > 0.0 then OverBudget else OnTrack)
    else
      var ratio := b.spent / b.limit;
      assert b.limit > 0.0 ==> (ratio >= 1.0 <==> b.spent >= b.limit) && (ratio >= 0.8 <==> b.spent >= 0.8 * b.limit) by {
        if b.limit > 0.0 {
          assert ratio * b.limit == b.spent;
          assert ratio >= 1.0 <==> b.spent >= b.limit;
          assert ratio >= 0.8 <==> b.spent >= 0.8 * b.limit;
        }
      }
      var percentage := ratio * 100.0;
      if percentage >= 100.0 then OverBudget
      else if percentage >= 80.0 then NearLimit
      else OnTrack
  }

  function TotalBudget(bs: seq<Budget>): real { SumOf(bs, Limit) }

  function TotalSpent(bs: seq<Budget>): real { SumOf(bs, Spent) }

  /** The overall bar: spent as a percentage of the total budget, 0 when there is no budget. */
  function OverallPercentage(bs: seq<Budget>): (p: real)
    ensures TotalBudget(bs) <= 0.0 ==> p == 0.0
    ensures TotalBudget(bs) > 0.0 ==> p * TotalBudget(bs) == TotalSpent(bs) * 100.0
  {
    if TotalBudget(bs) > 0.0 then TotalSpent(bs) / TotalBudget(bs) * 100.0 else 0.0
  }

  /** The initial table: the six default categories in order, each with limit 500 and nothing spent. */
  lemma DefaultBudgetsShape()
    ensures Categories(DefaultBudgets()) == DefaultCategories
    ensures |DefaultBudgets()| == 6
    ensures forall i :: 0 <= i < 6 ==> DefaultBudgets()[i].limit == 500.0 && DefaultBudgets()[i].spent == 0.0
    ensures LimitsPositive(DefaultBudgets())
    ensures TotalBudget(DefaultBudgets()) == 3000.0 && TotalSpent(DefaultBudgets()) == 0.0
    ensures OverallPercentage(DefaultBudgets()) == 0.0
  {
    var d := DefaultBudgets();
    assert d[1..][1..][1..][1..][1..][1..] == [];
  }

  /** Recomputation changes only `spent`: categories, limits, order and length stay. */
  lemma RecomputeKeepsRows(bs: seq<Budget>, xs: seq<Expense>, currentMonth: string)
    ensures |WithSpent(bs, xs, currentMonth)| == |bs|
    ensures Categories(WithSpent(bs, xs, currentMonth)) == Categories(bs)
    ensures forall i :: 0 <= i < |bs| ==>
      WithSpent(bs, xs, currentMonth)[i].limit == bs[i].limit &&
      WithSpent(bs, xs, currentMonth)[i].spent == SpentIn(xs, currentMonth, bs[i].category)
    ensures LimitsPositive(bs) ==> LimitsPositive(WithSpent(bs, xs, currentMonth))
  {
  }

  /** Recomputing twice from the same expenses is recomputing once. */
  lemma RecomputeIdempotent(bs: seq<Budget>, xs: seq<Expense>, currentMonth: string)
    ensures WithSpent(WithSpent(bs, xs, currentMonth), xs, currentMonth) == WithSpent(bs, xs, currentMonth)
  {
  }

  /** With no negative amounts, a budget's `spent` is at most this month's total. */
  lemma SpentAtMostMonthlyTotal(xs: seq<Expense>, currentMonth: string, category: string)
    requires forall i :: 0 <= i < |xs| ==> xs[i].amount >= 0.0
    ensures 0.0 <= SpentIn(xs, currentMonth, category) <= SumAmounts(MonthExpenses(xs, currentMonth))
  {
    var m := MonthExpenses(xs, currentMonth);
    forall i | 0 <= i < |m| ensures m[i].amount >= 0.0 {
      assert m[i] in xs;
    }
    SumFilterAtMost(m, InCategory, category, Amount);
    NonNegativeSum(Filter(m, InCategory, category));
  }

  lemma {:induction false} NonNegativeSum(xs: seq<Expense>)
    requires forall i :: 0 <= i < |xs| ==> xs[i].amount >= 0.0
    ensures SumAmounts(xs) >= 0.0
  {
    if xs != [] {
      NonNegativeSum(xs[1..]);
    }
  }

  /** Saving a limit touches only the rows of that category, and only their limit. */
  lemma SaveChangesOnlyMatching(bs: seq<Budget>, category: string, limit: real)
    ensures |WithLimit(bs, category, limit)| == |bs|
    ensures Categories(WithLimit(bs, category, limit)) == Categories(bs)
    ensures forall i :: 0 <= i < |bs| && bs[i].category != category ==> WithLimit(bs, category, limit)[i] == bs[i]
    ensures forall i :: 0 <= i < |bs| && bs[i].category == category ==>
      WithLimit(bs, category, limit)[i] == Budget(category, limit, bs[i].spent)
    ensures LimitsPositive(bs) && limit > 0.0 ==> LimitsPositive(WithLimit(bs, category, limit))
  {
  }

  /** Saving the same limit twice gives the same table as saving it once. */
  lemma SaveIdempotent(bs: seq<Budget>, category: string, limit: real)
    ensures WithLimit(WithLimit(bs, category, limit), category, limit) == WithLimit(bs, category, limit)
  {
  }

  /** With one row per category, saving moves the total budget by exactly the change of that row's limit. */
  lemma {:induction false} SaveTotalBudget(bs: seq<Budget>, k: nat, limit: real)
    requires k < |bs|
    requires forall i :: 0 <= i < |bs| && i != k ==> bs[i].category != bs[k].category
    ensures TotalBudget(WithLimit(bs, bs[k].category, limit)) == TotalBudget(bs) - bs[k].limit + limit
  {
    var c := bs[k].category;
    var r := WithLimit(bs, c, limit);
    assert r[0] == if bs[0].category == c then bs[0].(limit := limit) else bs[0];
    assert r[1..] == WithLimit(bs[1..], c, limit);
    if k == 0 {
      assert forall i :: 0 <= i < |bs[1..]| ==> bs[1..][i].category != c;
      assert WithLimit(bs[1..], c, limit) == bs[1..];
    } else {
      SaveTotalBudget(bs[1..], k - 1, limit);
    }
  }

  /** Spending exactly the limit is over budget; 80% is near the limit; 79% is on track. */
  lemma StatusBoundaries(category: string)
    ensures BudgetStatus(Budget(category, 100.0, 100.0)) == OverBudget
    ensures BudgetStatus(Budget(category, 100.0, 80.0)) == NearLimit
    ensures BudgetStatus(Budget(category, 100.0, 79.0)) == OnTrack
  {
  }

  /** A non-empty table of positive limits has a positive total budget. */
  lemma {:induction false} PositiveTotalBudget(bs: seq<Budget>)
    requires |bs| > 0 && LimitsPositive(bs)
    ensures TotalBudget(bs) > 0.0
  {
    assert TotalBudget(bs) == bs[0].limit + TotalBudget(bs[1..]);
    if |bs| > 1 {
      PositiveTotalBudget(bs[1..]);
    } else {
      assert bs[1..] == [];
    }
  }

  class Tracker {
    var budgets: seq<Budget>
    var editingBudget: Option<string>
    var tempLimit: string

    /**
     * Every limit is positive, the rows are the six default categories, in order, and the typed
     * limit is what a number input can report: a valid number or the empty text.
     */
    ghost predicate Valid()
      reads this
    {
      LimitsPositive(budgets) && Categories(budgets) == DefaultCategories &&
      (tempLimit == "" || IsNumberText(tempLimit))
    }

    /**
     * Mounting: the initialising effect installs the default budgets, then the recomputation
     * effect fills in what was spent this month.
     */
    constructor(expenses: seq<Expense>, currentMonth: string)
      ensures Valid()
      ensures budgets == WithSpent(DefaultBudgets(), expenses, currentMonth)
      ensures editingBudget == None && tempLimit == ""
    {
      DefaultBudgetsShape();
      RecomputeKeepsRows(DefaultBudgets(), expenses, currentMonth);
      budgets := DefaultBudgets();
      editingBudget := None;
      tempLimit := "";
      new;
      budgets := WithSpent(budgets, expenses, currentMonth);
    }

    /** The effect that runs whenever the expense list changes. */
    method RecomputeSpent(expenses: seq<Expense>, currentMonth: string)
      requires Valid()
      modifies this
      ensures Valid()
      ensures budgets == WithSpent(old(budgets), expenses, currentMonth)
      ensures editingBudget == old(editingBudget) && tempLimit == old(tempLimit)
    {
      RecomputeKeepsRows(budgets, expenses, currentMonth);
      budgets := WithSpent(budgets, expenses, currentMonth);
    }

    /**
     * `handleEditBudget`: opens the row for editing with the current limit as text
     * (the caller passes the limit's `toString()`, which for a finite number is number text).
     */
    method EditBudget(category: string, currentLimitText: string)
      requires Valid() && IsNumberText(currentLimitText)
      modifies this
      ensures Valid()
      ensures editingBudget == Some(category) && tempLimit == currentLimitText
      ensures budgets == old(budgets)
    {
      editingBudget := Some(category);
      tempLimit := currentLimitText;
    }

    /** Typing in the limit input: the number input reports a valid number or the empty text. */
    method SetTempLimit(text: string)
      requires Valid()
      modifies this
      ensures Valid()
      ensures tempLimit == SanitizeNumberInput(text)
      ensures budgets == old(budgets) && editingBudget == old(editingBudget)
    {
      tempLimit := SanitizeNumberInput(text);
    }

    /** The Cancel button: closes the editor, keeping the typed text. */
    method CancelEdit()
      requires Valid()
      modifies this
      ensures Valid()
      ensures editingBudget == None && tempLimit == old(tempLimit) && budgets == old(budgets)
    {
      editingBudget := None;
    }

    /**
     * `handleSaveBudget`: a limit that reads as NaN or is not positive is refused and nothing
     * changes; otherwise that category's limit is replaced and the editor is cleared.
     */
    method SaveBudget(category: string) returns (saved: bool)
      requires Valid()
      modifies this
      ensures Valid()
      ensures saved <==> ParseNumber(old(tempLimit)).Some? && ParseNumber(old(tempLimit)).value > 0.0
      ensures !saved ==>
        budgets == old(budgets) && editingBudget == old(editingBudget) && tempLimit == old(tempLimit)
      ensures saved ==>
        budgets == WithLimit(old(budgets), category, ParseNumber(old(tempLimit)).value) &&
        editingBudget == None && tempLimit == ""
    {
      var newLimit := ParseNumber(tempLimit);
      if newLimit.None? || newLimit.value <= 0.0 {
        return false;
      }
      SaveChangesOnlyMatching(budgets, category, newLimit.value);
      budgets := WithLimit(budgets, category, newLimit.value);
      editingBudget := None;
      tempLimit := "";
      saved := true;
    }
  }
}
