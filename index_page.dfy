/**
 * The page that owns the expense list (`src/pages/Index.tsx`): adding prepends, deleting filters
 * by id, and the header cards show this month's total, the all-time total, this month's number of
 * transactions and the three most recent expenses.
 */
module IndexPage {
  import opened Seqs
  import opened Expenses

  predicate HasOtherId(e: Expense, id: string) { e.id != id }

  /** `expenses.filter(e => e.id !== id)`. */
  function WithoutId(xs: seq<Expense>, id: string): seq<Expense>
  {
    Filter(xs, HasOtherId, id)
  }

  class Page {
    var expenses: seq<Expense>

    /** The initial, empty list (reading the saved list from local storage is not modelled). */
    constructor()
      ensures expenses == []
    {
      expenses := [];
    }

    /** `handleAddExpense`: the new expense goes in front of the previous list. */
    method AddExpense(e: Expense)
      modifies this
      ensures expenses == [e] + old(expenses)
      ensures expenses[0] == e && expenses[1..] == old(expenses)
    {
      expenses := [e] + expenses;
    }

    /** `handleDeleteExpense`: every expense with this id goes, the rest stay in order. */
    method DeleteExpense(id: string)
      modifies this
      ensures expenses == WithoutId(old(expenses), id)
      ensures |expenses| <= |old(expenses)|
    {
      expenses := WithoutId(expenses, id);
    }
  }

  /**
   * Delete drops exactly the expenses carrying `id` and keeps every other one, as many times as it
   * occurs, in its order.
   */
  lemma DeleteRemovesExactly(xs: seq<Expense>, id: string)
    ensures forall i :: 0 <= i < |WithoutId(xs, id)| ==> WithoutId(xs, id)[i].id != id
    ensures forall i :: 0 <= i < |xs| && xs[i].id != id ==> xs[i] in WithoutId(xs, id)
    ensures forall e :: e in WithoutId(xs, id) ==> e in xs
    ensures IsSubsequence(WithoutId(xs, id), xs)
    ensures forall e :: multiset(WithoutId(xs, id))[e] == if e.id != id then multiset(xs)[e] else 0
  {
    FilterIsSubsequence(xs, HasOtherId, id);
    FilterCounts(xs, HasOtherId, id);
  }

  /** Deleting an id that no expense has leaves the list as it was. */
  lemma DeleteAbsentIsNoop(xs: seq<Expense>, id: string)
    requires forall i :: 0 <= i < |xs| ==> xs[i].id != id
    ensures WithoutId(xs, id) == xs
  {
    FilterKeepsAll(xs, HasOtherId, id);
  }

  /** Deleting the same id twice is deleting it once. */
  lemma DeleteTwiceIsDeleteOnce(xs: seq<Expense>, id: string)
    ensures WithoutId(WithoutId(xs, id), id) == WithoutId(xs, id)
  {
    FilterIdempotent(xs, HasOtherId, id);
  }

  /** Adding an expense whose id is new and then deleting that id restores the list. */
  lemma AddThenDeleteRestores(xs: seq<Expense>, e: Expense)
    requires forall i :: 0 <= i < |xs| ==> xs[i].id != e.id
    ensures WithoutId([e] + xs, e.id) == xs
  {
    assert ([e] + xs)[1..] == xs;
    FilterKeepsAll(xs, HasOtherId, e.id);
  }

  /** "This Month": the sum of the amounts dated in the current month. */
  function MonthlyTotal(xs: seq<Expense>, currentMonth: string): real
  {
    SumAmounts(MonthExpenses(xs, currentMonth))
  }

  /** "All Time Total". */
  function TotalExpenses(xs: seq<Expense>): real
  {
    SumAmounts(xs)
  }

  /** With no negative amounts, this month's total never exceeds the all-time total. */
  lemma MonthlyAtMostTotal(xs: seq<Expense>, currentMonth: string)
    requires forall i :: 0 <= i < |xs| ==> xs[i].amount >= 0.0
    ensures MonthlyTotal(xs, currentMonth) <= TotalExpenses(xs)
  {
    SumFilterAtMost(xs, InMonth, currentMonth, Amount);
  }

  /** "Transactions" this month: how many expenses are dated in the current month. */
  function MonthTransactionCount(xs: seq<Expense>, currentMonth: string): (n: nat)
    ensures n <= |xs|
    ensures n == 0 ==> MonthlyTotal(xs, currentMonth) == 0.0
  {
    |MonthExpenses(xs, currentMonth)|
  }

  /** The "Recent Expenses" card is shown only for a non-empty list. */
  predicate ShowRecent(xs: seq<Expense>) { |xs| > 0 }

  /** `expenses.slice(0, 3)`: the first three expenses, or all of them when there are fewer. */
  function Recent(xs: seq<Expense>): (r: seq<Expense>)
    ensures |r| == if |xs| < 3 then |xs| else 3
    ensures r <= xs
  {
    if |xs| <= 3 then xs else xs[..3]
  }

  /** Right after an expense is added, it heads the recent panel, which is then shown. */
  lemma AddedExpenseIsMostRecent(xs: seq<Expense>, e: Expense)
    ensures ShowRecent([e] + xs)
    ensures Recent([e] + xs)[0] == e
    ensures Recent([e] + xs)[1..] == Recent(xs)[..|Recent([e] + xs)| - 1]
  {
  }
}
