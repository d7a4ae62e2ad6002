/** The expense record every component shares, and the tests and sums they apply to it. */
module Expenses {
  import opened Seqs

  /**
   * One recorded expense. `date` is `YYYY-MM-DD` text; `amount` is the exact value of the
   * JavaScript number (finite, any sign).
   */
  datatype Expense = Expense(id: string, date: string, amount: real, category: string, description: string)

  function Amount(e: Expense): real { e.amount }

  function Category(e: Expense): string { e.category }

  /** `e.date.startsWith(month)`. */
  predicate InMonth(e: Expense, month: string) { month <= e.date }

  predicate InCategory(e: Expense, category: string) { e.category == category }

  /** `date.slice(0, 7)`: the `YYYY-MM` part of a date. */
  function MonthKey(date: string): string
  {
    if |date| <= 7 then date else date[..7]
  }

  /** `xs.reduce((sum, e) => sum + e.amount, 0)`. */
  function SumAmounts(xs: seq<Expense>): real { SumOf(xs, Amount) }

  /** The expenses dated in `month`. */
  function MonthExpenses(xs: seq<Expense>, month: string): seq<Expense>
  {
    Filter(xs, InMonth, month)
  }

  /** For a seven-character month, "starts with the month" and "has that month key" agree. */
  lemma InMonthIffMonthKey(e: Expense, month: string)
    requires |month| == 7
    ensures InMonth(e, month) <==> MonthKey(e.date) == month
  {
    if InMonth(e, month) {
      assert e.date[..7] == month;
    }
  }
}
