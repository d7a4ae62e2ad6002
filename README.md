# Expense tracker core, modelled in Dafny

This project models the logic of a client-side personal expense tracker written in React. A single page
owns an ordered list of expenses (`id`, `date` as `YYYY-MM-DD`, `amount`, `category`, `description`). New
expenses go in front and deletion is by id. Four views derive everything else from the list:

- a budget table with six default categories and editable limits;
- a history view with search, category filter, a four-key stable sort and CSV export;
- analytics charts with per-category and per-month totals;
- an add-expense form.

Modules follow the source files:

| module | file | models |
|---|---|---|
| `IndexPage` | `index_page.dfy` | `src/pages/Index.tsx`: the `Page` class owning `expenses`; the monthly and all-time totals, the month's transaction count, the recent-three panel |
| `BudgetTracker` | `budget_tracker.dfy` | `src/components/BudgetTracker.tsx`: the `Tracker` class (`budgets`, `editingBudget`, `tempLimit`), the pure update functions behind its effects, `getBudgetStatus` and the totals |
| `ExpenseList` | `expense_list.dfy` | `src/components/ExpenseList.tsx`: filter, sort, categories menu, CSV text, total of the shown list |
| `ExpenseChart` | `expense_chart.dfy` | `src/components/ExpenseChart.tsx`: `categoryData`/`pieData`, `monthlyData`/`barData`, `totalSpent`, the empty state and when the trend chart shows |
| `ExpenseForm` | `expense_form.dfy` | `src/components/ExpenseForm.tsx`: the `Form` class with four fields and `Submit` |
| `Expenses` | `expense.dfy` | the shared `Expense` record, "date starts with month", the `YYYY-MM` key, sums of amounts |
| `Seqs`, `Sorting`, `Text`, `Wrappers` | `seqs.dfy`, `sorting.dfy`, `text.dfy`, `wrappers.dfy` | `filter`/`reduce`/distinct values, a stable insertion sort, string helpers and number-input parsing, `Option` |

Modelling choices:

- Amounts are exact `real`s. A JavaScript number never becomes NaN or Infinity here, except where the source
  divides by a zero limit (`BudgetStatus` follows JavaScript for that case).
- The wall clock is a parameter. The current month (`YYYY-MM`), the new expense's id and today's date are
  passed in.
- Well-formed ISO dates are compared as strings (`Text.LexLess`). For `YYYY-MM-DD` this is chronological
  order, which is what `new Date(d).getTime()` gives in the sort comparator.
- `parseFloat` is `Text.ParseNumber`. It reads the text a number input can hold, which is HTML's
  valid floating-point number: an optional `-`, then digits, digits `.` digits, or `.` digits, then
  optionally `e` or `E`, an optional `+` or `-` and digits. The value is exact: the significand times
  ten to the exponent. It returns `None` where `parseFloat` returns NaN.
- The source's JavaScript objects `categoryData` and `monthlyData` are insertion-ordered entry sequences.
  That is the order `Object.entries` returns for non-numeric keys.
- Two printed forms are parameters: the number-to-text conversion used in the CSV, and the month label.
  The `localeCompare` order of the labels is a comparator parameter too.
- State that the source changes in place is a class: the page's list, the budget table's state and the form
  fields. Each method's `ensures` ties the new state to a pure function of the old state. The lemmas are
  stated about those functions.

Three behaviours of the code differ from what one might expect; the model follows the code:

- The CSV export serialises the whole stored list, not the filtered and sorted view.
- Submitting the form checks only that amount and category are non-empty. A negative or zero amount is
  accepted (`ExpenseForm.NegativeAmountAccepted`).
- Trend bars are ordered by their display label, not chronologically. `slice(-6)` then keeps the last six
  labels in that order.

## Model

| member | source | states |
|---|---|---|
| `IndexPage.Page.constructor` | src/pages/Index.tsx:20 | the expense list starts empty |
| `IndexPage.Page.AddExpense` | src/pages/Index.tsx:35-37 | the new expense becomes element 0 and the previous list is the unchanged tail |
| `IndexPage.Page.DeleteExpense` | src/pages/Index.tsx:39-41 | the new list is the old list without the expenses carrying that id, and is no longer |
| `IndexPage.DeleteRemovesExactly` | src/pages/Index.tsx:39-41 | after delete no expense has the id, every expense with another id is still there as many times as before, nothing new appears, and the survivors keep their order (subsequence) |
| `IndexPage.DeleteAbsentIsNoop` | src/pages/Index.tsx:39-41 | deleting an id no expense has leaves the list unchanged |
| `IndexPage.DeleteTwiceIsDeleteOnce` | src/pages/Index.tsx:39-41 | deleting the same id twice equals deleting it once |
| `IndexPage.AddThenDeleteRestores` | src/pages/Index.tsx:35-41 | adding an expense with a fresh id and then deleting that id gives back the original list |
| `IndexPage.MonthlyAtMostTotal` | src/pages/Index.tsx:48-52 | with non-negative amounts, the sum over expenses dated in the current month is at most the sum over all expenses |
| `IndexPage.MonthTransactionCount` | src/pages/Index.tsx:150 | the month's transaction count is at most the list length, and is 0 only with a zero monthly total |
| `IndexPage.Recent` | src/pages/Index.tsx:162 | the recent panel holds exactly the first min(3, n) expenses, as a prefix of the list |
| `IndexPage.AddedExpenseIsMostRecent` | src/pages/Index.tsx:157-162 | after an add the panel is shown, the new expense heads it, and the rest is the start of the old panel |
| `BudgetTracker.DefaultBudgetsShape` | src/components/BudgetTracker.tsx:28-51 | the initial table is the six default categories in order, each with limit 500 and spent 0; total budget 3000, total spent 0, overall percentage 0 |
| `BudgetTracker.Tracker.constructor` | src/components/BudgetTracker.tsx:37-69 | mounting runs the initialising effect and then the recomputation effect: the table is the default budgets with this month's spent filled in, nothing is being edited and the typed limit is empty; the invariant holds |
| `BudgetTracker.RecomputeKeepsRows` | src/components/BudgetTracker.tsx:53-69 | after recomputation each row's spent is the sum of current-month expenses of exactly its category; length, order, categories and limits are unchanged; positive limits stay positive |
| `BudgetTracker.RecomputeIdempotent` | src/components/BudgetTracker.tsx:60-68 | recomputing twice from the same expenses equals recomputing once |
| `BudgetTracker.SpentAtMostMonthlyTotal` | src/components/BudgetTracker.tsx:55-65 | with non-negative amounts a budget's spent lies between 0 and the month's total |
| `BudgetTracker.Tracker.RecomputeSpent` | src/components/BudgetTracker.tsx:53-69 | the effect replaces the table by its recomputation and leaves the editing state alone; the invariant (positive limits, the six default categories) is kept |
| `BudgetTracker.Tracker.EditBudget` | src/components/BudgetTracker.tsx:71-74 | opens the row for editing with the limit's `toString()` text, which is number text; the table is unchanged and the invariant is kept |
| `BudgetTracker.Tracker.SetTempLimit` | src/components/BudgetTracker.tsx:177-180 | typing replaces only the typed limit, with what the number input reports (the text when it is a valid number, the empty text otherwise); the invariant, which includes that the typed limit is number text or empty, is kept |
| `BudgetTracker.Tracker.CancelEdit` | src/components/BudgetTracker.tsx:194 | Cancel closes the editor and changes nothing else |
| `BudgetTracker.Tracker.SaveBudget` | src/components/BudgetTracker.tsx:76-96 | a typed limit that reads as NaN or is 0 or below changes nothing; otherwise only that category's limit is replaced and the editor is cleared; the invariant holds either way |
| `BudgetTracker.SaveChangesOnlyMatching` | src/components/BudgetTracker.tsx:87-93 | saving changes only the limit of rows with that category; every other row and field is unchanged; a positive limit keeps all limits positive |
| `BudgetTracker.SaveIdempotent` | src/components/BudgetTracker.tsx:87-93 | saving the same limit twice yields the same table as saving it once |
| `BudgetTracker.SaveTotalBudget` | src/components/BudgetTracker.tsx:87-111 | with one row per category, the total budget moves by exactly new limit minus old limit |
| `BudgetTracker.BudgetStatus` | src/components/BudgetTracker.tsx:104-109 | for a positive limit: Over Budget iff spent is at least the limit, Near Limit iff spent is from 80% of the limit up to but excluding the limit, On Track iff spent is below 80% |
| `BudgetTracker.StatusBoundaries` | src/components/BudgetTracker.tsx:104-109 | spent equal to the limit is Over Budget, 80% is Near Limit, 79% is On Track |
| `BudgetTracker.OverallPercentage` | src/components/BudgetTracker.tsx:111-113 | the overall percentage is 0 when the total budget is not positive, and otherwise is total spent / total budget × 100 |
| `BudgetTracker.PositiveTotalBudget` | src/components/BudgetTracker.tsx:111-113 | a non-empty table with positive limits has a positive total budget, so the overall percentage is a real ratio |
| `ExpenseList.ShownAreExactlyMatches` | src/components/ExpenseList.tsx:31-37 | every shown expense is in the list and matches the search (lower-cased substring of description or category) and the category filter (`all` or equality); every matching expense is shown; the shown list is a permutation of the filter's output |
| `ExpenseList.FilterKeepsOrder` | src/components/ExpenseList.tsx:31-37 | the filtered list is an order-preserving subsequence of the input |
| `ExpenseList.EmptySearchShowsAll` | src/components/ExpenseList.tsx:33-35 | search `''` with category `all` keeps every expense, so the view is the sort of the whole list |
| `ExpenseList.FilterTwiceIsFilterOnce` | src/components/ExpenseList.tsx:31-37 | filtering twice with the same search and category equals filtering once |
| `ExpenseList.PrecedesIsTotalPreorder` | src/components/ExpenseList.tsx:38-51 | each of the five comparator behaviours is total and transitive |
| `ExpenseList.TiedMeansSameKey` | src/components/ExpenseList.tsx:38-51 | two expenses compare equal iff they have the same date (date keys) or the same amount (amount keys); an unknown key ties everything |
| `ExpenseList.ShownAreOrdered` | src/components/ExpenseList.tsx:38-51 | the view is ordered by date descending/ascending or amount descending/ascending as selected; an unknown key returns the filter's order unchanged |
| `ExpenseList.ShownTiesKeepOrder` | src/components/ExpenseList.tsx:38-51 | the sort is stable: the expenses tied with any given one appear in the same order as in the filter's output |
| `ExpenseList.TotalAmountIsFilteredSum` | src/components/ExpenseList.tsx:83 | the shown total is the sum of the amounts of the filtered expenses |
| `ExpenseList.FilterCategoriesListsEachOnce` | src/components/ExpenseList.tsx:29 | the category menu lists every category of the list, only those, each once, in first-appearance order |
| `ExpenseList.CsvLines` | src/components/ExpenseList.tsx:61-67 | when no field holds a newline, the CSV splits on `\n` into the header `Date,Amount,Category,Description` followed by exactly one line `date,amount,"category","description"` per stored (unfiltered) expense in stored order; so there is no trailing newline |
| `ExpenseList.Csv` | src/components/ExpenseList.tsx:61-67 | the exported text starts with the header `Date,Amount,Category,Description`; an empty list exports the header alone |
| `ExpenseList.CsvRowNotInjective` | src/components/ExpenseList.tsx:65 | embedded quotes are not escaped: two different expenses can export to the same line |
| `ExpenseChart.CategoryDataIsPerCategoryTotal` | src/components/ExpenseChart.tsx:27-30 | `categoryData` has one key per category present, in first-appearance order; each value is the sum of that category's amounts; the values add up to `totalSpent` |
| `ExpenseChart.MonthlyDataIsPerMonthTotal` | src/components/ExpenseChart.tsx:38-42 | `monthlyData` is keyed by the distinct `date.slice(0, 7)` values; each value sums that month's amounts; the values add up to `totalSpent` |
| `ExpenseChart.MonthlyTotalMatchesMonthlyData` | src/components/ExpenseChart.tsx:38-42 | for a seven-character current month, the page's monthly total equals the chart's value for that month |
| `ExpenseChart.TotalsKeys` | src/components/ExpenseChart.tsx:27-42 | the accumulator's keys are the distinct keys of the expenses in first-appearance order |
| `ExpenseChart.TotalsLookup` | src/components/ExpenseChart.tsx:27-42 | the value under a key is the sum of the amounts of the expenses with that key (0 when none) |
| `ExpenseChart.TotalsSum` | src/components/ExpenseChart.tsx:27-55 | the accumulated values add up to the sum of all amounts |
| `ExpenseChart.PieDataOrdered` | src/components/ExpenseChart.tsx:32-35 | `pieData` has exactly the entries of `categoryData`, one per distinct category, ordered by value non-increasing |
| `ExpenseChart.BarDataIsLastSix` | src/components/ExpenseChart.tsx:44-53 | there is one sorted bar per distinct month; `barData` has min(6, that many) bars and is the tail of the sorted list |
| `ExpenseChart.BarDataOrdered` | src/components/ExpenseChart.tsx:52 | when the label comparator is a total preorder, the bars are in comparator order of their labels |
| `ExpenseChart.AnalyticsView` | src/components/ExpenseChart.tsx:91-105 | the empty state is rendered exactly when there are no expenses |
| `ExpenseChart.AnalyticsShowsTrendForTwoMonths` | src/components/ExpenseChart.tsx:91-155 | an empty list gives the empty state; otherwise the pie has a slice, and the trend chart (more than one bar) shows exactly when two expenses fall in different months |
| `ExpenseForm.Form.constructor` | src/components/ExpenseForm.tsx:36-39 | a new form has today's date and empty amount, category and description |
| `ExpenseForm.Form.SetDate` | src/components/ExpenseForm.tsx:95 | picking a date replaces only the date |
| `ExpenseForm.Form.SetAmount` | src/components/ExpenseForm.tsx:111 | typing an amount replaces only the amount, with the number input's value (a valid number or the empty text) |
| `ExpenseForm.Form.SetCategory` | src/components/ExpenseForm.tsx:120 | choosing a menu category replaces only the category |
| `ExpenseForm.Form.SetDescription` | src/components/ExpenseForm.tsx:140 | typing a description replaces only the description |
| `ExpenseForm.Form.Submit` | src/components/ExpenseForm.tsx:42-67 | an empty amount or category emits nothing and changes no field; otherwise exactly one expense is emitted, and amount, category and description are reset to `''` while date keeps its value |
| `ExpenseForm.NewExpense` | src/components/ExpenseForm.tsx:45-62 | a submit is refused exactly when the amount or the category is empty; an accepted one carries the id, date, category and description verbatim and the parsed amount |
| `ExpenseForm.NegativeAmountAccepted` | src/components/ExpenseForm.tsx:45-57 | only emptiness is checked: amount `-12.5` with an empty description is accepted and yields amount -12.5 |
| `Text.ParseNumber` | src/components/ExpenseForm.tsx:57 | a number reading exists exactly for valid number text; text with a leading `-` reads as 0 or below, any other text as 0 or above |
| `Text.EmptyIsNotANumber` | src/components/BudgetTracker.tsx:77-78 | the empty text reads as NaN, so saving right after a successful save (which clears the text) is refused |
| `Text.NegativeTextParses` | src/components/ExpenseForm.tsx:57 | `-12.5` reads as -12.5: the sign is carried through |
| `Text.ParseNegated` | src/components/ExpenseForm.tsx:57 | for every unsigned number text, a leading `-` reads as the negation of the rest |
| `Text.ParseNatText` | src/components/ExpenseForm.tsx:57 | printing any natural number in decimal and reading it back gives that number |
| `Text.DigitsParse` | src/components/BudgetTracker.tsx:77 | a run of digits reads as its decimal value |
| `Text.ParseExponent` | src/components/BudgetTracker.tsx:77 | for every significand and exponent, the text significand `e`/`E` exponent reads as the significand's value with the exponent applied (`Text.ScaleBy`), and the significand alone reads as its own value |
| `Text.ScaleUp` | src/components/BudgetTracker.tsx:77 | applying a non-negative exponent `e` multiplies the value by ten to the `e` |
| `Text.ScaleDown` | src/components/BudgetTracker.tsx:77 | applying a negative exponent `-e` divides the value by ten to the `e` |
| `Text.PowerOfTenText` | src/components/BudgetTracker.tsx:73 | for every k, `1e+k` (how `toString()` prints a large whole limit) is number text and reads as ten to the k |
| `Text.ExponentTextParses` | src/components/BudgetTracker.tsx:77 | `1e3` reads as 1000, so such a limit is saved |
| `Text.NegativeExponentTextParses` | src/components/ExpenseForm.tsx:57 | `2.5E-1` reads as 0.25 |
| `Text.ContainsIffOccurs` | src/components/ExpenseList.tsx:33-34 | the recursive `includes` holds iff the needle occurs at some position of the text |
| `Text.SplitJoin` | src/components/ExpenseList.tsx:67 | splitting lines joined by a separator, when no line holds it, gives the lines back |
| `Text.LexTrichotomy` | src/components/ExpenseList.tsx:41-43 | two different dates are ordered one way or the other |
| `Text.LexTransitive` | src/components/ExpenseList.tsx:41-43 | date order is transitive |
| `Sorting.SortBySorted` | src/components/ExpenseList.tsx:38-51 | with a total preorder, the sort's output is ordered |
| `Sorting.SortByStable` | src/components/ExpenseList.tsx:38-51 | the sort is stable: the elements tied with any element keep their input order |
| `Sorting.SortByAllTied` | src/components/ExpenseList.tsx:48-49 | a comparator returning 0 for everything leaves the input unchanged |
| `Seqs.Filter` | src/pages/Index.tsx:40 | the filter's output is no longer than its input, every kept element passes the test, and every input element that passes the test is kept |
| `Seqs.FilterCounts` | src/pages/Index.tsx:40 | each value occurs in the output exactly as often as in the input when it passes the test, and not at all otherwise |
| `Seqs.DistinctFirstAppearance` | src/components/ExpenseList.tsx:29 | distinct values come out in the order of their first appearance |
| `Seqs.SumPermutation` | src/components/ExpenseList.tsx:83 | a sum of amounts does not depend on the order of the list |

## Left out

- Rendering, CSS classes, icons, toasts and the Recharts components are presentation only.
- Loading and saving the list in `localStorage` (`src/pages/Index.tsx:23-33`) is browser I/O. The source does not catch a `JSON.parse` failure on load. The model's page starts from an empty list.
- The Blob, the object URL, the anchor-click download and the date-stamped file name (`src/components/ExpenseList.tsx:69-75`) are browser I/O. The model stops at the CSV text.
- The clock (`Date.now()` ids, `new Date().toISOString()` months and today's date) is a parameter. The model does not assume ids are unique; `AddThenDeleteRestores` states freshness as a precondition.
- `toFixed`, `toLocaleString`, `toLocaleDateString` and `localeCompare` are locale formatting from outside libraries. The month label and the label comparator are parameters, and so is the number-to-text conversion of the CSV amount.
- `BudgetTracker.Tracker.EditBudget`: the caller supplies the limit's `toString()` text, because number-to-text conversion is not modelled; the method requires it to be number text, which `toString()` of a finite positive limit is (`500`, `1e+21`, see `Text.PowerOfTenText`).
- IEEE floating point is not modelled: rounding in sums, percentage rounding and the display-only `Math.min(percentage, 100)` clamp.
- `new Date(...).getTime()` on a malformed date gives NaN, which makes the comparator inconsistent. The model compares date strings, which equals chronological order only for well-formed `YYYY-MM-DD` dates.
- `Text.ParseNumber`: `parseFloat`'s reading of a numeric prefix of other text (`12abc`) is not modelled. Both number inputs report only valid floating-point numbers or the empty text, so such text does not reach it.
- `BudgetTracker.Tracker.SaveBudget`: the limit is the exact value of the text, not the nearest double. Text beyond the double range reads as Infinity in JavaScript and is saved as a limit there, and text below the smallest double (`1e-400`) reads as 0 and is refused there; the model saves the exact value in both cases.
- `ExpenseForm.Form.Submit`: likewise emits the exact value of the amount text, where JavaScript rounds to a double, overflowing to Infinity or underflowing to 0.
- `Text.Lower`: lower-cases ASCII letters only, not the full Unicode case mapping of `toLowerCase`.
- JavaScript lists integer-like object keys (a category named `5`, say) before other keys. The entry-sequence model keeps plain insertion order, which can change the order of equal-valued pie slices for such categories.
- `ExpenseForm.Form.SetCategory` accepts only the ten menu categories, as the select does. Date and description inputs take any text.
- `BudgetTracker.Tracker.constructor`: the first render, before the two mount effects run, shows an empty table. The constructor models the state after both effects.
