/**
 * The add-expense form (`src/components/ExpenseForm.tsx`): four fields, a submit that refuses a
 * missing amount or category, emits one expense otherwise, and then clears every field but the date.
 */
module ExpenseForm {
  import opened Wrappers
  import opened Text
  import opened Expenses

  /** The options of the category menu. */
  const FormCategories: seq<string> :=
    ["Food & Dining", "Transportation", "Housing & Rent", "Utilities", "Shopping",
     "Entertainment", "Healthcare", "Education", "Travel", "Other"]

  /**
   * What `handleSubmit` hands to `onAddExpense`: nothing when the amount or the category is empty,
   * otherwise one expense carrying the id, date, category and description verbatim and the parsed
   * amount.
   */
  function NewExpense(id: string, date: string, amount: string, category: string, description: string): (r: Option<Expense>)
    requires amount == "" || IsNumberText(amount)
    ensures r.None? <==> amount == "" || category == ""
    ensures r.Some? ==>
      && r.value.id == id && r.value.date == date && r.value.category == category
      && r.value.description == description
      && Some(r.value.amount) == ParseNumber(amount)
  {
    if amount == "" || category == "" then None
    else Some(Expense(id, date, ParseNumber(amount).value, category, description))
  }

  /** Only emptiness is checked: an empty description and a negative amount are both accepted. */
  lemma NegativeAmountAccepted()
    ensures NewExpense("1", "2024-03-01", "-12.5", "Other", "")
         == Some(Expense("1", "2024-03-01", -12.5, "Other", ""))
  {
    NegativeTextParses();
  }

  class Form {
    var date: string
    var amount: string
    var category: string
    var description: string

    /** The amount field holds what a number input can hold. */
    ghost predicate Valid()
      reads this
    {
      amount == "" || IsNumberText(amount)
    }

    /** A fresh form dated today (the caller passes today's `YYYY-MM-DD`); the other fields are empty. */
    constructor(today: string)
      ensures Valid()
      ensures date == today && amount == "" && category == "" && description == ""
    {
      date, amount, category, description := today, "", "", "";
    }

    method SetDate(d: string)
      requires Valid()
      modifies this
      ensures Valid()
      ensures date == d
      ensures amount == old(amount) && category == old(category) && description == old(description)
    {
      date := d;
    }

    method SetAmount(text: string)
      requires Valid()
      modifies this
      ensures Valid()
      ensures amount == SanitizeNumberInput(text)
      ensures date == old(date) && category == old(category) && description == old(description)
    {
      amount := SanitizeNumberInput(text);
    }

    /** Picking a category from the menu. */
    method SetCategory(c: string)
      requires Valid() && c in FormCategories
      modifies this
      ensures Valid()
      ensures category == c
      ensures date == old(date) && amount == old(amount) && description == old(description)
    {
      category := c;
    }

    method SetDescription(d: string)
      requires Valid()
      modifies this
      ensures Valid()
      ensures description == d
      ensures date == old(date) && amount == old(amount) && category == old(category)
    {
      description := d;
    }

    /**
     * `handleSubmit`, with the new expense's id (the source uses the clock) passed in. A refused
     * submit emits nothing and changes no field; an accepted one emits exactly one expense and
     * clears amount, category and description while the date stays.
     */
    method Submit(id: string) returns (emitted: Option<Expense>)
      requires Valid()
      modifies this
      ensures Valid()
      ensures emitted == NewExpense(id, old(date), old(amount), old(category), old(description))
      ensures emitted.None? ==>
        date == old(date) && amount == old(amount) && category == old(category) && description == old(description)
      ensures emitted.Some? ==>
        date == old(date) && amount == "" && category == "" && description == ""
    {
      if amount == "" || category == "" {
        return None;
      }
      emitted := Some(Expense(id, date, ParseNumber(amount).value, category, description));
      amount, category, description := "", "", "";
    }
  }
}
