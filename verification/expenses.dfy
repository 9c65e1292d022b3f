/** The expense record shared by every concrete expense model, and the rule
    that keeps its settled amount consistent with its paid flag. */
module Expenses {
  import opened Wrappers

  /** Money is held as a whole number of cents: both amounts are decimals with
      two fractional digits. */
  type Cents = int

  /** A calendar date; the core stores it and never computes with it. */
  datatype Date = Date(year: int, month: nat, day: nat)

  /** A payment method, referenced by expenses but never owned by them. */
  datatype PaymentMethod = PaymentMethod(id: int, title: string)

  /** The category a concrete expense model attaches to each record. */
  datatype Category = Category(id: int, title: string)

  /** One payable obligation. `category` and `person` are the references the
      concrete models add; either may be null. */
  datatype Expense = Expense(
    title: Option<string>,
    dateExpired: Date,
    finalValue: Cents,
    paidValue: Cents,
    isPaid: bool,
    paymentMethod: Option<PaymentMethod>,
    category: Option<Category>,
    person: Option<int>)

  /** The stored invariant: a paid expense has settled its whole final value,
      an unpaid one has settled nothing. */
  predicate PaidInvariant(e: Expense) {
    && (e.isPaid ==> e.paidValue == e.finalValue)
    && (!e.isPaid ==> e.paidValue == 0)
  }

  /** The hook run before every write: the settled amount is recomputed from
      the flag and the final value, whatever was stored there before. */
  function Save(e: Expense): (s: Expense)
    ensures PaidInvariant(s)
    ensures s.(paidValue := e.paidValue) == e
  {
    e.(paidValue := if e.isPaid then e.finalValue else 0)
  }

  /** Saving twice stores the same record as saving once. */
  lemma SaveIdempotent(e: Expense)
    ensures Save(Save(e)) == Save(e)
  {
  }

  /** A record is left untouched by the hook exactly when it already keeps
      the invariant. */
  lemma SaveFixesExactlyInvariantRecords(e: Expense)
    ensures Save(e) == e <==> PaidInvariant(e)
  {
  }

  /** The admin label of the paid flag. */
  function TagIsPaid(e: Expense): (tag: string)
    ensures tag == "Is Paid" || tag == "Not Paid"
    ensures tag == "Is Paid" <==> e.isPaid
  {
    if e.isPaid then "Is Paid" else "Not Paid"
  }

  /** The value of the `category__title` lookup: null when no category is set. */
  function CategoryTitle(e: Expense): Option<string> {
    if e.category.Some? then Some(e.category.value.title) else None
  }
}
