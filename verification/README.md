# Expense records: save rule, dashboard analysis and request filter

A Dafny model of the core of a personal expense tracker. An expense has an
optional title, a due date, a final value (the amount owed), a paid value, a
paid flag, and nullable references to a payment method, a category and a
person. The core consists of three pieces:

- **The save rule.** Before every write, the paid value is recomputed from the
  paid flag and the final value.
- **`analysis`.** Over a queryset it returns:
  - the total of final values;
  - the total of final values over the *unpaid* records, which `analysis`
    returns as `paid_value`;
  - the difference of those two, which is the total over the paid records;
  - a per-category summary of total and remaining balance, ordered by
    remaining balance.
- **`filters_data`.** A pipeline of optional narrowing steps: a
  case-insensitive title search, category ids, paid status and person ids.

Modelling choices:

- A queryset is a `seq<Expense>`, and one `filter` call is `QuerySets.Where`.
- Money is a whole number of cents (`int`), because both amounts are decimals
  with two fractional digits.
- SQL `SUM` over no rows is NULL. `Aggregation.SqlSum` returns `None` in that
  case, and `analysis` coalesces it to 0 with `... if queryset else 0`.
- A category's title groups the summary rows. A record with no category falls
  in the group whose title is null.
- The request arrives already parsed. `search_name` is an `Option<string>`.
  The id lists are sequences of `IdParam`: each value is either an id or the
  raw text that does not convert to one. `paid_name` is the list that
  `getlist` returns.
- The concrete models that add `category` and `person` are not part of this
  model. Whether the concrete model has a person reference is the
  `hasPersonField` argument of `Filtering.FiltersData`.

Behaviour reproduced from the code as written:

- **The paid-status step does nothing.** `paid_name` is a list. `filters_data`
  compares it with the strings `'paid'` and `'not_paid'`, and in Python a
  list never equals a string, so the step returns its input.
  `QueryValue` separates a string from a list, and `Filtering.PaidStep` is
  stated for both. Neither comparison ever succeeds, and even if one could,
  the final branch is `else queryset`, not a filter to the unpaid records.
- **Only the person step recovers from errors.** Its lookup raises when a
  value is not an id or the model has no person reference, and the step then
  keeps its input. The category step has no handler, so a malformed category
  id makes the whole filter fail (`Failure(MalformedId(..))`).

## Model

| member | source | states |
|---|---|---|
| `Expenses.Save` | my_expenses/expenses/models.py:32-37 | after saving, a paid record's paid value equals its final value and an unpaid record's is 0; every other field is unchanged, and the old paid value is discarded |
| `Expenses.SaveIdempotent` | my_expenses/expenses/models.py:32-37 | saving twice stores the same record as saving once |
| `Expenses.SaveFixesExactlyInvariantRecords` | my_expenses/expenses/models.py:32-37 | the save rule leaves a record unchanged exactly when the record already keeps the paid-value invariant |
| `Expenses.TagIsPaid` | my_expenses/expenses/models.py:47-48 | the label is one of two strings, and it is "Is Paid" exactly when the record is paid |
| `QuerySets.WhereSpec` | my_expenses/expenses/models.py:70-76 | a `filter` call returns an order-preserving subsequence that keeps every copy of each passing record and drops every failing one |
| `QuerySets.WhereMembership` | my_expenses/expenses/models.py:70-76 | a record is in the filtered queryset exactly when it was in the input and passes the lookup |
| `QuerySets.ContainsIgnoringCaseCorrect` | my_expenses/expenses/models.py:70 | the left-to-right `icontains` scan succeeds exactly when some offset of the title matches the search text, ignoring ASCII case |
| `Aggregation.SqlSumOfFinals` | my_expenses/expenses/models.py:54 | over a non-empty queryset, the SQL sum of `final_value` is not NULL and equals the plain sum |
| `Aggregation.SumOrZero` | my_expenses/expenses/models.py:54 | the sum coalesced with `if queryset else 0` equals the plain sum, including 0 for an empty queryset |
| `Aggregation.SumFinalOfWhere` | my_expenses/expenses/models.py:55-56 | narrowing to one paid state and then summing gives the sum of final values over exactly the records in that state |
| `Aggregation.SumFinalSplits` | my_expenses/expenses/models.py:57 | the total is the paid records' sum plus the unpaid records' sum |
| `Aggregation.AddToGroupsMatches` | my_expenses/expenses/models.py:58-59 | folding one more record into correct per-category rows gives correct rows for the longer queryset |
| `Aggregation.GroupByCategory` | my_expenses/expenses/models.py:58-59 | there is exactly one row per category title present, and each row holds that group's sum of `final_value` and its sum of `final_value - paid_value` |
| `Aggregation.SortByRemaining` | my_expenses/expenses/models.py:60 | the rows come out in ascending order of remaining balance, as a permutation of the input rows |
| `Aggregation.SortKeepsTitlesUnique` | my_expenses/expenses/models.py:60 | ordering rows with distinct category titles leaves the titles distinct |
| `Aggregation.InsertKeepsTitlesUnique` | my_expenses/expenses/models.py:60 | inserting a row with a new title into sorted rows with distinct titles keeps the titles distinct |
| `Aggregation.Analysis` | my_expenses/expenses/models.py:52-61 | the total is the sum of all final values, and the "paid" component is the sum over unpaid records; the difference is the total minus that component, which is the sum over paid records; the summary is a sorted grouping by category |
| `Aggregation.GroupingTotalsAddUp` | my_expenses/expenses/models.py:54-59 | the row totals of any grouping by category add up to the overall total |
| `Aggregation.AnalysisRowTotalsAddUp` | my_expenses/expenses/models.py:54-60 | the category rows of the analysis add up to its first component |
| `Aggregation.RemainingIsUnpaid` | my_expenses/expenses/models.py:58-59 | when every record keeps the save invariant, a category's remaining balance equals the sum of its unpaid final values |
| `Aggregation.AnalysisRemainingIsUnpaid` | my_expenses/expenses/models.py:58-60 | when every record keeps the save invariant, each summary row's remaining balance is its category's unpaid total |
| `Aggregation.AnalysisOfEmpty` | my_expenses/expenses/models.py:54-61 | an empty queryset gives 0, 0, 0 and no category rows |
| `Aggregation.AnalysisOfPaidAndUnpaid` | my_expenses/expenses/models.py:54-57 | with one paid record of 100.00 and one unpaid record of 50.00, the total is 150.00, the "paid" component is 50.00 and the difference is 100.00 |
| `Filtering.FirstMalformed` | my_expenses/expenses/models.py:71 | there is no first malformed value exactly when every value converts to an id, and any one reported is in the list |
| `Filtering.ValidIds` | my_expenses/expenses/models.py:71 | an id is passed to the lookup exactly when it is one of the request's values |
| `Filtering.SearchStep` | my_expenses/expenses/models.py:70 | for a non-empty search text, keeps exactly the records whose non-null title contains it ignoring case, in order; otherwise returns the input |
| `Filtering.CategoryStep` | my_expenses/expenses/models.py:71 | fails exactly when the list is non-empty and holds a malformed value; otherwise keeps, in order, the records whose category id is listed, or everything when the list is empty |
| `Filtering.PaidStep` | my_expenses/expenses/models.py:72-73 | keeps the paid records for the string "paid", the unpaid ones for "not_paid", and the whole input for any other value |
| `Filtering.PaidStepIgnoresLists` | my_expenses/expenses/models.py:67-73 | given the list that `getlist` returns, the paid-status step returns its input unchanged |
| `Filtering.PersonStep` | my_expenses/expenses/models.py:74-78 | when the lookup can be built, keeps, in order, the records whose person id is listed; when the list is empty or the lookup raises, returns the input unchanged |
| `Filtering.FiltersData` | my_expenses/expenses/models.py:63-79 | fails exactly on a malformed category id; otherwise returns an order-preserving subsequence that keeps every copy of each record passing the active search, category and person conditions, and no other record |
| `Filtering.FiltersDataIgnoresPaidName` | my_expenses/expenses/models.py:67-73 | the filter's result does not depend on `paid_name` |
| `Filtering.FiltersDataWithoutParams` | my_expenses/expenses/models.py:70-79 | with no search text, category ids or person ids, the queryset comes back whole |

## Left out

- Framework plumbing is left out: field declarations, `Meta`, the `objects` and `my_query` managers, and the database write inside `save`. The managers module is not part of this model.
- Request parsing (`request.GET.get` / `getlist`) is left out, and so is the conversion of id strings to integers. The model takes already-parsed values, and `IdParam` records whether each one converted.
- `tag_final_value`, the `__str__` methods and the admin `short_description` attributes are left out. They only format values for display, and `tag_final_value` uses decimal-to-string formatting.
- The `max_digits=20` bound on both amounts is left out. The database enforces it, not this code, so amounts are unbounded integers of cents.
- `icontains` folds case for ASCII letters only. Full Unicode case folding is not modelled.
- The `SET_NULL` deletion rule of the payment-method reference is left out. It is a database cascade, and the reference is otherwise opaque here.
- The due date is stored but never computed with.
- Querysets are modelled as eager sequences. Lazy evaluation and the database's own tie order among rows with equal remaining balance are not modelled.
- `Aggregation.SortByRemaining`: the contract fixes only ascending order of remaining balance, because `order_by('remaining')` leaves the order of ties to the database.
- `Filtering.PersonStep`: which exception the person lookup raises is not modelled. The lookup raises exactly when the model has no person reference or a value is not an id, and the handler treats every exception alike.
