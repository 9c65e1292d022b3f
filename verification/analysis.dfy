/** The dashboard aggregation over a queryset of expenses: the overall total,
    the total of the unpaid records (which `analysis`
    returns as `paid_value`), their difference, and a per-category summary ordered by
    the balance still to pay. */
module Aggregation {
  import opened Wrappers
  import opened Expenses
  import opened QuerySets

  // ---------------------------------------------------------------------------
  // Reference sums over a queryset

  /** Sum of `final_value` over the whole queryset. */
  function SumFinal(q: seq<Expense>): int {
    if q == [] then 0 else SumFinal(q[..|q| - 1]) + q[|q| - 1].finalValue
  }

  /** Sum of `final_value` over the records whose paid flag is `paid`. */
  function SumFinalWhere(q: seq<Expense>, paid: bool): int {
    if q == [] then 0
    else SumFinalWhere(q[..|q| - 1], paid) + (if q[|q| - 1].isPaid == paid then q[|q| - 1].finalValue else 0)
  }

  /** Every record is either paid or unpaid, so the two partial sums make up the total. */
  lemma {:induction false} SumFinalSplits(q: seq<Expense>)
    ensures SumFinal(q) == SumFinalWhere(q, true) + SumFinalWhere(q, false)
    decreases |q|
  {
    if q != [] {
      SumFinalSplits(q[..|q| - 1]);
    }
  }

  lemma SumFinalAppend(q: seq<Expense>, x: Expense)
    ensures SumFinal(q + [x]) == SumFinal(q) + x.finalValue
  {
  }

  /** Narrowing to one paid state and summing equals the partial sum. */
  lemma {:induction false} SumFinalOfWhere(q: seq<Expense>, paid: bool)
    ensures SumFinal(Where(q, PaidIs(paid))) == SumFinalWhere(q, paid)
    decreases |q|
  {
    if q != [] {
      var init := q[..|q| - 1];
      var last := q[|q| - 1];
      var c := PaidIs(paid);
      assert q == init + [last];
      WhereAppend(init, c, last);
      SumFinalOfWhere(init, paid);
      var w := Where(init, c);
      if last.isPaid == paid {
        SumFinalAppend(w, last);
        assert SumFinal(Where(q, c)) == SumFinal(w) + last.finalValue;
      } else {
        assert w + [] == w;
        assert SumFinal(Where(q, c)) == SumFinal(w);
      }
    }
  }

  // ---------------------------------------------------------------------------
  // The SQL SUM aggregate

  /** The `final_value` column of a queryset. */
  function FinalValues(q: seq<Expense>): (col: seq<int>)
    ensures |col| == |q|
    ensures forall i :: 0 <= i < |q| ==> col[i] == q[i].finalValue
  {
    seq(|q|, i requires 0 <= i < |q| => q[i].finalValue)
  }

  /** SQL `SUM` over a column: NULL over no rows, otherwise the sum. */
  function SqlSum(xs: seq<int>): (r: Option<int>)
    ensures r.None? <==> xs == []
  {
    if xs == [] then None else Some(SqlSum(xs[..|xs| - 1]).GetOr(0) + xs[|xs| - 1])
  }

  /** Over a non-empty queryset the aggregate is the plain sum. */
  lemma {:induction false} SqlSumOfFinals(q: seq<Expense>)
    requires q != []
    ensures SqlSum(FinalValues(q)) == Some(SumFinal(q))
    decreases |q|
  {
    var init := q[..|q| - 1];
    assert FinalValues(q)[..|q| - 1] == FinalValues(init);
    if init != [] {
      SqlSumOfFinals(init);
    }
  }

  /** The aggregate coalesced to 0, as `analysis` does with `... if queryset else 0`. */
  function SumOrZero(q: seq<Expense>): (total: int)
    ensures total == SumFinal(q)
  {
    if q != [] then
      SqlSumOfFinals(q);
      SqlSum(FinalValues(q)).value
    else 0
  }

  // ---------------------------------------------------------------------------
  // Per-category reference sums

  /** Sum of `final_value` over the records whose category title is `k`. */
  function GroupTotal(q: seq<Expense>, k: Option<string>): int {
    if q == [] then 0
    else GroupTotal(q[..|q| - 1], k) + (if CategoryTitle(q[|q| - 1]) == k then q[|q| - 1].finalValue else 0)
  }

  /** Sum of `final_value - paid_value` over the records whose category title is `k`. */
  function GroupRemaining(q: seq<Expense>, k: Option<string>): int {
    if q == [] then 0
    else
      var last := q[|q| - 1];
      GroupRemaining(q[..|q| - 1], k) + (if CategoryTitle(last) == k then last.finalValue - last.paidValue else 0)
  }

  /** Sum of `final_value` over the unpaid records whose category title is `k`. */
  function GroupUnpaid(q: seq<Expense>, k: Option<string>): int {
    if q == [] then 0
    else
      var last := q[|q| - 1];
      GroupUnpaid(q[..|q| - 1], k) + (if CategoryTitle(last) == k && !last.isPaid then last.finalValue else 0)
  }

  /** The category titles present in a queryset. */
  function Titles(q: seq<Expense>): set<Option<string>> {
    set e | e in q :: CategoryTitle(e)
  }

  /** The records whose category title is not `k`. */
  function OtherCategories(q: seq<Expense>, k: Option<string>): seq<Expense> {
    if q == [] then []
    else OtherCategories(q[..|q| - 1], k) + (if CategoryTitle(q[|q| - 1]) != k then [q[|q| - 1]] else [])
  }

  lemma {:induction false} OtherCategoriesMembership(q: seq<Expense>, k: Option<string>)
    ensures forall e :: e in OtherCategories(q, k) <==> e in q && CategoryTitle(e) != k
    decreases |q|
  {
    if q != [] {
      var init := q[..|q| - 1];
      assert q == init + [q[|q| - 1]];
      OtherCategoriesMembership(init, k);
    }
  }

  lemma NoTitlesMeansEmpty(q: seq<Expense>)
    ensures Titles(q) == {} ==> q == []
  {
    if q != [] {
      assert CategoryTitle(q[0]) in Titles(q);
    }
  }

  lemma TitlesOfAppend(q: seq<Expense>, e: Expense)
    ensures Titles(q + [e]) == Titles(q) + {CategoryTitle(e)}
  {
  }

  lemma {:induction false} GroupTotalOfAbsentTitle(q: seq<Expense>, k: Option<string>)
    requires k !in Titles(q)
    ensures GroupTotal(q, k) == 0 && GroupRemaining(q, k) == 0
    decreases |q|
  {
    if q != [] {
      var init := q[..|q| - 1];
      assert q == init + [q[|q| - 1]];
      TitlesOfAppend(init, q[|q| - 1]);
      GroupTotalOfAbsentTitle(init, k);
    }
  }

  /** Splitting off one category: its group total plus the rest is the total. */
  lemma {:induction false} SumFinalSplitsByTitle(q: seq<Expense>, k: Option<string>)
    ensures SumFinal(q) == GroupTotal(q, k) + SumFinal(OtherCategories(q, k))
    decreases |q|
  {
    if q != [] {
      var init := q[..|q| - 1];
      var last := q[|q| - 1];
      SumFinalSplitsByTitle(init, k);
      var o := OtherCategories(init, k);
      if CategoryTitle(last) != k {
        assert (o + [last])[..|o + [last]| - 1] == o;
      } else {
        assert o + [] == o;
      }
    }
  }

  /** Removing category `k` leaves every other category's sums unchanged. */
  lemma {:induction false} OtherCategoriesKeepGroups(q: seq<Expense>, k: Option<string>, t: Option<string>)
    requires t != k
    ensures GroupTotal(OtherCategories(q, k), t) == GroupTotal(q, t)
    ensures GroupRemaining(OtherCategories(q, k), t) == GroupRemaining(q, t)
    decreases |q|
  {
    if q != [] {
      var init := q[..|q| - 1];
      var last := q[|q| - 1];
      OtherCategoriesKeepGroups(init, k, t);
      var o := OtherCategories(init, k);
      if CategoryTitle(last) != k {
        assert (o + [last])[..|o + [last]| - 1] == o;
      } else {
        assert o + [] == o;
      }
    }
  }

  // ---------------------------------------------------------------------------
  // Category summary rows

  /** One row of `values('category__title').annotate(total_value=..., remaining=...)`. */
  datatype CategoryRow = CategoryRow(categoryTitle: Option<string>, totalValue: int, remaining: int)

  function RowTitles(rows: seq<CategoryRow>): set<Option<string>> {
    set row | row in rows :: row.categoryTitle
  }

  lemma NoRowTitlesMeansNoRows(rows: seq<CategoryRow>)
    ensures RowTitles(rows) == {} ==> rows == []
  {
    if rows != [] {
      assert rows[0].categoryTitle in RowTitles(rows);
    }
  }

  /** No category title appears on two rows. */
  predicate UniqueTitles(rows: seq<CategoryRow>) {
    rows == [] || (rows[0].categoryTitle !in RowTitles(rows[1..]) && UniqueTitles(rows[1..]))
  }

  /** Every row carries its category's sums over `q`. */
  ghost predicate RowsMatch(q: seq<Expense>, rows: seq<CategoryRow>) {
    forall row :: row in rows ==>
      row.totalValue == GroupTotal(q, row.categoryTitle) && row.remaining == GroupRemaining(q, row.categoryTitle)
  }

  /** `rows` is a grouping of `q` by category title: one row per title present, with that group's sums. */
  ghost predicate IsGrouping(q: seq<Expense>, rows: seq<CategoryRow>) {
    RowsMatch(q, rows) && UniqueTitles(rows) && RowTitles(rows) == Titles(q)
  }

  /** `order_by('remaining')`: ascending balance still to pay. */
  predicate SortedByRemaining(rows: seq<CategoryRow>) {
    forall i, j :: 0 <= i < j < |rows| ==> rows[i].remaining <= rows[j].remaining
  }

  lemma RowTitlesCons(row: CategoryRow, rows: seq<CategoryRow>)
    ensures RowTitles([row] + rows) == {row.categoryTitle} + RowTitles(rows)
  {
  }

  /** Adds one record to the running groups: bumps the row of its category,
      or opens a new row when the category has none yet. */
  function AddToGroups(rows: seq<CategoryRow>, e: Expense): (r: seq<CategoryRow>)
    ensures RowTitles(r) == RowTitles(rows) + {CategoryTitle(e)}
    ensures UniqueTitles(rows) ==> UniqueTitles(r)
  {
    var k := CategoryTitle(e);
    if rows == [] then
      [CategoryRow(k, e.finalValue, e.finalValue - e.paidValue)]
    else if rows[0].categoryTitle == k then
      RowTitlesCons(rows[0], rows[1..]);
      assert rows == [rows[0]] + rows[1..];
      var bumped := rows[0].(totalValue := rows[0].totalValue + e.finalValue,
                             remaining := rows[0].remaining + e.finalValue - e.paidValue);
      RowTitlesCons(bumped, rows[1..]);
      [bumped] + rows[1..]
    else
      RowTitlesCons(rows[0], rows[1..]);
      assert rows == [rows[0]] + rows[1..];
      var rest := AddToGroups(rows[1..], e);
      RowTitlesCons(rows[0], rest);
      assert ([rows[0]] + rest)[1..] == rest;
      [rows[0]] + rest
  }

  /** Adding a record to rows that match `q` gives rows that match `q + [e]`. */
  lemma {:induction false} AddToGroupsMatches(q: seq<Expense>, rows: seq<CategoryRow>, e: Expense)
    requires RowsMatch(q, rows) && UniqueTitles(rows)
    requires CategoryTitle(e) in Titles(q) ==> CategoryTitle(e) in RowTitles(rows)
    ensures RowsMatch(q + [e], AddToGroups(rows, e))
    decreases |rows|
  {
    var k := CategoryTitle(e);
    var q' := q + [e];
    assert q'[..|q'| - 1] == q;
    if rows == [] {
      GroupTotalOfAbsentTitle(q, k);
    } else {
      assert rows == [rows[0]] + rows[1..];
      var rest := rows[1..];
      RowTitlesCons(rows[0], rest);
      if rows[0].categoryTitle == k {
        forall row | row in rest
          ensures row.categoryTitle != k
        {
          assert row.categoryTitle in RowTitles(rest);
        }
      } else {
        AddToGroupsMatches(q, rest, e);
      }
    }
  }

  /** Hash-aggregate grouping: one pass over the queryset, bumping or opening rows. */
  function GroupByCategory(q: seq<Expense>): (rows: seq<CategoryRow>)
    ensures IsGrouping(q, rows)
  {
    if q == [] then []
    else
      var init := q[..|q| - 1];
      var last := q[|q| - 1];
      var before := GroupByCategory(init);
      assert q == init + [last];
      AddToGroupsMatches(init, before, last);
      TitlesOfAppend(init, last);
      AddToGroups(before, last)
  }

  // ---------------------------------------------------------------------------
  // Ordering rows by remaining balance

  /** Inserts `row` into rows already in ascending order of remaining balance. */
  function InsertByRemaining(row: CategoryRow, rows: seq<CategoryRow>): (r: seq<CategoryRow>)
    requires SortedByRemaining(rows)
    ensures SortedByRemaining(r)
    ensures multiset(r) == multiset(rows) + multiset{row}
    ensures |r| > 0 && (r[0] == row || (rows != [] && r[0] == rows[0]))
  {
    if rows == [] || row.remaining <= rows[0].remaining then
      SortedCons(row, rows);
      [row] + rows
    else
      assert rows == [rows[0]] + rows[1..];
      var rest := InsertByRemaining(row, rows[1..]);
      SortedCons(rows[0], rest);
      [rows[0]] + rest
  }

  lemma SortedCons(row: CategoryRow, rows: seq<CategoryRow>)
    requires SortedByRemaining(rows)
    requires rows == [] || row.remaining <= rows[0].remaining
    ensures SortedByRemaining([row] + rows)
  {
  }

  lemma InsertRowTitles(row: CategoryRow, rows: seq<CategoryRow>)
    requires SortedByRemaining(rows)
    ensures RowTitles(InsertByRemaining(row, rows)) == RowTitles(rows) + {row.categoryTitle}
  {
    var r := InsertByRemaining(row, rows);
    assert forall x :: x in r <==> x in multiset(r);
    assert forall x :: x in rows <==> x in multiset(rows);
  }

  lemma {:induction false} InsertKeepsTitlesUnique(row: CategoryRow, rows: seq<CategoryRow>)
    requires SortedByRemaining(rows)
    requires row.categoryTitle !in RowTitles(rows) && UniqueTitles(rows)
    ensures UniqueTitles(InsertByRemaining(row, rows))
    decreases |rows|
  {
    if rows == [] || row.remaining <= rows[0].remaining {
      RowTitlesCons(row, rows);
      assert ([row] + rows)[1..] == rows;
    } else {
      assert rows == [rows[0]] + rows[1..];
      RowTitlesCons(rows[0], rows[1..]);
      InsertKeepsTitlesUnique(row, rows[1..]);
      var rest := InsertByRemaining(row, rows[1..]);
      InsertRowTitles(row, rows[1..]);
      assert rows[0].categoryTitle !in RowTitles(rest);
      assert ([rows[0]] + rest)[1..] == rest;
    }
  }

  /** Insertion sort by remaining balance; `order_by('remaining')` leaves the order of equal balances to the database. */
  function SortByRemaining(rows: seq<CategoryRow>): (r: seq<CategoryRow>)
    ensures SortedByRemaining(r)
    ensures multiset(r) == multiset(rows)
  {
    if rows == [] then []
    else
      assert rows == [rows[0]] + rows[1..];
      InsertByRemaining(rows[0], SortByRemaining(rows[1..]))
  }

  /** Sorting rows with distinct titles leaves the titles distinct. */
  lemma {:induction false} SortKeepsTitlesUnique(rows: seq<CategoryRow>)
    requires UniqueTitles(rows)
    ensures UniqueTitles(SortByRemaining(rows))
    decreases |rows|
  {
    if rows != [] {
      var rest := SortByRemaining(rows[1..]);
      SortKeepsTitlesUnique(rows[1..]);
      assert forall x :: x in rest <==> x in rows[1..] by {
        assert forall x :: x in rest <==> x in multiset(rest);
        assert forall x :: x in rows[1..] <==> x in multiset(rows[1..]);
      }
      assert RowTitles(rest) == RowTitles(rows[1..]);
      InsertKeepsTitlesUnique(rows[0], rest);
    }
  }

  /** Reordering a grouping's rows keeps it a grouping. */
  lemma GroupingPermuted(q: seq<Expense>, a: seq<CategoryRow>, b: seq<CategoryRow>)
    requires IsGrouping(q, a) && multiset(a) == multiset(b) && UniqueTitles(b)
    ensures IsGrouping(q, b)
  {
    assert forall x :: x in a <==> x in multiset(a);
    assert forall x :: x in b <==> x in multiset(b);
    assert RowTitles(a) == RowTitles(b);
  }

  // ---------------------------------------------------------------------------
  // Analysis

  /** The four values `analysis` returns. */
  datatype Summary = Summary(totalValue: int, paidValue: int, diff: int, categoryAnalysis: seq<CategoryRow>)

  function Analysis(q: seq<Expense>): (s: Summary)
    ensures s.totalValue == SumFinal(q)
    ensures s.paidValue == SumFinalWhere(q, false)
    ensures s.diff == s.totalValue - s.paidValue
    ensures s.diff == SumFinalWhere(q, true)
    ensures IsGrouping(q, s.categoryAnalysis)
    ensures SortedByRemaining(s.categoryAnalysis)
  {
    var unpaid := Where(q, PaidIs(false));
    SumFinalOfWhere(q, false);
    SumFinalSplits(q);
    var totalValue := SumOrZero(q);
    var paidValue := SumOrZero(unpaid);
    var grouped := GroupByCategory(q);
    var sorted := SortByRemaining(grouped);
    SortKeepsTitlesUnique(grouped);
    GroupingPermuted(q, grouped, sorted);
    Summary(totalValue, paidValue, totalValue - paidValue, sorted)
  }

  // ---------------------------------------------------------------------------
  // Properties of the category summary

  function SumRowTotals(rows: seq<CategoryRow>): int {
    if rows == [] then 0 else rows[0].totalValue + SumRowTotals(rows[1..])
  }

  /** The rows of any grouping add up to the overall total. */
  lemma {:induction false} GroupingTotalsAddUp(q: seq<Expense>, rows: seq<CategoryRow>)
    requires IsGrouping(q, rows)
    ensures SumRowTotals(rows) == SumFinal(q)
    decreases |rows|
  {
    NoTitlesMeansEmpty(q);
    if rows != [] {
      var k := rows[0].categoryTitle;
      var rest := rows[1..];
      var others := OtherCategories(q, k);
      assert rows == [rows[0]] + rest;
      RowTitlesCons(rows[0], rest);
      SumFinalSplitsByTitle(q, k);
      forall row | row in rest
        ensures row.totalValue == GroupTotal(others, row.categoryTitle)
        ensures row.remaining == GroupRemaining(others, row.categoryTitle)
      {
        assert row.categoryTitle in RowTitles(rest);
        OtherCategoriesKeepGroups(q, k, row.categoryTitle);
      }
      OtherCategoriesMembership(q, k);
      assert Titles(others) == Titles(q) - {k};
      GroupingTotalsAddUp(others, rest);
    }
  }

  /** Row totals of the analysis add up to its overall total. */
  lemma AnalysisRowTotalsAddUp(q: seq<Expense>)
    ensures SumRowTotals(Analysis(q).categoryAnalysis) == Analysis(q).totalValue
  {
    GroupingTotalsAddUp(q, Analysis(q).categoryAnalysis);
  }

  /** Under the save invariant a category's remaining balance is its unpaid total. */
  lemma {:induction false} RemainingIsUnpaid(q: seq<Expense>, k: Option<string>)
    requires forall e :: e in q ==> PaidInvariant(e)
    ensures GroupRemaining(q, k) == GroupUnpaid(q, k)
    decreases |q|
  {
    if q != [] {
      assert q[|q| - 1] in q;
      RemainingIsUnpaid(q[..|q| - 1], k);
    }
  }

  lemma AnalysisRemainingIsUnpaid(q: seq<Expense>)
    requires forall e :: e in q ==> PaidInvariant(e)
    ensures forall row :: row in Analysis(q).categoryAnalysis ==> row.remaining == GroupUnpaid(q, row.categoryTitle)
  {
    forall row | row in Analysis(q).categoryAnalysis
      ensures row.remaining == GroupUnpaid(q, row.categoryTitle)
    {
      RemainingIsUnpaid(q, row.categoryTitle);
    }
  }

  /** An empty queryset yields zeros and no rows. */
  lemma AnalysisOfEmpty()
    ensures Analysis([]) == Summary(0, 0, 0, [])
  {
    NoRowTitlesMeansNoRows(Analysis([]).categoryAnalysis);
  }

  /** One paid record of 100.00 and one unpaid record of 50.00: the "paid"
      component reports the unpaid 50.00 and the difference the paid 100.00. */
  lemma AnalysisOfPaidAndUnpaid(paid: Expense, unpaid: Expense)
    requires paid.finalValue == 10000 && paid.isPaid
    requires unpaid.finalValue == 5000 && !unpaid.isPaid
    ensures Analysis([paid, unpaid]).totalValue == 15000
    ensures Analysis([paid, unpaid]).paidValue == 5000
    ensures Analysis([paid, unpaid]).diff == 10000
  {
    var q := [paid, unpaid];
    assert q[..1] == [paid];
    assert [paid][..0] == [];
    assert SumFinal([paid]) == 10000;
    assert SumFinal(q) == 15000;
    assert SumFinalWhere([paid], false) == 0;
    assert SumFinalWhere(q, false) == 5000;
  }
}
