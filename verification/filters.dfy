/** The dashboard filter: a queryset narrowed, in order, by a title search,
    a set of category ids, a paid status and a set of person ids, each step
    running only when its request parameter is present and non-empty. */
module Filtering {
  import opened Wrappers
  import opened Expenses
  import opened QuerySets

  /** One value of a multi-valued id parameter after the framework's integer
      conversion: an id, or the raw text that does not convert. */
  datatype IdParam = Valid(id: int) | Malformed(raw: string)

  /** A request value as `filters_data` compares it: the single string `get`
      returns, or the list of strings `getlist` returns. A string never
      equals a list. */
  datatype QueryValue = Text(text: string) | Many(items: seq<string>)

  /** The parsed request parameters. `paidName` is the `getlist` result. */
  datatype FilterParams = FilterParams(
    searchName: Option<string>,
    cateName: seq<IdParam>,
    paidName: seq<string>,
    personName: seq<IdParam>)

  /** Why building a lookup raises: a value that is not an id, or a lookup
      through a reference the concrete model does not have. */
  datatype FilterError = MalformedId(raw: string) | UnknownField

  predicate AllValid(ids: seq<IdParam>) {
    forall i :: 0 <= i < |ids| ==> ids[i].Valid?
  }

  /** The first value that does not convert, if any. */
  function FirstMalformed(ids: seq<IdParam>): (r: Option<string>)
    ensures r.None? <==> AllValid(ids)
    ensures r.Some? ==> Malformed(r.value) in ids
  {
    if ids == [] then None
    else if ids[0].Malformed? then Some(ids[0].raw)
    else
      var rest := FirstMalformed(ids[1..]);
      assert rest.None? <==> AllValid(ids[1..]);
      assert AllValid(ids) <==> AllValid(ids[1..]) by {
        assert forall i :: 0 < i < |ids| ==> ids[i] == ids[1..][i - 1];
      }
      rest
  }

  /** The ids among the values, in order. */
  function ValidIds(ids: seq<IdParam>): (r: seq<int>)
    ensures forall n :: n in r <==> Valid(n) in ids
  {
    if ids == [] then []
    else
      assert ids == [ids[0]] + ids[1..];
      (if ids[0].Valid? then [ids[0].id] else []) + ValidIds(ids[1..])
  }

  // ---------------------------------------------------------------------------
  // Title search

  /** `search_name` is truthy: present and not the empty string. */
  predicate SearchActive(searchName: Option<string>) {
    searchName.Some? && |searchName.value| > 0
  }

  /** What the search step lets through, stated with the reference substring match. */
  ghost predicate SearchAdmits(searchName: Option<string>, e: Expense) {
    SearchActive(searchName) ==> e.title.Some? && OccursIgnoringCase(e.title.value, searchName.value)
  }

  function SearchStep(q: seq<Expense>, searchName: Option<string>): (r: seq<Expense>)
    ensures IsSubsequence(r, q)
    ensures forall e :: multiset(r)[e] == if SearchAdmits(searchName, e) then multiset(q)[e] else 0
  {
    if SearchActive(searchName) then
      WhereSpec(q, TitleContains(searchName.value));
      ContainsIgnoringCaseCorrectAll();
      Where(q, TitleContains(searchName.value))
    else
      SubsequenceReflexive(q);
      q
  }

  // ---------------------------------------------------------------------------
  // Category ids

  /** `filter(category__id__in=...)`; raises when a value is not an id. */
  function CategoryLookup(q: seq<Expense>, cateName: seq<IdParam>): Result<seq<Expense>, FilterError> {
    match FirstMalformed(cateName)
    case Some(raw) => Failure(MalformedId(raw))
    case None => Success(Where(q, CategoryIn(ValidIds(cateName))))
  }

  ghost predicate CategoryAdmits(cateName: seq<IdParam>, e: Expense) {
    cateName != [] ==> e.category.Some? && Valid(e.category.value.id) in cateName
  }

  /** The category step has no error handler: a malformed id fails the whole filter. */
  function CategoryStep(q: seq<Expense>, cateName: seq<IdParam>): (r: Result<seq<Expense>, FilterError>)
    ensures r.Failure? <==> cateName != [] && !AllValid(cateName)
    ensures r.Success? ==> IsSubsequence(r.value, q)
    ensures r.Success? ==> forall e :: multiset(r.value)[e] == if CategoryAdmits(cateName, e) then multiset(q)[e] else 0
  {
    if cateName != [] then
      WhereSpec(q, CategoryIn(ValidIds(cateName)));
      CategoryLookup(q, cateName)
    else
      SubsequenceReflexive(q);
      Success(q)
  }

  // ---------------------------------------------------------------------------
  // Paid status

  ghost predicate PaidAdmits(paidName: QueryValue, e: Expense) {
    && (paidName == Text("paid") ==> e.isPaid)
    && (paidName == Text("not_paid") ==> !e.isPaid)
  }

  /** Keeps the paid records when the value equals "paid", the unpaid ones
      when it equals "not_paid", and everything otherwise. */
  function PaidStep(q: seq<Expense>, paidName: QueryValue): (r: seq<Expense>)
    ensures IsSubsequence(r, q)
    ensures forall e :: multiset(r)[e] == if PaidAdmits(paidName, e) then multiset(q)[e] else 0
    ensures paidName != Text("paid") && paidName != Text("not_paid") ==> r == q
  {
    if Text("paid") == paidName then
      WhereSpec(q, PaidIs(true));
      Where(q, PaidIs(true))
    else if Text("not_paid") == paidName then
      WhereSpec(q, PaidIs(false));
      Where(q, PaidIs(false))
    else
      SubsequenceReflexive(q);
      q
  }

  /** The value `filters_data` passes is a list, which never equals a string, so
      the paid-status step changes nothing. */
  lemma PaidStepIgnoresLists(q: seq<Expense>, items: seq<string>)
    ensures PaidStep(q, Many(items)) == q
  {
  }

  // ---------------------------------------------------------------------------
  // Person ids

  /** `filter(person__id__in=...)`; raises when the model has no person
      reference or a value is not an id. */
  function PersonLookup(q: seq<Expense>, personName: seq<IdParam>, hasPersonField: bool): Result<seq<Expense>, FilterError> {
    if !hasPersonField then Failure(UnknownField)
    else
      match FirstMalformed(personName)
      case Some(raw) => Failure(MalformedId(raw))
      case None => Success(Where(q, PersonIn(ValidIds(personName))))
  }

  ghost predicate PersonAdmits(personName: seq<IdParam>, hasPersonField: bool, e: Expense) {
    personName != [] && hasPersonField && AllValid(personName) ==>
      e.person.Some? && Valid(e.person.value) in personName
  }

  /** The person step swallows any error of the lookup and keeps its input. */
  function PersonStep(q: seq<Expense>, personName: seq<IdParam>, hasPersonField: bool): (r: seq<Expense>)
    ensures IsSubsequence(r, q)
    ensures forall e :: multiset(r)[e] == if PersonAdmits(personName, hasPersonField, e) then multiset(q)[e] else 0
    ensures !(hasPersonField && AllValid(personName)) ==> r == q
  {
    if personName == [] then
      SubsequenceReflexive(q);
      q
    else
      match PersonLookup(q, personName, hasPersonField)
      case Success(narrowed) =>
        assert hasPersonField && AllValid(personName);
        WhereSpec(q, PersonIn(ValidIds(personName)));
        narrowed
      case Failure(_) =>
        SubsequenceReflexive(q);
        q
  }

  // ---------------------------------------------------------------------------
  // The whole filter

  /** What the whole filter lets through. The paid status plays no part. */
  ghost predicate Admits(p: FilterParams, hasPersonField: bool, e: Expense) {
    && SearchAdmits(p.searchName, e)
    && CategoryAdmits(p.cateName, e)
    && PersonAdmits(p.personName, hasPersonField, e)
  }

  /** `hasPersonField` says whether the concrete model has a person reference. */
  function FiltersData(q: seq<Expense>, p: FilterParams, hasPersonField: bool): (r: Result<seq<Expense>, FilterError>)
    ensures r.Failure? <==> p.cateName != [] && !AllValid(p.cateName)
    ensures r.Success? ==> IsSubsequence(r.value, q)
    ensures r.Success? ==> forall e :: multiset(r.value)[e] == if Admits(p, hasPersonField, e) then multiset(q)[e] else 0
  {
    var searched := SearchStep(q, p.searchName);
    match CategoryStep(searched, p.cateName)
    case Failure(err) => Failure(err)
    case Success(categorised) =>
      var paidFiltered := PaidStep(categorised, Many(p.paidName));
      var result := PersonStep(paidFiltered, p.personName, hasPersonField);
      SubsequenceTransitive(categorised, searched, q);
      SubsequenceTransitive(paidFiltered, categorised, q);
      SubsequenceTransitive(result, paidFiltered, q);
      Success(result)
  }

  /** Whatever `paid_name` holds, the result is the same. */
  lemma FiltersDataIgnoresPaidName(q: seq<Expense>, p: FilterParams, hasPersonField: bool, paidName: seq<string>)
    ensures FiltersData(q, p.(paidName := paidName), hasPersonField) == FiltersData(q, p, hasPersonField)
  {
  }

  /** With no search text, no category ids and no person ids the queryset comes back whole. */
  lemma FiltersDataWithoutParams(q: seq<Expense>, paidName: seq<string>, hasPersonField: bool)
    ensures FiltersData(q, FilterParams(None, [], paidName, []), hasPersonField) == Success(q)
  {
  }
}
