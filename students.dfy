/** The student routes: the filtered student list and the accounts-receivable summary of one
    student. */
module Students {
  import opened Wrappers
  import opened Sql
  import Accrual

  /** The columns of a student row the AR summary reads (amounts in cents, the enrollment date
      as an instant in milliseconds). */
  datatype Student = Student(id: int, firstName: string, lastName: string, tuition: int, enrolledMs: int)

  /** The one error answer of the AR endpoint: no student has the requested id (HTTP 404). */
  datatype ArError = StudentNotFound

  /** The AR summary the endpoint answers with. */
  datatype ArSummary = ArSummary(studentId: int, studentName: string, tuition: int, position: Accrual.Position)

  /** The name as the handlers show it: first name, one space, last name. */
  function FullName(firstName: string, lastName: string): (name: string)
    ensures |name| == |firstName| + 1 + |lastName|
    ensures name[..|firstName|] == firstName && name[|firstName|] == ' ' && name[|firstName| + 1..] == lastName
  {
    firstName + " " + lastName
  }

  /** The AR summary of the student found by id (or the not-found error), evaluated at `nowMs`,
      given the total of the student's payments (`COALESCE(SUM(amount), 0)` over the ledger). */
  function StudentAr(found: Option<Student>, nowMs: int, totalPaid: int): (r: Result<ArSummary, ArError>)
    ensures found.None? <==> r == Failure(StudentNotFound)
    ensures found.Some? ==>
              && r.Success?
              && r.value.studentId == found.value.id
              && r.value.studentName == FullName(found.value.firstName, found.value.lastName)
              && r.value.tuition == found.value.tuition
              && r.value.position == Accrual.PositionOf(found.value.tuition, found.value.enrolledMs, nowMs, totalPaid)
  {
    match found
    case None => Failure(StudentNotFound)
    case Some(s) =>
      Success(ArSummary(s.id, FullName(s.firstName, s.lastName), s.tuition,
        Accrual.PositionOf(s.tuition, s.enrolledMs, nowMs, totalPaid)))
  }

  /** The status filter value: `active` when the parameter is absent. A parameter given empty
      stays empty, so it then filters nothing. */
  function StatusOrDefault(status: Option<string>): (v: Option<string>)
    ensures status.None? ==> v == Some("active")
    ensures status.Some? ==> v == status
  {
    if status.None? then Some("active") else status
  }

  /** The search pattern bound for `search`: a substring match. */
  function Contains(search: string): (pattern: string)
    ensures |pattern| == |search| + 2
    ensures pattern[0] == '%' && pattern[|pattern| - 1] == '%' && pattern[1..|pattern| - 1] == search
  {
    "%" + search + "%"
  }

  /** The conditions of the student list, in the order the handler appends them: the center,
      then the status, then the free-text search. */
  function ListConditions(centerId: Option<string>, status: Option<string>, search: Option<string>): (cs: seq<Condition>)
    ensures |cs| == (if CenterFilterApplies(centerId) then 1 else 0) + (if status != Some("") then 1 else 0)
                    + (if Truthy(search) then 1 else 0)
  {
    Applied(CenterFilter(centerId)) + Applied(StatusFilter(status)) + Applied(SearchFilter(search))
  }

  /** The status filter, on the status or its default, unless it is given empty. */
  function StatusFilter(status: Option<string>): (f: Option<Condition>)
    ensures f.Some? <==> status != Some("")
    ensures f.Some? ==> f.value == Compare(StudentStatus, Equal, if status.None? then "active" else status.value)
  {
    ValueFilter(StudentStatus, Equal, StatusOrDefault(status))
  }

  /** The search filter, bound to `%search%`, when the search is given non-empty. */
  function SearchFilter(search: Option<string>): (f: Option<Condition>)
    ensures f.Some? <==> Truthy(search)
    ensures f.Some? ==> f.value.NameParentContactLike? && f.value.Uses() == 3
    ensures f.Some? ==> |f.value.Bound()| == |search.value| + 2 && f.value.Bound()[1..|search.value| + 1] == search.value
  {
    if Truthy(search) then Some(NameParentContactLike(Contains(search.value))) else None
  }

  function ListSelect(): (q: string)
    ensures '$' !in q
  {
    "\n      SELECT s.*, " + CenterName() + FromStudents() + LeftJoinCenters() + WhereTrue()
  }

  /** Builds the student list query from the query-string values (absent ones are `None`). */
  method ListQuery(centerId: Option<string>, status: Option<string>, search: Option<string>)
    returns (queryText: string, params: seq<string>)
    ensures queryText == ListSelect() + Where(ListConditions(centerId, status, search)) + OrderByName()
    ensures params == Params(ListConditions(centerId, status, search))
  {
    queryText, params := AppendListFilters(ListSelect(), centerId, status, search);
    queryText := queryText + OrderByName();
  }

  method AppendListFilters(head: string, centerId: Option<string>, status: Option<string>, search: Option<string>)
    returns (queryText: string, params: seq<string>)
    ensures queryText == head + Where(ListConditions(centerId, status, search))
    ensures params == Params(ListConditions(centerId, status, search))
  {
    queryText := head;
    params := [];
    var paramCount := 0;
    ghost var conds: seq<Condition> := [];
    assert queryText == head + Where(conds);

    conds, queryText, params, paramCount := ApplyFilter(head, conds, queryText, params, paramCount, CenterFilter(centerId));
    conds, queryText, params, paramCount := ApplyFilter(head, conds, queryText, params, paramCount, StatusFilter(status));
    conds, queryText, params, paramCount := ApplyFilter(head, conds, queryText, params, paramCount, SearchFilter(search));
    assert conds == ListConditions(centerId, status, search);
  }

  /** Which filters the list query carries: the center unless it is absent, empty or `all`; the
      status (`active` by default) unless it is given empty; the search, bound as `%search%`,
      when it is non-empty. */
  lemma ListFilters(centerId: Option<string>, status: Option<string>, search: Option<string>)
    ensures var cs := ListConditions(centerId, status, search);
      && (forall v :: Compare(StudentCenter, Equal, v) in cs <==> CenterFilterApplies(centerId) && centerId.value == v)
      && (forall v :: Compare(StudentStatus, Equal, v) in cs <==>
            Truthy(StatusOrDefault(status)) && StatusOrDefault(status).value == v)
      && (forall p :: NameParentContactLike(p) in cs <==> Truthy(search) && p == Contains(search.value))
      && |cs| <= 3
  {
    var a, b, c := Applied(CenterFilter(centerId)), Applied(StatusFilter(status)), Applied(SearchFilter(search));
    assert forall x :: x in ListConditions(centerId, status, search) <==> x in a || x in b || x in c;
  }

  /** A center value that is absent, empty or `all` adds neither a condition nor a parameter. */
  lemma AllCentersAddsNothing(centerId: Option<string>, status: Option<string>, search: Option<string>)
    requires centerId.None? || centerId == Some("") || centerId == Some("all")
    ensures ListConditions(centerId, status, search) == ListConditions(None, status, search)
  {
  }

  /** The search adds exactly one parameter, `%search%`, as the last one. */
  lemma SearchBindsOnePattern(centerId: Option<string>, status: Option<string>, search: string)
    requires search != ""
    ensures var cs := ListConditions(centerId, status, Some(search));
      && Params(cs) == Params(ListConditions(centerId, status, None)) + ["%" + search + "%"]
  {
    var without := ListConditions(centerId, status, None);
    var x := NameParentContactLike(Contains(search));
    SearchAppendsOne(centerId, status, search);
    AppendParam(without, x);
  }

  /** The search's placeholder number is named three times, after all the others. */
  lemma SearchNamedThrice(centerId: Option<string>, status: Option<string>, search: string)
    requires search != ""
    ensures var cs := ListConditions(centerId, status, Some(search));
      && Slots(cs) == Slots(ListConditions(centerId, status, None)) + [|cs|, |cs|, |cs|]
  {
    var without := ListConditions(centerId, status, None);
    var x := NameParentContactLike(Contains(search));
    SearchAppendsOne(centerId, status, search);
    AppendSlots(without, x);
    assert seq(x.Uses(), _ => |without| + 1) == [|without| + 1, |without| + 1, |without| + 1];
  }

  lemma SearchAppendsOne(centerId: Option<string>, status: Option<string>, search: string)
    requires search != ""
    ensures ListConditions(centerId, status, Some(search))
         == ListConditions(centerId, status, None) + [NameParentContactLike(Contains(search))]
  {
    assert ListConditions(centerId, status, None) == Applied(CenterFilter(centerId)) + Applied(StatusFilter(status));
  }

  /** Every placeholder of the list query names a parameter that is bound, numbered in the order
      the parameters are pushed; the search's number appears three times. */
  lemma ListPlaceholders(centerId: Option<string>, status: Option<string>, search: Option<string>)
    ensures var cs := ListConditions(centerId, status, search);
      && Placeholders(ListSelect() + Where(cs) + OrderByName()) == Slots(cs)
      && NumberedInOrder(Placeholders(ListSelect() + Where(cs) + OrderByName()), |Params(cs)|)
  {
    QueryPlaceholders(ListSelect(), ListConditions(centerId, status, search), OrderByName());
  }
}
