/** The billing routes' queries: the filtered payment list, the payment statistics and the
    rows the aging report is computed from; and the month a new payment is booked under. */
module Billing {
  import opened Wrappers
  import opened Sql

  // ---------------------------------------------------------------------------------------
  // The payment list

  /** The conditions of the payment list, in the order the handler appends them: the
      student, the center, the first and the last payment date. */
  function PaymentConditions(studentId: Option<string>, centerId: Option<string>,
                             startDate: Option<string>, endDate: Option<string>): (cs: seq<Condition>)
    ensures |cs| == (if Truthy(studentId) then 1 else 0) + (if CenterFilterApplies(centerId) then 1 else 0)
                    + (if Truthy(startDate) then 1 else 0) + (if Truthy(endDate) then 1 else 0)
    ensures forall i :: 0 <= i < |cs| ==> cs[i].Compare? && cs[i].Uses() == 1
  {
    Applied(StudentFilter(studentId)) + Applied(CenterFilter(centerId))
    + Applied(StartFilter(startDate)) + Applied(EndFilter(endDate))
  }

  /** Each of these filters applies when its value is given (non-empty). */
  function StudentFilter(studentId: Option<string>): Option<Condition>
  {
    ValueFilter(PaymentStudent, Equal, studentId)
  }

  function StartFilter(startDate: Option<string>): Option<Condition>
  {
    ValueFilter(PaymentDate, AtLeast, startDate)
  }

  function EndFilter(endDate: Option<string>): Option<Condition>
  {
    ValueFilter(PaymentDate, AtMost, endDate)
  }

  /** Every payment with its student's name and center. */
  function PaymentSelect(): (q: string)
    ensures '$' !in q
  {
    "\n      SELECT b.*, " + StudentColumns() + CenterName() + FromBilling() + JoinStudents() + LeftJoinCenters() + WhereTrue()
  }

  function StudentColumns(): (q: string)
    ensures '$' !in q
  {
    "s.first_name, s.last_name, " + "s.center_id, "
  }

  /** Newest payment first; among payments of the same day, the latest recorded first. */
  function PaymentOrder(): (q: string)
    ensures '$' !in q && |q| > 0 && q[0] == ' '
  {
    " " + "ORDER BY b.payment_date DESC, " + "b.id DESC"
  }

  /** Builds the payment list query from the query-string values (absent ones are `None`). */
  method PaymentListQuery(studentId: Option<string>, centerId: Option<string>,
                          startDate: Option<string>, endDate: Option<string>)
    returns (queryText: string, params: seq<string>)
    ensures queryText == PaymentSelect() + Where(PaymentConditions(studentId, centerId, startDate, endDate)) + PaymentOrder()
    ensures params == Params(PaymentConditions(studentId, centerId, startDate, endDate))
  {
    queryText, params := AppendPaymentFilters(PaymentSelect(), studentId, centerId, startDate, endDate);
    queryText := queryText + PaymentOrder();
  }

  /** The filter part of the payment list handler: from the SELECT head on, each filter that
      applies appends its clause and pushes its value. */
  method AppendPaymentFilters(head: string, studentId: Option<string>, centerId: Option<string>,
                              startDate: Option<string>, endDate: Option<string>)
    returns (queryText: string, params: seq<string>)
    ensures queryText == head + Where(PaymentConditions(studentId, centerId, startDate, endDate))
    ensures params == Params(PaymentConditions(studentId, centerId, startDate, endDate))
  {
    queryText := head;
    params := [];
    var paramCount := 0;
    ghost var conds: seq<Condition> := [];
    assert queryText == head + Where(conds);

    conds, queryText, params, paramCount := ApplyFilter(head, conds, queryText, params, paramCount, StudentFilter(studentId));
    conds, queryText, params, paramCount := ApplyFilter(head, conds, queryText, params, paramCount, CenterFilter(centerId));
    conds, queryText, params, paramCount := ApplyFilter(head, conds, queryText, params, paramCount, StartFilter(startDate));
    conds, queryText, params, paramCount := ApplyFilter(head, conds, queryText, params, paramCount, EndFilter(endDate));
    assert conds == PaymentConditions(studentId, centerId, startDate, endDate);
  }

  // ---------------------------------------------------------------------------------------
  // The payment statistics

  /** The conditions of the statistics query: the center, then the month booked. */
  function StatsConditions(centerId: Option<string>, month: Option<string>): (cs: seq<Condition>)
    ensures |cs| == (if CenterFilterApplies(centerId) then 1 else 0) + (if Truthy(month) then 1 else 0)
    ensures forall i :: 0 <= i < |cs| ==> cs[i].Compare? && cs[i].Uses() == 1
  {
    Applied(CenterFilter(centerId)) + Applied(MonthFilter(month))
  }

  function MonthFilter(month: Option<string>): Option<Condition>
  {
    ValueFilter(PaymentMonth, Equal, month)
  }

  /** Paying students, number of payments, total and average amount. */
  function StatsSelect(): (q: string)
    ensures '$' !in q
  {
    "\n      SELECT\n" + PayingStudents() + TotalPayments() + TotalCollected() + AveragePayment()
    + FromBilling() + JoinStudents() + WhereTrue()
  }

  function PayingStudents(): (q: string)
    ensures '$' !in q
  {
    "        COUNT(DISTINCT " + "b.student_id) as paying_students,\n"
  }

  function TotalPayments(): (q: string)
    ensures '$' !in q
  {
    "        COUNT(*) " + "as total_payments,\n"
  }

  function TotalCollected(): (q: string)
    ensures '$' !in q
  {
    "        COALESCE(SUM(b.amount), 0) " + "as total_collected,\n"
  }

  function AveragePayment(): (q: string)
    ensures '$' !in q
  {
    "        COALESCE(AVG(b.amount), 0) " + "as avg_payment\n"
  }

  /** Builds the statistics query; it has no tail after the conditions. */
  method StatsQuery(centerId: Option<string>, month: Option<string>)
    returns (queryText: string, params: seq<string>)
    ensures queryText == StatsSelect() + Where(StatsConditions(centerId, month))
    ensures params == Params(StatsConditions(centerId, month))
  {
    queryText := StatsSelect();
    params := [];
    var paramCount := 0;
    ghost var conds: seq<Condition> := [];
    assert queryText == StatsSelect() + Where(conds);

    conds, queryText, params, paramCount := ApplyFilter(StatsSelect(), conds, queryText, params, paramCount, CenterFilter(centerId));
    conds, queryText, params, paramCount := ApplyFilter(StatsSelect(), conds, queryText, params, paramCount, MonthFilter(month));
    assert conds == StatsConditions(centerId, month);
  }

  // ---------------------------------------------------------------------------------------
  // The aging report's rows

  /** The aging query has at most one condition, the center. */
  function AgingConditions(centerId: Option<string>): (cs: seq<Condition>)
    ensures |cs| <= 1
    ensures |cs| == 1 <==> CenterFilterApplies(centerId)
  {
    Applied(CenterFilter(centerId))
  }

  /** Every active student with tuition, enrollment date and the sum of their payments. */
  function AgingSelect(): (q: string)
    ensures '$' !in q
  {
    "\n      SELECT\n" + AgingStudentColumns() + AgingCenterColumns() + AgingAmountColumns()
    + FromStudents() + LeftJoinBilling() + LeftJoinCenters() + ActiveOnly()
  }

  function AgingStudentColumns(): (q: string)
    ensures '$' !in q
  {
    "        s.id as student_id,\n" + "        s.first_name,\n" + "        s.last_name,\n"
  }

  function AgingCenterColumns(): (q: string)
    ensures '$' !in q
  {
    "        s.center_id,\n" + "        c.name as center_name,\n"
  }

  function AgingAmountColumns(): (q: string)
    ensures '$' !in q
  {
    "        s.tuition,\n" + "        s.enrollment_date,\n" + TotalPaidColumn()
  }

  function TotalPaidColumn(): (q: string)
    ensures '$' !in q
  {
    "        COALESCE(SUM(b.amount), 0) " + "as total_paid\n"
  }

  function LeftJoinBilling(): (q: string)
    ensures '$' !in q
  {
    "      LEFT JOIN billing b " + "ON s.id = b.student_id\n"
  }

  function ActiveOnly(): (q: string)
    ensures '$' !in q
  {
    "      WHERE s.status = " + "'active'\n    "
  }

  /** One row per student, in the order of the student list: by last name, then first name. */
  function AgingTail(): (q: string)
    ensures '$' !in q && |q| > 0 && q[0] == ' '
  {
    " " + "GROUP BY s.id, c.name" + OrderByName()
  }

  /** The center condition as the aging handler writes it, with its placeholder number fixed. */
  function FixedCenterClause(): (q: string)
  {
    " AND " + "s.center_id" + " " + "=" + " " + "$" + "1"
  }

  /** The fixed text is the first center condition. */
  lemma FixedCenterClauseIsFirst(centerId: string)
    ensures FixedCenterClause() == Clause(Compare(StudentCenter, Equal, centerId), 1)
  {
    assert Decimal(1) == "1";
  }

  /** Builds the query of the rows the aging report is computed from. */
  method AgingQuery(centerId: Option<string>) returns (queryText: string, params: seq<string>)
    ensures queryText == AgingSelect() + Where(AgingConditions(centerId)) + AgingTail()
    ensures params == Params(AgingConditions(centerId))
  {
    queryText := AgingSelect();
    params := [];
    AgingFilter(centerId);
    if CenterFilterApplies(centerId) {
      queryText := queryText + FixedCenterClause();
      params := params + [centerId.value];
    }
    assert queryText == AgingSelect() + Where(AgingConditions(centerId));
    queryText := queryText + AgingTail();
  }

  /** The aging handler's one filter is the first condition of the condition list. */
  lemma AgingFilter(centerId: Option<string>)
    ensures Where(AgingConditions(centerId)) == if CenterFilterApplies(centerId) then FixedCenterClause() else ""
    ensures Params(AgingConditions(centerId)) == if CenterFilterApplies(centerId) then [centerId.value] else []
  {
    if CenterFilterApplies(centerId) {
      WhereSingle(Compare(StudentCenter, Equal, centerId.value));
      FixedCenterClauseIsFirst(centerId.value);
    }
  }

  // ---------------------------------------------------------------------------------------
  // Placeholder numbering

  /** In each of the three queries, the `$n` placeholders are numbered 1..|params| in the order
      the filters appear, and each condition's placeholder names its own parameter. */
  lemma PaymentListPlaceholders(studentId: Option<string>, centerId: Option<string>,
                                startDate: Option<string>, endDate: Option<string>)
    ensures var cs := PaymentConditions(studentId, centerId, startDate, endDate);
      && Placeholders(PaymentSelect() + Where(cs) + PaymentOrder()) == Slots(cs)
      && NumberedInOrder(Placeholders(PaymentSelect() + Where(cs) + PaymentOrder()), |Params(cs)|)
  {
    QueryPlaceholders(PaymentSelect(), PaymentConditions(studentId, centerId, startDate, endDate), PaymentOrder());
  }

  lemma StatsPlaceholders(centerId: Option<string>, month: Option<string>)
    ensures var cs := StatsConditions(centerId, month);
      && Placeholders(StatsSelect() + Where(cs)) == Slots(cs)
      && NumberedInOrder(Placeholders(StatsSelect() + Where(cs)), |Params(cs)|)
  {
    var cs := StatsConditions(centerId, month);
    QueryPlaceholders(StatsSelect(), cs, "");
    assert StatsSelect() + Where(cs) + "" == StatsSelect() + Where(cs);
  }

  lemma AgingPlaceholders(centerId: Option<string>)
    ensures var cs := AgingConditions(centerId);
      && Placeholders(AgingSelect() + Where(cs) + AgingTail()) == Slots(cs)
      && NumberedInOrder(Placeholders(AgingSelect() + Where(cs) + AgingTail()), |Params(cs)|)
  {
    var cs, tail := AgingConditions(centerId), AgingTail();
    assert tail == [] || !IsDigit(tail[0]);
    QueryPlaceholders(AgingSelect(), cs, tail);
  }

  // ---------------------------------------------------------------------------------------
  // Which filters apply

  /** The payment list filters on each value that is given non-empty, except a center of
      `all`; each filter binds the value itself. */
  lemma PaymentFilters(studentId: Option<string>, centerId: Option<string>,
                       startDate: Option<string>, endDate: Option<string>)
    ensures var cs := PaymentConditions(studentId, centerId, startDate, endDate);
      && (forall v :: Compare(PaymentStudent, Equal, v) in cs <==> Truthy(studentId) && studentId.value == v)
      && (forall v :: Compare(StudentCenter, Equal, v) in cs <==> CenterFilterApplies(centerId) && centerId.value == v)
      && (forall v :: Compare(PaymentDate, AtLeast, v) in cs <==> Truthy(startDate) && startDate.value == v)
      && (forall v :: Compare(PaymentDate, AtMost, v) in cs <==> Truthy(endDate) && endDate.value == v)
      && |cs| <= 4
  {
    var cs := PaymentConditions(studentId, centerId, startDate, endDate);
    forall v
      ensures Compare(PaymentStudent, Equal, v) in cs <==> Truthy(studentId) && studentId.value == v
      ensures Compare(StudentCenter, Equal, v) in cs <==> CenterFilterApplies(centerId) && centerId.value == v
      ensures Compare(PaymentDate, AtLeast, v) in cs <==> Truthy(startDate) && startDate.value == v
      ensures Compare(PaymentDate, AtMost, v) in cs <==> Truthy(endDate) && endDate.value == v
    {
      PaymentMember(studentId, centerId, startDate, endDate, Compare(PaymentStudent, Equal, v));
      PaymentMember(studentId, centerId, startDate, endDate, Compare(StudentCenter, Equal, v));
      PaymentMember(studentId, centerId, startDate, endDate, Compare(PaymentDate, AtLeast, v));
      PaymentMember(studentId, centerId, startDate, endDate, Compare(PaymentDate, AtMost, v));
    }
  }

  lemma PaymentMember(studentId: Option<string>, centerId: Option<string>,
                      startDate: Option<string>, endDate: Option<string>, x: Condition)
    ensures x in PaymentConditions(studentId, centerId, startDate, endDate)
        <==> (|| x in Applied(StudentFilter(studentId)) || x in Applied(CenterFilter(centerId))
              || x in Applied(StartFilter(startDate)) || x in Applied(EndFilter(endDate)))
  {
  }

  /** A center of `all` (or none) adds neither a condition nor a parameter, in all three queries. */
  lemma AllCentersAddsNothing(studentId: Option<string>, centerId: Option<string>,
                              startDate: Option<string>, endDate: Option<string>, month: Option<string>)
    requires centerId.None? || centerId == Some("") || centerId == Some("all")
    ensures PaymentConditions(studentId, centerId, startDate, endDate) == PaymentConditions(studentId, None, startDate, endDate)
    ensures StatsConditions(centerId, month) == StatsConditions(None, month)
    ensures AgingConditions(centerId) == []
  {
  }

  /** The statistics filter on the center and on the month label a payment was booked under. */
  lemma StatsFilters(centerId: Option<string>, month: Option<string>)
    ensures var cs := StatsConditions(centerId, month);
      && (forall v :: Compare(StudentCenter, Equal, v) in cs <==> CenterFilterApplies(centerId) && centerId.value == v)
      && (forall v :: Compare(PaymentMonth, Equal, v) in cs <==> Truthy(month) && month.value == v)
      && |cs| <= 2
  {
    var a, b := Applied(CenterFilter(centerId)), Applied(MonthFilter(month));
    assert forall x :: x in StatsConditions(centerId, month) <==> x in a || x in b;
  }

  // ---------------------------------------------------------------------------------------
  // The month a payment is booked under

  /** The first seven characters of the payment date (all of it, when it is shorter), as
      JavaScript's `substring(0, 7)` takes them. */
  function MonthFor(paymentDate: string): (m: string)
    ensures |m| == if |paymentDate| < 7 then |paymentDate| else 7
    ensures m <= paymentDate
  {
    if |paymentDate| < 7 then paymentDate else paymentDate[..7]
  }

  /** A date written YYYY-MM-DD. */
  predicate IsIsoDate(d: string)
  {
    && |d| == 10
    && AllDigits(d[..4]) && d[4] == '-' && AllDigits(d[5..7]) && d[7] == '-' && AllDigits(d[8..])
  }

  /** A month written YYYY-MM. */
  predicate IsIsoMonth(m: string)
  {
    |m| == 7 && AllDigits(m[..4]) && m[4] == '-' && AllDigits(m[5..])
  }

  /** A YYYY-MM-DD date is booked under its YYYY-MM month. */
  lemma MonthOfIsoDate(d: string)
    requires IsIsoDate(d)
    ensures IsIsoMonth(MonthFor(d))
    ensures MonthFor(d) + d[7..] == d
  {
    var m := MonthFor(d);
    assert m[..4] == d[..4];
    assert m[5..] == d[5..7];
  }

  /** For a date of at least seven characters, the month label is exactly its seven-character
      prefix: any m with |m| == 7 and m a prefix of the date is it. */
  lemma MonthForIsPrefix(d: string, m: string)
    requires |d| >= 7
    ensures MonthFor(d) == m <==> |m| == 7 && m <= d
  {
  }

  /** Taking the month of a month label changes nothing. */
  lemma MonthForIdempotent(d: string)
    ensures MonthFor(MonthFor(d)) == MonthFor(d)
  {
  }
}
