/** The aging report: one row per active student with the balance still outstanding, placed
    whole in one of four age buckets by the number of unpaid periods; the rows that owe
    nothing dropped; the rest sorted by balance, largest first, keeping the query's name
    order among equal balances; and the column totals. All amounts are integer cents. */
module Aging {
  import opened Wrappers
  import opened Sums
  import Accrual
  import Students

  /** One row of the aging query: a student with the sum of all their payments. */
  datatype StudentBalance = StudentBalance(
    studentId: int,
    firstName: string,
    lastName: string,
    centerId: Option<int>,
    centerName: Option<string>,
    tuition: int,
    enrolledMs: int,
    totalPaid: int)

  /** How long a balance has been owed: under one period of tuition, one, two, three or more. */
  datatype Bucket = Current | Days30 | Days60 | Days90Plus

  /** The bucket for a number of unpaid periods: 0, 1, 2, and anything else. */
  function BucketFor(monthsUnpaid: int): (b: Bucket)
    ensures b == Days90Plus <==> monthsUnpaid < 0 || monthsUnpaid > 2
  {
    if monthsUnpaid == 0 then Current
    else if monthsUnpaid == 1 then Days30
    else if monthsUnpaid == 2 then Days60
    else Days90Plus
  }

  /** A column of the report: the balance, or one of the buckets. */
  datatype Field = TotalOutstanding | InBucket(bucket: Bucket)

  /** The amounts of a row, and of the totals line. */
  datatype Amounts = Amounts(totalOutstanding: int, current: int, days30: int, days60: int, days90Plus: int)
  {
    function Bucketed(b: Bucket): int
    {
      match b
      case Current => current
      case Days30 => days30
      case Days60 => days60
      case Days90Plus => days90Plus
    }

    function Get(f: Field): int
    {
      match f
      case TotalOutstanding => totalOutstanding
      case InBucket(b) => Bucketed(b)
    }

    /** The buckets add up to the balance. */
    predicate Balanced()
    {
      current + days30 + days60 + days90Plus == totalOutstanding
    }
  }

  const Zero: Amounts := Amounts(0, 0, 0, 0, 0)

  datatype AgingRow = AgingRow(
    studentId: int,
    studentName: string,
    centerName: Option<string>,
    centerId: Option<int>,
    amounts: Amounts)

  /** The balance a row is sorted by and filtered on. */
  function Balance(r: AgingRow): int
  {
    r.amounts.totalOutstanding
  }

  /** The whole balance goes into the bucket of its unpaid periods; nothing is owed, nothing
      is bucketed. */
  function Distribute(outstanding: int, monthsUnpaid: int): (a: Amounts)
    requires outstanding >= 0
    ensures a.totalOutstanding == outstanding && a.Balanced()
    ensures forall b :: a.Bucketed(b) == if b == BucketFor(monthsUnpaid) then outstanding else 0
  {
    if outstanding > 0 then
      if monthsUnpaid == 0 then Amounts(outstanding, outstanding, 0, 0, 0)
      else if monthsUnpaid == 1 then Amounts(outstanding, 0, outstanding, 0, 0)
      else if monthsUnpaid == 2 then Amounts(outstanding, 0, 0, outstanding, 0)
      else Amounts(outstanding, 0, 0, 0, outstanding)
    else Amounts(outstanding, 0, 0, 0, 0)
  }

  /** The report row of one student at `nowMs`. */
  function RowOf(s: StudentBalance, nowMs: int): (r: AgingRow)
    ensures var p := Accrual.PositionOf(s.tuition, s.enrolledMs, nowMs, s.totalPaid);
      && r.studentId == s.studentId
      && r.studentName == Students.FullName(s.firstName, s.lastName)
      && r.centerName == s.centerName && r.centerId == s.centerId
      && Balance(r) == p.outstanding
      && r.amounts.Balanced()
  {
    RowAt(s, Accrual.PositionOf(s.tuition, s.enrolledMs, nowMs, s.totalPaid))
  }

  /** The report row of a student whose AR position is `p`. */
  function RowAt(s: StudentBalance, p: Accrual.Position): (r: AgingRow)
    requires p.outstanding >= 0
    ensures r.studentId == s.studentId && r.centerName == s.centerName && r.centerId == s.centerId
    ensures r.studentName == Students.FullName(s.firstName, s.lastName)
    ensures Balance(r) == p.outstanding && r.amounts.Balanced()
  {
    AgingRow(s.studentId, Students.FullName(s.firstName, s.lastName), s.centerName, s.centerId,
      Distribute(p.outstanding, p.monthsUnpaid))
  }

  /** The whole balance of a row sits in the bucket of its unpaid periods; the others are zero. */
  lemma RowBuckets(s: StudentBalance, nowMs: int)
    ensures var p := Accrual.PositionOf(s.tuition, s.enrolledMs, nowMs, s.totalPaid);
      forall b :: RowOf(s, nowMs).amounts.Bucketed(b) == if b == BucketFor(p.monthsUnpaid) then p.outstanding else 0
  {
  }

  /** With a positive tuition, the bucket of a positive balance is read off the balance itself:
      under one period's tuition is current, under two is 30 days, under three is 60 days, and
      three or more is 90 days and over. */
  lemma BucketByBalance(tuition: int, outstanding: int)
    requires tuition > 0 && outstanding >= 0
    ensures var b := BucketFor(Accrual.MonthsUnpaid(outstanding, tuition));
      && (b == Current <==> outstanding < tuition)
      && (b == Days30 <==> tuition <= outstanding < 2 * tuition)
      && (b == Days60 <==> 2 * tuition <= outstanding < 3 * tuition)
      && (b == Days90Plus <==> 3 * tuition <= outstanding)
  {
    var m := Accrual.MonthsUnpaid(outstanding, tuition);
    assert m * tuition <= outstanding < (m + 1) * tuition;
    if m >= 3 {
      assert m * tuition >= 3 * tuition;
    } else if m < 0 {
      assert false;
    }
  }

  /** A row's balance is the balance the student's own AR summary reports. */
  lemma RowMatchesStudentAr(s: StudentBalance, nowMs: int)
    ensures var ar := Students.StudentAr(Some(Students.Student(s.studentId, s.firstName, s.lastName, s.tuition, s.enrolledMs)), nowMs, s.totalPaid);
      && ar.Success?
      && Balance(RowOf(s, nowMs)) == ar.value.position.outstanding
      && RowOf(s, nowMs).studentName == ar.value.studentName
  {
    var found := Some(Students.Student(s.studentId, s.firstName, s.lastName, s.tuition, s.enrolledMs));
    var ar := Students.StudentAr(found, nowMs, s.totalPaid);
    assert ar.value.position == Accrual.PositionOf(s.tuition, s.enrolledMs, nowMs, s.totalPaid);
  }

  /** One row per student, in the query's order. */
  function Rows(students: seq<StudentBalance>, nowMs: int): (rows: seq<AgingRow>)
    ensures |rows| == |students|
    ensures forall i :: 0 <= i < |rows| ==> rows[i] == RowOf(students[i], nowMs)
  {
    if students == [] then [] else [RowOf(students[0], nowMs)] + Rows(students[1..], nowMs)
  }

  // ---------------------------------------------------------------------------------------
  // Dropping the rows that owe nothing

  /** The rows with a positive balance, in their order. */
  function Owing(rows: seq<AgingRow>): (kept: seq<AgingRow>)
    ensures |kept| <= |rows|
  {
    if rows == [] then []
    else (if Balance(rows[0]) > 0 then [rows[0]] else []) + Owing(rows[1..])
  }

  /** The rows with balance k, in their order. */
  function WithBalance(rows: seq<AgingRow>, k: int): seq<AgingRow>
  {
    if rows == [] then []
    else (if Balance(rows[0]) == k then [rows[0]] else []) + WithBalance(rows[1..], k)
  }

  lemma {:induction false} OwingMembers(rows: seq<AgingRow>)
    ensures forall r :: r in Owing(rows) <==> r in rows && Balance(r) > 0
  {
    if rows != [] {
      OwingMembers(rows[1..]);
      assert rows == [rows[0]] + rows[1..];
    }
  }

  /** Filtering keeps, for every positive balance, exactly the rows with that balance, in order. */
  lemma {:induction false} OwingKeepsBalances(rows: seq<AgingRow>, k: int)
    ensures WithBalance(Owing(rows), k) == if k > 0 then WithBalance(rows, k) else []
  {
    if rows != [] {
      OwingKeepsBalances(rows[1..], k);
      var head := if Balance(rows[0]) > 0 then [rows[0]] else [];
      WithBalanceAppend(head, Owing(rows[1..]), k);
    }
  }

  lemma {:induction false} WithBalanceAppend(a: seq<AgingRow>, b: seq<AgingRow>, k: int)
    ensures WithBalance(a + b, k) == WithBalance(a, k) + WithBalance(b, k)
  {
    if a == [] {
      assert a + b == b;
    } else {
      var head := if Balance(a[0]) == k then [a[0]] else [];
      assert (a + b)[0] == a[0] && (a + b)[1..] == a[1..] + b;
      WithBalanceAppend(a[1..], b, k);
      assert WithBalance(a + b, k) == head + WithBalance(a[1..] + b, k);
      assert WithBalance(a, k) == head + WithBalance(a[1..], k);
    }
  }

  // ---------------------------------------------------------------------------------------
  // Sorting by balance, largest first, stably

  predicate NonIncreasing(rows: seq<AgingRow>)
  {
    forall i, j :: 0 <= i < j < |rows| ==> Balance(rows[i]) >= Balance(rows[j])
  }

  /** Places x before the first row whose balance is not larger than its own. */
  function Insert(x: AgingRow, sorted: seq<AgingRow>): (r: seq<AgingRow>)
    ensures multiset(r) == multiset(sorted) + multiset{x}
  {
    if sorted == [] || Balance(sorted[0]) <= Balance(x) then [x] + sorted
    else
      assert sorted == [sorted[0]] + sorted[1..];
      [sorted[0]] + Insert(x, sorted[1..])
  }

  lemma {:induction false} InsertMembers(x: AgingRow, sorted: seq<AgingRow>)
    ensures forall y :: y in Insert(x, sorted) <==> y == x || y in sorted
  {
    if !(sorted == [] || Balance(sorted[0]) <= Balance(x)) {
      InsertMembers(x, sorted[1..]);
      assert sorted == [sorted[0]] + sorted[1..];
    }
  }

  /** Inserting into a sorted sequence leaves it sorted. */
  lemma {:induction false} InsertKeepsOrder(x: AgingRow, sorted: seq<AgingRow>)
    requires NonIncreasing(sorted)
    ensures NonIncreasing(Insert(x, sorted))
  {
    if sorted == [] || Balance(sorted[0]) <= Balance(x) {
      ConsKeepsOrder(x, sorted);
    } else {
      HeadIsLargest(sorted);
      InsertKeepsOrder(x, sorted[1..]);
      InsertMembers(x, sorted[1..]);
      ConsKeepsOrder(sorted[0], Insert(x, sorted[1..]));
    }
  }

  /** The first row of a sorted sequence has the largest balance, and the rest is sorted. */
  lemma HeadIsLargest(sorted: seq<AgingRow>)
    requires sorted != [] && NonIncreasing(sorted)
    ensures NonIncreasing(sorted[1..])
    ensures forall y :: y in sorted[1..] ==> Balance(y) <= Balance(sorted[0])
  {
    forall y | y in sorted[1..]
      ensures Balance(y) <= Balance(sorted[0])
    {
      var k :| 0 <= k < |sorted[1..]| && sorted[1..][k] == y;
      assert sorted[k + 1] == y;
    }
  }

  /** A row no smaller than every row of a sorted sequence can go in front of it. */
  lemma ConsKeepsOrder(h: AgingRow, rest: seq<AgingRow>)
    requires NonIncreasing(rest)
    requires forall y :: y in rest ==> Balance(y) <= Balance(h)
    ensures NonIncreasing([h] + rest)
  {
    var r := [h] + rest;
    forall i, j | 0 <= i < j < |r|
      ensures Balance(r[i]) >= Balance(r[j])
    {
      assert r[j] == rest[j - 1];
      if i > 0 {
        assert r[i] == rest[i - 1];
      }
    }
  }

  /** Sorts by balance, largest first, as a stable sort with the comparator `b - a` does. */
  function SortByBalance(rows: seq<AgingRow>): (r: seq<AgingRow>)
    ensures NonIncreasing(r)
    ensures multiset(r) == multiset(rows)
  {
    if rows == [] then []
    else
      assert rows == [rows[0]] + rows[1..];
      InsertKeepsOrder(rows[0], SortByBalance(rows[1..]));
      Insert(rows[0], SortByBalance(rows[1..]))
  }

  lemma {:induction false} InsertKeepsBalances(x: AgingRow, sorted: seq<AgingRow>, k: int)
    ensures WithBalance(Insert(x, sorted), k) == (if Balance(x) == k then [x] else []) + WithBalance(sorted, k)
  {
    if sorted == [] || Balance(sorted[0]) <= Balance(x) {
      assert Insert(x, sorted) == [x] + sorted;
      WithBalanceCons(x, sorted, k);
    } else {
      var h, tail := sorted[0], sorted[1..];
      assert [h] + tail == sorted;
      assert Insert(x, sorted) == [h] + Insert(x, tail);
      InsertKeepsBalances(x, tail, k);
      PassLarger(h, x, tail, Insert(x, tail), k);
    }
  }

  /** A row larger than x, put in front, leaves x's place among the rows of balance k alone. */
  lemma PassLarger(h: AgingRow, x: AgingRow, tail: seq<AgingRow>, rest: seq<AgingRow>, k: int)
    requires Balance(h) > Balance(x)
    requires WithBalance(rest, k) == (if Balance(x) == k then [x] else []) + WithBalance(tail, k)
    ensures WithBalance([h] + rest, k) == (if Balance(x) == k then [x] else []) + WithBalance([h] + tail, k)
  {
    WithBalanceCons(h, rest, k);
    WithBalanceCons(h, tail, k);
    if Balance(x) == k {
      assert WithBalance([h] + rest, k) == WithBalance(rest, k);
      assert WithBalance([h] + tail, k) == WithBalance(tail, k);
    } else {
      assert WithBalance(rest, k) == WithBalance(tail, k);
    }
  }

  lemma WithBalanceCons(h: AgingRow, rest: seq<AgingRow>, k: int)
    ensures WithBalance([h] + rest, k) == (if Balance(h) == k then [h] else []) + WithBalance(rest, k)
  {
    assert ([h] + rest)[1..] == rest;
  }

  /** The sort is stable: for every balance, the rows with that balance keep their order. */
  lemma {:induction false} SortKeepsBalances(rows: seq<AgingRow>, k: int)
    ensures WithBalance(SortByBalance(rows), k) == WithBalance(rows, k)
  {
    if rows != [] {
      SortKeepsBalances(rows[1..], k);
      InsertKeepsBalances(rows[0], SortByBalance(rows[1..]), k);
    }
  }

  lemma {:induction false} WithBalanceNonEmpty(rows: seq<AgingRow>, k: int)
    ensures WithBalance(rows, k) != [] <==> exists i :: 0 <= i < |rows| && Balance(rows[i]) == k
  {
    if rows != [] {
      WithBalanceNonEmpty(rows[1..], k);
      if Balance(rows[0]) != k && exists i :: 0 <= i < |rows| && Balance(rows[i]) == k {
        var i :| 0 <= i < |rows| && Balance(rows[i]) == k;
        assert Balance(rows[1..][i - 1]) == k;
      }
    }
  }

  lemma WithBalanceTail(rows: seq<AgingRow>, k: int)
    requires rows != []
    ensures WithBalance(rows[1..], k) == if Balance(rows[0]) == k then WithBalance(rows, k)[1..] else WithBalance(rows, k)
  {
    if Balance(rows[0]) == k {
      assert WithBalance(rows, k) == [rows[0]] + WithBalance(rows[1..], k);
    } else {
      assert WithBalance(rows, k) == [] + WithBalance(rows[1..], k);
    }
  }

  /** Two sorted orders with the same rows per balance start with the same row: both start
      with the first row of the largest balance. */
  lemma SameFirst(a: seq<AgingRow>, b: seq<AgingRow>)
    requires a != [] && b != []
    requires NonIncreasing(a) && NonIncreasing(b)
    requires forall k :: WithBalance(a, k) == WithBalance(b, k)
    ensures a[0] == b[0]
  {
    var ka, kb := Balance(a[0]), Balance(b[0]);
    WithBalanceNonEmpty(a, kb);
    WithBalanceNonEmpty(b, ka);
    assert WithBalance(b, ka) == WithBalance(a, ka) != [];
    assert WithBalance(a, kb) == WithBalance(b, kb) != [];
    assert ka == kb;
    assert WithBalance(a, ka)[0] == a[0];
    assert WithBalance(b, ka)[0] == b[0];
  }

  /** Any two orders of the same rows, both sorted largest balance first and both keeping the
      order of equal balances, are the same sequence: the report's order is fully determined,
      whatever stable sort produces it. */
  lemma {:induction false} StableOrderIsUnique(a: seq<AgingRow>, b: seq<AgingRow>)
    requires NonIncreasing(a) && NonIncreasing(b)
    requires forall k :: WithBalance(a, k) == WithBalance(b, k)
    ensures a == b
    decreases |a|
  {
    if a == [] || b == [] {
      var k := if a != [] then Balance(a[0]) else if b != [] then Balance(b[0]) else 0;
      assert WithBalance(a, k) == WithBalance(b, k);
    } else {
      SameFirst(a, b);
      forall k
        ensures WithBalance(a[1..], k) == WithBalance(b[1..], k)
      {
        WithBalanceTail(a, k);
        WithBalanceTail(b, k);
      }
      StableOrderIsUnique(a[1..], b[1..]);
      assert a == [a[0]] + a[1..] && b == [b[0]] + b[1..];
    }
  }

  // ---------------------------------------------------------------------------------------
  // The totals line

  /** One field of every row, in order. */
  function Column(rows: seq<AgingRow>, f: Field): seq<int>
  {
    if rows == [] then [] else [rows[0].amounts.Get(f)] + Column(rows[1..], f)
  }

  /** The accumulator step of the totals: every field adds the row's field. */
  function AddRow(acc: Amounts, r: AgingRow): (sum: Amounts)
    ensures acc.Balanced() && r.amounts.Balanced() ==> sum.Balanced()
  {
    Amounts(acc.totalOutstanding + r.amounts.totalOutstanding,
            acc.current + r.amounts.current,
            acc.days30 + r.amounts.days30,
            acc.days60 + r.amounts.days60,
            acc.days90Plus + r.amounts.days90Plus)
  }

  /** Reduces the rows from the first to the last, starting from `acc`. */
  function Reduce(acc: Amounts, rows: seq<AgingRow>): Amounts
    decreases |rows|
  {
    if rows == [] then acc else Reduce(AddRow(acc, rows[0]), rows[1..])
  }

  /** Each field of the reduction is the starting value plus the sum of that column. */
  lemma {:induction false} ReduceIsColumnSum(acc: Amounts, rows: seq<AgingRow>, f: Field)
    ensures Reduce(acc, rows).Get(f) == acc.Get(f) + Sum(Column(rows, f))
    decreases |rows|
  {
    if rows != [] {
      ReduceIsColumnSum(AddRow(acc, rows[0]), rows[1..], f);
      AddRowAddsEachField(acc, rows[0], f);
    }
  }

  /** The accumulator step adds the row to every column, the balance and each bucket alike. */
  lemma AddRowAddsEachField(acc: Amounts, r: AgingRow, f: Field)
    ensures AddRow(acc, r).Get(f) == acc.Get(f) + r.amounts.Get(f)
  {
    match f
    case TotalOutstanding =>
    case InBucket(b) =>
      match b
      case Current =>
      case Days30 =>
      case Days60 =>
      case Days90Plus =>
  }

  /** Balanced rows reduce to a balanced totals line. */
  lemma {:induction false} ReduceKeepsBalance(acc: Amounts, rows: seq<AgingRow>)
    requires acc.Balanced()
    requires forall r :: r in rows ==> r.amounts.Balanced()
    ensures Reduce(acc, rows).Balanced()
    decreases |rows|
  {
    if rows != [] {
      assert rows[0] in rows;
      assert forall r :: r in rows[1..] ==> r in rows;
      ReduceKeepsBalance(AddRow(acc, rows[0]), rows[1..]);
    }
  }

  /** Dropping rows whose amounts are all zero changes no column sum. */
  lemma {:induction false} OwingColumnSum(rows: seq<AgingRow>, f: Field)
    requires forall r :: r in rows && Balance(r) <= 0 ==> r.amounts == Zero
    ensures Sum(Column(Owing(rows), f)) == Sum(Column(rows, f))
  {
    if rows != [] {
      assert forall r :: r in rows[1..] ==> r in rows;
      OwingColumnSum(rows[1..], f);
      var head := if Balance(rows[0]) > 0 then [rows[0]] else [];
      ColumnAppend(head, Owing(rows[1..]), f);
      SumAppend(Column(head, f), Column(Owing(rows[1..]), f));
      assert rows[0] in rows;
      if head == [] {
        assert rows[0].amounts.Get(f) == 0 by {
          match f
          case TotalOutstanding =>
          case InBucket(b) =>
        }
      } else {
        assert Column(head, f) == [rows[0].amounts.Get(f)];
      }
    }
  }

  lemma {:induction false} ColumnAppend(a: seq<AgingRow>, b: seq<AgingRow>, f: Field)
    ensures Column(a + b, f) == Column(a, f) + Column(b, f)
  {
    if a == [] {
      assert a + b == b;
    } else {
      assert (a + b)[0] == a[0] && (a + b)[1..] == a[1..] + b;
      ColumnAppend(a[1..], b, f);
      assert Column(a + b, f) == [a[0].amounts.Get(f)] + Column(a[1..] + b, f);
    }
  }

  /** Sorting changes no column sum. */
  lemma {:induction false} SortColumnSum(rows: seq<AgingRow>, f: Field)
    ensures Sum(Column(SortByBalance(rows), f)) == Sum(Column(rows, f))
  {
    if rows != [] {
      SortColumnSum(rows[1..], f);
      InsertColumnSum(rows[0], SortByBalance(rows[1..]), f);
    }
  }

  lemma {:induction false} InsertColumnSum(x: AgingRow, sorted: seq<AgingRow>, f: Field)
    ensures Sum(Column(Insert(x, sorted), f)) == x.amounts.Get(f) + Sum(Column(sorted, f))
  {
    if !(sorted == [] || Balance(sorted[0]) <= Balance(x)) {
      InsertColumnSum(x, sorted[1..], f);
    }
  }

  // ---------------------------------------------------------------------------------------
  // The report

  datatype Report = Report(rows: seq<AgingRow>, totals: Amounts)

  /** The aging report over the active students (in the query's order: by last name, then
      first name), evaluated at `nowMs`. */
  function AgingReport(students: seq<StudentBalance>, nowMs: int): (rep: Report)
    ensures NonIncreasing(rep.rows)
    ensures forall r :: r in rep.rows <==> r in Rows(students, nowMs) && Balance(r) > 0
    ensures forall k :: WithBalance(rep.rows, k) == if k > 0 then WithBalance(Rows(students, nowMs), k) else []
    ensures forall f :: rep.totals.Get(f) == Sum(Column(rep.rows, f))
    ensures forall f :: rep.totals.Get(f) == Sum(Column(Rows(students, nowMs), f))
    ensures rep.totals.Balanced()
  {
    var all := Rows(students, nowMs);
    var rows := SortByBalance(Owing(all));
    RowsFacts(students, nowMs);
    ReportRows(all);
    ReportTotals(all);
    ReduceKeepsBalance(Zero, rows);
    Report(rows, Reduce(Zero, rows))
  }

  /** Every row owes a non-negative balance, spread over its buckets, and a row owing nothing
      has nothing in any bucket. */
  lemma RowsFacts(students: seq<StudentBalance>, nowMs: int)
    ensures forall r :: r in Rows(students, nowMs) ==> Balance(r) >= 0 && r.amounts.Balanced()
    ensures forall r :: r in Rows(students, nowMs) && Balance(r) <= 0 ==> r.amounts == Zero
  {
    var all := Rows(students, nowMs);
    forall r | r in all
      ensures Balance(r) >= 0 && r.amounts.Balanced()
      ensures Balance(r) <= 0 ==> r.amounts == Zero
    {
      var i :| 0 <= i < |all| && all[i] == r;
      assert r == RowOf(students[i], nowMs);
    }
  }

  /** The report keeps exactly the owing rows, and for every balance keeps their order. */
  lemma ReportRows(all: seq<AgingRow>)
    ensures forall r :: r in SortByBalance(Owing(all)) <==> r in all && Balance(r) > 0
    ensures forall k :: WithBalance(SortByBalance(Owing(all)), k) == if k > 0 then WithBalance(all, k) else []
  {
    var rows := SortByBalance(Owing(all));
    OwingMembers(all);
    assert forall r :: r in rows <==> r in multiset(rows);
    assert forall r :: r in Owing(all) <==> r in multiset(Owing(all));
    forall k
      ensures WithBalance(rows, k) == if k > 0 then WithBalance(all, k) else []
    {
      SortKeepsBalances(Owing(all), k);
      OwingKeepsBalances(all, k);
    }
  }

  /** The totals line is the column sums of the report, and also of all the rows, since the
      dropped rows hold only zeros. */
  lemma ReportTotals(all: seq<AgingRow>)
    requires forall r :: r in all && Balance(r) <= 0 ==> r.amounts == Zero
    ensures forall f :: Reduce(Zero, SortByBalance(Owing(all))).Get(f) == Sum(Column(SortByBalance(Owing(all)), f))
    ensures forall f :: Reduce(Zero, SortByBalance(Owing(all))).Get(f) == Sum(Column(all, f))
  {
    var rows := SortByBalance(Owing(all));
    forall f
      ensures Reduce(Zero, rows).Get(f) == Sum(Column(rows, f))
      ensures Reduce(Zero, rows).Get(f) == Sum(Column(all, f))
    {
      ReduceIsColumnSum(Zero, rows, f);
      SortColumnSum(Owing(all), f);
      OwingColumnSum(all, f);
    }
  }
}
