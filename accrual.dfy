/** The accounts-receivable arithmetic for one student: periods elapsed since enrollment,
    the tuition expected by now, the balance still outstanding and how many whole periods of
    tuition that balance amounts to. The student AR endpoint and every row of the aging report
    compute exactly these expressions.

    Amounts are integer cents and instants are integer milliseconds since the epoch. */
module Accrual {
  import opened Sums

  /** One billing period: a fixed 30 days (1000 * 60 * 60 * 24 * 30 milliseconds), not a calendar month. */
  const PeriodMs: int := 2592000000

  /** The smallest payment a payment record may carry: 0.01, in cents. */
  const MinPaymentCents: int := 1

  /** Whole periods between enrollment and now, rounded down; negative when the enrollment
      date lies in the future (the source does not reject that case). */
  function MonthsSinceEnrollment(enrolledMs: int, nowMs: int): (m: int)
    ensures m * PeriodMs <= nowMs - enrolledMs < (m + 1) * PeriodMs
    ensures m >= 0 <==> nowMs >= enrolledMs
  {
    (nowMs - enrolledMs) / PeriodMs
  }

  /** Number of periods begun since enrollment: the enrollment period itself is billable from day one. */
  function ExpectedPayments(enrolledMs: int, nowMs: int): (n: int)
    ensures (n - 1) * PeriodMs <= nowMs - enrolledMs < n * PeriodMs
    ensures nowMs >= enrolledMs ==> n >= 1
  {
    MonthsSinceEnrollment(enrolledMs, nowMs) + 1
  }

  /** Tuition owed for every period begun so far. */
  function ExpectedTotal(tuition: int, enrolledMs: int, nowMs: int): (t: int)
    ensures tuition == 0 ==> t == 0
    ensures tuition >= 0 && nowMs >= enrolledMs ==> t >= tuition
  {
    tuition * ExpectedPayments(enrolledMs, nowMs)
  }

  /** What is still owed, `Math.max(0, expectedTotal - totalPaid)`: never negative, and an
      overpayment leaves nothing owed rather than a credit. */
  function Outstanding(expectedTotal: int, totalPaid: int): (o: int)
    ensures o >= 0
    ensures o == 0 <==> totalPaid >= expectedTotal
    ensures o > 0 ==> totalPaid + o == expectedTotal
  {
    if expectedTotal - totalPaid > 0 then expectedTotal - totalPaid else 0
  }

  /** Whole periods of tuition the balance amounts to; 0 when there is no positive tuition. */
  function MonthsUnpaid(outstanding: int, tuition: int): (m: int)
    ensures tuition <= 0 ==> m == 0
    ensures tuition > 0 && outstanding >= 0 ==> 0 <= m && m * tuition <= outstanding < (m + 1) * tuition
  {
    if tuition > 0 then outstanding / tuition else 0
  }

  /** A student's AR position as the endpoint reports it (all amounts in cents). */
  datatype Position = Position(
    monthsSinceEnrollment: int,
    expectedPayments: int,
    expectedTotal: int,
    totalPaid: int,
    outstanding: int,
    monthsUnpaid: int)

  /** The AR position of a student with the given tuition and enrollment instant, evaluated
      at `nowMs`, given the sum of all payments ever recorded for the student. */
  function PositionOf(tuition: int, enrolledMs: int, nowMs: int, totalPaid: int): (p: Position)
    ensures p.expectedPayments == p.monthsSinceEnrollment + 1
    ensures p.monthsSinceEnrollment * PeriodMs <= nowMs - enrolledMs < p.expectedPayments * PeriodMs
    ensures p.expectedTotal == tuition * p.expectedPayments
    ensures p.totalPaid == totalPaid
    ensures p.outstanding >= 0
    ensures p.outstanding == 0 <==> totalPaid >= p.expectedTotal
    ensures p.outstanding > 0 ==> totalPaid + p.outstanding == p.expectedTotal
    ensures tuition <= 0 ==> p.monthsUnpaid == 0
    ensures tuition > 0 ==> 0 <= p.monthsUnpaid && p.monthsUnpaid * tuition <= p.outstanding < (p.monthsUnpaid + 1) * tuition
  {
    var months := MonthsSinceEnrollment(enrolledMs, nowMs);
    var expectedTotal := ExpectedTotal(tuition, enrolledMs, nowMs);
    var outstanding := Outstanding(expectedTotal, totalPaid);
    Position(months, months + 1, expectedTotal, totalPaid, outstanding, MonthsUnpaid(outstanding, tuition))
  }

  /** As time passes, the tuition expected never decreases. */
  lemma ExpectedTotalMonotone(tuition: int, enrolledMs: int, earlierMs: int, laterMs: int)
    requires tuition >= 0 && earlierMs <= laterMs
    ensures ExpectedTotal(tuition, enrolledMs, earlierMs) <= ExpectedTotal(tuition, enrolledMs, laterMs)
  {
    var n1 := ExpectedPayments(enrolledMs, earlierMs);
    var n2 := ExpectedPayments(enrolledMs, laterMs);
    assert n1 <= n2;
    assert tuition * n2 - tuition * n1 == tuition * (n2 - n1);
  }

  /** As time passes, with no new payment the balance never decreases. */
  lemma OutstandingMonotoneInTime(tuition: int, enrolledMs: int, earlierMs: int, laterMs: int, totalPaid: int)
    requires tuition >= 0 && earlierMs <= laterMs
    ensures PositionOf(tuition, enrolledMs, earlierMs, totalPaid).outstanding
         <= PositionOf(tuition, enrolledMs, laterMs, totalPaid).outstanding
  {
    ExpectedTotalMonotone(tuition, enrolledMs, earlierMs, laterMs);
  }

  /** Recording a payment (at least one cent) raises the student's total paid and never raises
      the balance; a positive balance strictly decreases. */
  lemma PaymentLowersOutstanding(expectedTotal: int, ledger: seq<int>, amount: int)
    requires amount >= MinPaymentCents
    ensures Sum(ledger + [amount]) == Sum(ledger) + amount
    ensures Outstanding(expectedTotal, Sum(ledger + [amount])) <= Outstanding(expectedTotal, Sum(ledger))
    ensures Outstanding(expectedTotal, Sum(ledger)) > 0 ==>
              Outstanding(expectedTotal, Sum(ledger + [amount])) < Outstanding(expectedTotal, Sum(ledger))
  {
    SumAppend(ledger, [amount]);
    assert Sum([amount]) == amount by {
      assert [amount][1..] == [];
    }
  }

  /** With a positive tuition and no negative payment total, the periods unpaid never exceed
      the periods billed so far (and are 0 when none has begun). */
  lemma MonthsUnpaidWithinExpected(tuition: int, enrolledMs: int, nowMs: int, totalPaid: int)
    requires tuition > 0 && totalPaid >= 0
    ensures var p := PositionOf(tuition, enrolledMs, nowMs, totalPaid);
      p.monthsUnpaid <= if p.expectedPayments > 0 then p.expectedPayments else 0
  {
    var p := PositionOf(tuition, enrolledMs, nowMs, totalPaid);
    if p.outstanding > 0 {
      assert p.monthsUnpaid * tuition <= p.outstanding <= tuition * p.expectedPayments;
      FewerWholePeriods(p.monthsUnpaid, tuition, p.expectedPayments);
    }
  }

  /** m whole periods of a positive tuition that fit under n periods' worth are at most n. */
  lemma FewerWholePeriods(m: int, tuition: int, n: int)
    requires tuition > 0 && m * tuition <= tuition * n
    ensures m <= n
  {
    assert (m - n) * tuition <= 0;
  }

  /** An enrollment date in the future yields a negative period count, no tuition expected
      beyond zero, and so nothing outstanding and nothing unpaid. */
  lemma FutureEnrollmentOwesNothing(tuition: int, enrolledMs: int, nowMs: int, totalPaid: int)
    requires tuition >= 0 && totalPaid >= 0 && nowMs < enrolledMs
    ensures var p := PositionOf(tuition, enrolledMs, nowMs, totalPaid);
      p.monthsSinceEnrollment < 0 && p.expectedPayments <= 0 && p.expectedTotal <= 0
      && p.outstanding == 0 && p.monthsUnpaid == 0
  {
    var p := PositionOf(tuition, enrolledMs, nowMs, totalPaid);
    assert p.expectedPayments <= 0;
    assert tuition * p.expectedPayments <= 0;
  }
}
