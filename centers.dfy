/** The statistics of one center: how full it is against its capacity, and how much of the
    revenue expected from its active students is still unpaid. The counts and sums come from
    the database and are inputs here; amounts are integer cents, percentages are exact reals. */
module Centers {
  import opened Wrappers
  import Accrual

  /** A center record (the columns the statistics read or echo back). */
  datatype Center = Center(id: int, name: string, capacity: int)

  datatype StatsError = CenterNotFound

  /** The statistics response: the center, its active enrollment and the three derived figures.
      `capacityPercent` is None where the JSON value is null: a zero capacity divides by zero. */
  datatype CenterStats = CenterStats(
    center: Center,
    enrollment: nat,
    capacityPercent: Option<real>,
    arOutstanding: int,
    arPercent: real)

  /** Enrollment as a percentage of capacity. Nothing guards a zero capacity; the quotient is
      then not a finite number, and the response carries null. */
  function CapacityPercent(enrollment: int, capacity: int): (p: Option<real>)
    ensures p.None? <==> capacity == 0
    ensures p.Some? ==> p.value * capacity as real == enrollment as real * 100.0
    ensures p.Some? ==> (p.value == 100.0 <==> enrollment == capacity)
    ensures capacity > 0 && 0 <= enrollment <= capacity ==> p.Some? && 0.0 <= p.value <= 100.0
  {
    if capacity == 0 then None
    else
      var q := (enrollment as real / capacity as real) * 100.0;
      assert q * capacity as real == enrollment as real * 100.0;
      Some(q)
  }

  /** The share of the expected revenue still outstanding, in percent; 0 when nothing is
      expected, so there is never a division by zero. */
  function ArPercent(expectedRevenue: int, totalPaid: int): (p: real)
    ensures expectedRevenue <= 0 ==> p == 0.0
    ensures expectedRevenue > 0 ==>
              p * expectedRevenue as real == Accrual.Outstanding(expectedRevenue, totalPaid) as real * 100.0
    ensures expectedRevenue > 0 && totalPaid >= 0 ==> 0.0 <= p <= 100.0
    ensures expectedRevenue > 0 ==> (p == 100.0 <==> totalPaid == 0)
    ensures expectedRevenue > 0 ==> (p == 0.0 <==> totalPaid >= expectedRevenue)
  {
    if expectedRevenue > 0 then
      var e := expectedRevenue as real;
      var o := Accrual.Outstanding(expectedRevenue, totalPaid) as real;
      var q := (o / e) * 100.0;
      assert q * e == o * 100.0;
      q
    else 0.0
  }

  /** The statistics of the center found by its id, from the count of its active students, the
      revenue expected from them and the sum of their payments. */
  function Stats(found: Option<Center>, enrollment: nat, expectedRevenue: int, totalPaid: int): (r: Result<CenterStats, StatsError>)
    ensures found.None? <==> r == Failure(CenterNotFound)
    ensures found.Some? ==>
              && r.Success?
              && r.value.center == found.value
              && r.value.enrollment == enrollment
              && r.value.capacityPercent == CapacityPercent(enrollment, found.value.capacity)
              && r.value.arOutstanding >= 0
              && (r.value.arOutstanding == 0 <==> totalPaid >= expectedRevenue)
              && r.value.arOutstanding >= expectedRevenue - totalPaid
              && (r.value.arOutstanding > 0 ==> r.value.arOutstanding + totalPaid == expectedRevenue)
              && r.value.arPercent == ArPercent(expectedRevenue, totalPaid)
  {
    match found
    case None => Failure(CenterNotFound)
    case Some(c) =>
      Success(CenterStats(c, enrollment, CapacityPercent(enrollment, c.capacity),
        Accrual.Outstanding(expectedRevenue, totalPaid), ArPercent(expectedRevenue, totalPaid)))
  }

  /** More money paid never raises the outstanding share. */
  lemma ArPercentMonotone(expectedRevenue: int, paid: int, morePaid: int)
    requires paid <= morePaid
    ensures ArPercent(expectedRevenue, morePaid) <= ArPercent(expectedRevenue, paid)
  {
    if expectedRevenue > 0 {
      var e := expectedRevenue as real;
      var p1, p2 := ArPercent(expectedRevenue, paid), ArPercent(expectedRevenue, morePaid);
      var o1, o2 := Accrual.Outstanding(expectedRevenue, paid), Accrual.Outstanding(expectedRevenue, morePaid);
      assert p1 - p2 == ((o1 - o2) as real / e) * 100.0;
      assert (o1 - o2) as real / e >= 0.0;
    }
  }
}
