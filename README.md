# CCLDI-Manager accounts receivable and report queries, in Dafny

This project models the accounts-receivable (AR) core of the CCLDI-Manager backend, a
tuition and payment manager for child-care centers. The model covers four areas.

- **Student AR arithmetic.** A student's position is computed from the tuition per 30-day
  period, the enrollment instant, the current instant and the total of all payments. It
  consists of:
  - the whole periods elapsed;
  - the payments expected, which count the enrollment period itself;
  - the tuition expected;
  - the outstanding balance, which is never negative;
  - the number of whole periods that balance amounts to.
- **The aging report.** The report is built in four steps:
  - one row per active student;
  - the whole balance goes into the bucket for its unpaid periods (current, 30, 60 or
    90-plus days);
  - rows that owe nothing are dropped, and the rest are sorted by balance, largest first,
    with a stable sort;
  - a totals line sums every column.
- **The parameterised filter queries.** Four handlers build SQL queries: the student list,
  the payment list, the payment statistics and the aging query.
  - The text starts with a fixed SELECT head.
  - Each filter that applies appends ` AND ...` with the next `$n` placeholder and pushes
    its value.
  - A fixed tail follows.
  
  Besides the text, the model reads the placeholders back out of it. "Every `$k` names
  the k-th parameter, numbered in push order" is therefore proved about the rendered text
  itself.
- **Center statistics.** These are the occupancy percentage and the share of expected
  revenue still outstanding.

Amounts are integer cents, and instants are integer milliseconds since the epoch. One
period is exactly 30 days (`PeriodMs`), not a calendar month. Query-string values are
`Option<string>`, where `None` is an absent value. JavaScript truthiness becomes
`Sql.Truthy`, which means present and non-empty.

Modules:

| module | contents |
|---|---|
| `Wrappers` | `Option` and `Result` |
| `Sums` | sums of integer sequences |
| `Accrual` | the AR arithmetic |
| `Sql` | conditions, clause rendering, the `$n` placeholder scanner, the filter-appending method |
| `Students` | the student list query and the AR summary endpoint |
| `Billing` | the payment list, statistics and aging queries, and the month label of a payment |
| `Aging` | the report computed from the aging query's rows |
| `Centers` | the center statistics |

Two behaviours of the code are worth naming:

- The handlers do not reject an enrollment date in the future. It yields a negative period
  count and nothing owed; `Accrual.FutureEnrollmentOwesNothing` states this.
- Each report row is rounded to cents before the totals are summed. In integer cents this
  rounding is exact.

## Model

| member | source | states |
|---|---|---|
| Accrual.MonthsSinceEnrollment | backend/src/routes/students.js:119-121 | the result is the floor of the elapsed time over 30 days: `m*P <= now-enrolled < (m+1)*P`; it is non-negative iff enrollment is not in the future |
| Accrual.ExpectedPayments | backend/src/routes/students.js:122 | the periods begun: `(n-1)*P <= elapsed < n*P`; at least 1 once enrolled |
| Accrual.ExpectedTotal | backend/src/routes/students.js:123 | zero tuition expects nothing; otherwise at least one period's tuition is expected once enrolled |
| Accrual.Outstanding | backend/src/routes/students.js:132 | the balance is never negative; it is zero iff the payments cover the expected total; a positive balance plus the payments equals the expected total |
| Accrual.MonthsUnpaid | backend/src/routes/students.js:133 | 0 without a positive tuition; otherwise the number of whole tuitions in the balance: `m*t <= o < (m+1)*t` |
| Accrual.PositionOf | backend/src/routes/students.js:116-133 | every field of the AR position, each characterised as above |
| Accrual.ExpectedTotalMonotone | backend/src/routes/students.js:119-123 | with a non-negative tuition, the expected total never decreases as time passes |
| Accrual.OutstandingMonotoneInTime | backend/src/routes/students.js:116-132 | with no new payment, the balance never decreases as time passes |
| Accrual.PaymentLowersOutstanding | backend/src/routes/students.js:126-132 | a payment of at least 0.01 (the smallest amount a payment may carry) adds its amount to the total paid; it never raises the balance and strictly lowers a positive one |
| Accrual.MonthsUnpaidWithinExpected | backend/src/routes/students.js:122-133 | the unpaid periods never exceed the periods billed so far |
| Accrual.FutureEnrollmentOwesNothing | backend/src/routes/students.js:119-133 | a future enrollment gives a negative period count, an expected total of at most 0, no balance and no unpaid periods |
| Students.FullName | backend/src/routes/students.js:139 | the name is the first name, one space, then the last name: both parts can be read back at their positions |
| Students.ListConditions | backend/src/routes/students.js:33-53 | one condition per filter that applies: the center when truthy and not `all`, the status unless it is given empty, the search when truthy |
| Students.StatusFilter | backend/src/routes/students.js:22 | present unless the status is given empty; then it compares the status, or `active` when absent |
| Students.SearchFilter | backend/src/routes/students.js:45-52 | present iff the search is truthy; then it is the three-fold search condition whose pattern has the search term inside |
| Students.StudentAr | backend/src/routes/students.js:99-146 | a missing student gives the not-found error; otherwise the summary carries the id, "first last", the tuition and exactly the AR position |
| Students.StatusOrDefault | backend/src/routes/students.js:22 | the status is `active` when absent and the given value otherwise (even when empty) |
| Students.Contains | backend/src/routes/students.js:52 | the search pattern is the search term between two `%` |
| Students.ListQuery | backend/src/routes/students.js:24-55 | the text is the head, then the clauses of the applicable filters numbered 1.., then the order; the parameters are their values in the same order |
| Students.AppendListFilters | backend/src/routes/students.js:30-53 | after the three `if`s, the text and parameters render exactly the list's condition list |
| Students.ListFilters | backend/src/routes/students.js:33-53 | the center condition with value v is present iff the center is given non-empty, is not `all` and equals v; likewise the status (after its default) and the search pattern; at most 3 conditions |
| Students.AllCentersAddsNothing | backend/src/routes/students.js:33 | an absent, empty or `all` center gives the same conditions as no center |
| Students.SearchBindsOnePattern | backend/src/routes/students.js:45-53 | a non-empty search adds exactly one parameter, `%search%`, as the last one |
| Students.SearchNamedThrice | backend/src/routes/students.js:47-51 | the search's placeholder number is the last one, and it appears three times |
| Students.ListPlaceholders | backend/src/routes/students.js:24-55 | the placeholders read from the final text are 1..n in order, where n is the parameter count; each names a bound parameter and every parameter is named |
| Sql.Truthy | backend/src/routes/students.js:39 | JavaScript truthiness of a query value: present and not empty; every filter's lemmas are stated with it |
| Sql.CenterFilterApplies | backend/src/routes/students.js:33 | the center filter applies iff the value is truthy and not `all`; `Students.ListFilters`, `Billing.PaymentFilters`, `Billing.StatsFilters` and `Billing.AllCentersAddsNothing` state what it adds |
| Sql.Clause | backend/src/routes/students.js:35 | the clause a condition appends as parameter n; `Sql.PlaceholdersOfClause` states that it names n once, or three times for the search |
| Sql.Where | backend/src/routes/students.js:33-53 | the clauses of the conditions in append order, the i-th numbered i; `Sql.PlaceholdersOfWhere` states that its placeholders are the conditions' slots |
| Sql.Params | backend/src/routes/students.js:36 | one pushed value per condition, in order; `Sql.AppendParam` and the handlers' query methods state it |
| Sql.Decimal | backend/src/routes/students.js:35 | the rendered number is a non-empty run of digits |
| Sql.ValueOfDecimal | backend/src/routes/students.js:35 | reading back the rendered number gives the number |
| Sql.DigitRun | backend/src/routes/students.js:35 | part of the reader of the `$n` placeholders this line writes: the digit run after a `$` stops at the first non-digit |
| Sql.PlaceholdersAppend | backend/src/routes/students.js:35 | the reader of the `$n` placeholders this line appends: reading a concatenation reads both parts, provided the second part does not continue a numeral |
| Sql.PlaceholdersOfPlaceholder | backend/src/routes/students.js:35 | the text `$n` holds exactly the placeholder n |
| Sql.NoPlaceholders | backend/src/routes/students.js:24-29 | the reader of the `$n` placeholders finds none in a text without `$`, such as this fixed head |
| Sql.PlaceholdersOfClause | backend/src/routes/students.js:35-51 | a comparison clause names its number once; the search clause names it three times |
| Sql.SearchClausePlaceholders | backend/src/routes/students.js:47-51 | the search clause names its number three times |
| Sql.PlaceholdersOfWhere | backend/src/routes/students.js:33-53 | the placeholders of the rendered conditions are their slots, i.e. condition i's number once per use |
| Sql.SlotsNumbered | backend/src/routes/students.js:31-46 | the slots of k conditions are numbered 1..k, never decrease, and name every number |
| Sql.QueryPlaceholders | backend/src/routes/students.js:24-55 | the placeholders of head + conditions + tail are the slots, hence numbered 1..n in order |
| Sql.AppendCondition | backend/src/routes/students.js:34-35 | one more condition appends its clause with the next number |
| Sql.AppendParam | backend/src/routes/students.js:36 | one more condition pushes its value last |
| Sql.AddFilter | backend/src/routes/students.js:33-37 | one applicable filter: the count goes up by one, its clause is appended with that number, and its value is pushed; the state renders the extended condition list |
| Sql.ApplyFilter | backend/src/routes/billing.js:30-52 | one `if` of a handler: the state renders the condition list extended by the filter's condition when it applies, and is unchanged otherwise |
| Billing.PaymentConditions | backend/src/routes/billing.js:30-52 | one condition per filter that applies (student, center, from, to); each is a comparison that names its parameter once |
| Billing.PaymentListQuery | backend/src/routes/billing.js:20-54 | the text is the head, then the clauses of the applicable filters (student, center, from, to) numbered 1.., then newest first; the parameters are their values in order |
| Billing.AppendPaymentFilters | backend/src/routes/billing.js:27-52 | after the four `if`s, the text and parameters render exactly the payment list's condition list |
| Billing.PaymentFilters | backend/src/routes/billing.js:30-52 | each payment filter is present with value v iff its value is given non-empty (and, for the center, is not `all`) and equals v; at most 4 conditions |
| Billing.PaymentListPlaceholders | backend/src/routes/billing.js:20-54 | the placeholders of the payment list query are 1..n in order, where n is the parameter count |
| Billing.StatsConditions | backend/src/routes/billing.js:221-231 | one condition per filter that applies (center, month); each is a comparison that names its parameter once |
| Billing.StatsQuery | backend/src/routes/billing.js:208-231 | the text is the statistics head, then the clauses for center and month numbered 1..; the parameters are their values |
| Billing.StatsFilters | backend/src/routes/billing.js:221-231 | the center condition is present as for the lists; the month condition with value v is present iff the month is given non-empty and equals v |
| Billing.StatsPlaceholders | backend/src/routes/billing.js:208-231 | the placeholders of the statistics query are 1..n in order, where n is the parameter count |
| Billing.AgingConditions | backend/src/routes/billing.js:90-93 | at most one condition, present iff the center filter applies, so the literal `$1` is the only placeholder the query can need |
| Billing.AgingQuery | backend/src/routes/billing.js:73-95 | the text is the aging head, the fixed ` AND s.center_id = $1` when the center filter applies, then the group and order tail; the parameter is the center id |
| Billing.FixedCenterClauseIsFirst | backend/src/routes/billing.js:91 | the literal `$1` clause is the center condition rendered as the first parameter |
| Billing.AgingFilter | backend/src/routes/billing.js:90-93 | the aging conditions render to the fixed clause and the center parameter when the filter applies, and to nothing otherwise |
| Billing.AgingPlaceholders | backend/src/routes/billing.js:73-95 | the placeholders of the aging query are 1..n in order, where n is the parameter count |
| Billing.AllCentersAddsNothing | backend/src/routes/billing.js:36 | in all three billing queries, an absent, empty or `all` center adds no condition |
| Billing.MonthFor | backend/src/routes/billing.js:179 | the month label is a prefix of the payment date, of length 7 (or the whole date when shorter) |
| Billing.MonthOfIsoDate | backend/src/routes/billing.js:178-179 | a YYYY-MM-DD date is labelled with its YYYY-MM month, and label + `-DD` is the date |
| Billing.MonthForIsPrefix | backend/src/routes/billing.js:179 | for a date of 7 or more characters, the label is the unique 7-character prefix |
| Billing.MonthForIdempotent | backend/src/routes/billing.js:179 | labelling a label changes nothing |
| Aging.BucketFor | backend/src/routes/billing.js:115-123 | 0, 1 and 2 unpaid periods are current, 30 and 60 days; every other count is 90-plus |
| Aging.Distribute | backend/src/routes/billing.js:112-124 | the buckets add up to the balance; the whole balance sits in the bucket of the unpaid periods (0, 1, 2, otherwise 90-plus) and the others are 0 |
| Aging.RowOf | backend/src/routes/billing.js:101-136 | the row carries the student's id, "first last", center and balance, which is the AR balance; its buckets add up to it |
| Aging.RowAt | backend/src/routes/billing.js:112-136 | the row for a given AR position carries that balance, bucketed |
| Aging.RowBuckets | backend/src/routes/billing.js:112-124 | the bucket of the unpaid periods holds the balance; every other bucket is 0 |
| Aging.BucketByBalance | backend/src/routes/billing.js:110-124 | with a positive tuition: current iff the balance is under one tuition, 30 days iff under two, 60 iff under three, 90-plus otherwise |
| Aging.RowMatchesStudentAr | backend/src/routes/billing.js:103-110 | a report row's balance and name are those of the student's own AR summary |
| Aging.Rows | backend/src/routes/billing.js:101 | one row per student, in the query's order |
| Aging.Owing | backend/src/routes/billing.js:137 | the filter never adds rows; `Aging.OwingMembers` and `Aging.OwingKeepsBalances` state which it keeps |
| Aging.OwingMembers | backend/src/routes/billing.js:137 | the filter keeps exactly the rows with a positive balance |
| Aging.OwingKeepsBalances | backend/src/routes/billing.js:137 | for each positive balance, the filter keeps those rows in order; it drops the others |
| Aging.Insert | backend/src/routes/billing.js:138 | inserting adds exactly that row |
| Aging.InsertKeepsOrder | backend/src/routes/billing.js:138 | inserting into a sorted sequence keeps it sorted, largest balance first |
| Aging.SortByBalance | backend/src/routes/billing.js:138 | the result is sorted largest balance first and is a permutation of the rows |
| Aging.InsertKeepsBalances | backend/src/routes/billing.js:138 | the inserted row comes first among the rows with its balance; those rows otherwise keep their order |
| Aging.SortKeepsBalances | backend/src/routes/billing.js:138 | the sort is stable: for every balance, those rows keep their order |
| Aging.StableOrderIsUnique | backend/src/routes/billing.js:137-138 | any two sequences that are sorted and keep each balance's rows in the same order are equal, so the report order does not depend on which stable sort is used |
| Aging.AddRow | backend/src/routes/billing.js:140-145 | adding a balanced row to a balanced accumulator keeps it balanced |
| Aging.AddRowAddsEachField | backend/src/routes/billing.js:140-145 | the accumulator step adds the row to each of the five columns |
| Aging.Reduce | backend/src/routes/billing.js:140-146 | the reduction from the first row to the last; `Aging.ReduceIsColumnSum` and `Aging.ReduceKeepsBalance` state its totals |
| Aging.ReduceIsColumnSum | backend/src/routes/billing.js:140-146 | each field of the reduction is the start value plus the column sum |
| Aging.ReduceKeepsBalance | backend/src/routes/billing.js:140-146 | balanced rows reduce to a balanced totals line |
| Aging.OwingColumnSum | backend/src/routes/billing.js:137-146 | dropping rows that hold only zeros changes no column sum |
| Aging.SortColumnSum | backend/src/routes/billing.js:138-146 | sorting changes no column sum |
| Aging.AgingReport | backend/src/routes/billing.js:99-146 | the rows are sorted; they are exactly the owing rows, with each balance's order kept; each total is the column sum of the report, and also of all rows; the totals are balanced |
| Centers.CapacityPercent | backend/src/routes/centers.js:66-67 | null iff capacity is 0; otherwise `p*capacity == enrollment*100`; 100 iff full; within [0,100] when the enrollment does not exceed a positive capacity |
| Centers.ArPercent | backend/src/routes/centers.js:81-82 | 0 when nothing is expected; otherwise `p*expected == outstanding*100`; within [0,100]; 100 iff nothing is paid; 0 iff the payments cover the expected revenue |
| Centers.Stats | backend/src/routes/centers.js:50-90 | a missing center gives the not-found error; otherwise the center, its enrollment and the three figures; the AR balance is never negative, is zero iff the payments cover the expected revenue, and a positive balance plus the payments is exactly the expected revenue |
| Centers.ArPercentMonotone | backend/src/routes/centers.js:81-82 | paying more never raises the outstanding share |

## Left out

- Running the SQL is not modelled: the lookups by id, `COUNT`, `SUM`, `COALESCE` and the
  joins. Their results are inputs: the found row as an `Option`, the enrollment count, the
  total paid and, for a center, the expected revenue.
  - The `LEFT JOIN` in the center statistics repeats each student's `tuition * 3` once per
    payment row. The expected revenue is therefore taken as given, not computed.
- Date parsing, time zones and the clock. The current instant and each enrollment instant
  are integer milliseconds passed in.
- Floating point: amounts are exact cents, so `toFixed(2)` and `parseFloat` are the
  identity. Percentages are exact reals.
- Accrual.MonthsUnpaid: the exact quotient of cents, while the code divides doubles. The
  double `Math.floor(outstanding / tuition)` can come out one lower when the balance is a
  whole number of tuitions that have no exact binary form. For example, take a tuition of
  341.40, three periods owed and nothing paid. The double product `341.40 * 3` falls just
  below 1024.20, so the quotient floors to 2 where the model gives 3.
- Aging.Distribute: inherits the exact `Accrual.MonthsUnpaid`. In the example above the
  code puts the balance in the 60-day bucket and the model puts it in the 90-plus bucket.
- Centers.CapacityPercent: the exact quotient, not rounded to two decimals. A zero capacity
  is `None`, standing for the `null` that the JSON response carries.
- Centers.ArPercent: the exact quotient, not rounded to two decimals.
- The request validation chains are not modelled. Their one bound used here is the smallest
  payment, 0.01 (`Accrual.MinPaymentCents`).
- HTTP status codes, JSON shapes and the mapping of database error 23503 are not modelled.
  The INSERT of a new payment is modelled only through its month label (`Billing.MonthFor`).
- A query value given several times arrives as an array. It is modelled only as a string or
  absent.
- The CRUD routes of students, billing and centers are left out, and so are
  `backend/src/routes/settings.js`, `backend/server.js` and
  `backend/src/config/init-db.js`. They are outside the AR and report core.
- The aging query's row order (by last name, then first name) is taken as the order of the
  input sequence. Sorting rows by name is the database's work.
- The SQL text is kept character for character from the handlers. Only the parts around
  the filters are proved about (no `$` in the fixed parts, a space before the tail); the
  meaning of the SQL itself is not modelled.
