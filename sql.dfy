/** The parameterised query text the list and statistics handlers build: a fixed SELECT, then
    one ` AND ...` condition per filter that applies, each naming its parameter by a `$n`
    placeholder, then a fixed tail. Besides the rendering, this module reads the placeholders
    back out of a text, so that "every `$k` names params[k-1]" is a statement about the text
    itself. */
module Sql {
  import opened Wrappers

  /** JavaScript truthiness of a query-string value: present and not the empty string. */
  predicate Truthy(v: Option<string>)
  {
    v.Some? && v.value != ""
  }

  /** The center filter applies unless the value is absent, empty or the literal `all`. */
  predicate CenterFilterApplies(centerId: Option<string>)
  {
    Truthy(centerId) && centerId.value != "all"
  }

  predicate IsDigit(c: char)
  {
    '0' <= c <= '9'
  }

  predicate AllDigits(s: string)
  {
    forall i :: 0 <= i < |s| ==> IsDigit(s[i])
  }

  /** The decimal numeral of n, as a template literal writes a non-negative integer. */
  function Decimal(n: nat): (s: string)
    ensures |s| > 0 && AllDigits(s)
  {
    if n < 10 then [('0' as int + n) as char]
    else Decimal(n / 10) + [('0' as int + n % 10) as char]
  }

  function DigitValue(c: char): nat
  {
    if IsDigit(c) then c as int - '0' as int else 0
  }

  /** The number a string of decimal digits denotes (Placeholders only applies it to digit runs). */
  function ValueOf(s: string): nat
  {
    if s == [] then 0 else ValueOf(s[..|s| - 1]) * 10 + DigitValue(s[|s| - 1])
  }

  lemma {:induction false} ValueOfDecimal(n: nat)
    ensures ValueOf(Decimal(n)) == n
  {
    var s := Decimal(n);
    if n < 10 {
      assert s[..0] == [];
    } else {
      assert s[..|s| - 1] == Decimal(n / 10);
      ValueOfDecimal(n / 10);
    }
  }

  /** Length of the run of digits that starts s. */
  function DigitRun(s: string): (k: nat)
    ensures k <= |s|
    ensures k < |s| ==> !IsDigit(s[k])
  {
    if s != [] && IsDigit(s[0]) then 1 + DigitRun(s[1..]) else 0
  }

  /** Everything a digit run covers is a digit. */
  lemma {:induction false} DigitRunDigits(s: string)
    ensures AllDigits(s[..DigitRun(s)])
    decreases |s|
  {
    var k := DigitRun(s);
    if k > 0 {
      DigitRunDigits(s[1..]);
      assert forall i :: 1 <= i < k ==> s[..k][i] == s[1..][..k - 1][i - 1];
    }
  }

  /** A digit run is determined by where its digits stop. */
  lemma {:induction false} DigitRunIs(s: string, k: nat)
    requires k <= |s| && AllDigits(s[..k]) && (k < |s| ==> !IsDigit(s[k]))
    ensures DigitRun(s) == k
    decreases k
  {
    if k > 0 {
      assert s[..k][0] == s[0];
      var prefix, rest := s[..k], s[1..][..k - 1];
      forall i | 0 <= i < k - 1
        ensures IsDigit(rest[i])
      {
        assert rest[i] == prefix[i + 1];
      }
      DigitRunIs(s[1..], k - 1);
    }
  }

  lemma DigitRunAppend(x: string, y: string)
    requires y == [] || !IsDigit(y[0])
    ensures DigitRun(x + y) == DigitRun(x)
  {
    var k := DigitRun(x);
    DigitRunDigits(x);
    assert (x + y)[..k] == x[..k];
    DigitRunIs(x + y, k);
  }

  /** The numbers of the `$n` placeholders in s, in the order they appear. */
  function Placeholders(s: string): seq<nat>
    decreases |s|
  {
    if s == [] then []
    else if s[0] == '$' && DigitRun(s[1..]) > 0 then
      var k := DigitRun(s[1..]);
      [ValueOf(s[1..1 + k])] + Placeholders(s[1 + k..])
    else Placeholders(s[1..])
  }

  /** Placeholders of a concatenation, when the second part cannot extend a numeral of the first. */
  lemma {:induction false} PlaceholdersAppend(a: string, b: string)
    requires b == [] || !IsDigit(b[0])
    ensures Placeholders(a + b) == Placeholders(a) + Placeholders(b)
    decreases |a|
  {
    if a == [] {
      assert a + b == b;
    } else if a[0] == '$' && DigitRun(a[1..]) > 0 {
      var k := DigitRun(a[1..]);
      PlaceholdersAppend(a[1 + k..], b);
      LeadingPlaceholder(a, k);
      StepAtPlaceholder(a, b, k);
    } else {
      PlaceholdersAppend(a[1..], b);
      StepAtOther(a, b);
    }
  }

  /** A leading placeholder of k digits is read the same with b after a. */
  lemma StepAtPlaceholder(a: string, b: string, k: nat)
    requires b == [] || !IsDigit(b[0])
    requires a != [] && a[0] == '$' && k == DigitRun(a[1..]) > 0
    ensures Placeholders(a + b) == [ValueOf(a[1..1 + k])] + Placeholders(a[1 + k..] + b)
  {
    ShiftedDigitRun(a, b);
    SplitAfterPlaceholder(a, b, k);
    LeadingPlaceholder(a + b, k);
  }

  lemma ShiftedDigitRun(a: string, b: string)
    requires b == [] || !IsDigit(b[0])
    requires a != []
    ensures DigitRun((a + b)[1..]) == DigitRun(a[1..])
  {
    assert (a + b)[1..] == a[1..] + b;
    DigitRunAppend(a[1..], b);
  }

  lemma SplitAfterPlaceholder(a: string, b: string, k: nat)
    requires a != [] && 0 < k < |a|
    ensures (a + b)[0] == a[0]
    ensures (a + b)[1..1 + k] == a[1..1 + k]
    ensures (a + b)[1 + k..] == a[1 + k..] + b
  {
  }

  /** How Placeholders reads a text that starts with a placeholder of k digits. */
  lemma LeadingPlaceholder(s: string, k: nat)
    requires s != [] && s[0] == '$' && k == DigitRun(s[1..]) > 0
    ensures Placeholders(s) == [ValueOf(s[1..1 + k])] + Placeholders(s[1 + k..])
  {
  }

  /** A leading character that starts no placeholder is skipped with or without b after a. */
  lemma StepAtOther(a: string, b: string)
    requires b == [] || !IsDigit(b[0])
    requires a != [] && !(a[0] == '$' && DigitRun(a[1..]) > 0)
    ensures Placeholders(a) == Placeholders(a[1..])
    ensures Placeholders(a + b) == Placeholders(a[1..] + b)
  {
    var ab := a + b;
    assert ab[1..] == a[1..] + b;
    DigitRunAppend(a[1..], b);
    assert ab[0] == a[0];
  }

  /** A text without a `$` holds no placeholder. */
  lemma {:induction false} NoPlaceholders(s: string)
    requires '$' !in s
    ensures Placeholders(s) == []
    decreases |s|
  {
    if s != [] {
      assert forall i :: 0 <= i < |s| - 1 ==> s[1..][i] == s[i + 1];
      NoPlaceholders(s[1..]);
    }
  }

  /** The placeholder `$n`. */
  function Placeholder(n: nat): string
  {
    "$" + Decimal(n)
  }

  lemma PlaceholdersOfPlaceholder(n: nat)
    ensures Placeholders(Placeholder(n)) == [n]
  {
    var s := Placeholder(n);
    var d := Decimal(n);
    assert s[1..] == d;
    assert d[..|d|] == d;
    DigitRunIs(d, |d|);
    assert s[1..1 + |d|] == d;
    assert s[1 + |d|..] == [];
    ValueOfDecimal(n);
  }

  /** Columns the filters compare against. */
  datatype Column = StudentCenter | StudentStatus | PaymentStudent | PaymentDate | PaymentMonth

  function ColumnName(c: Column): (name: string)
    ensures '$' !in name
  {
    match c
    case StudentCenter => "s.center_id"
    case StudentStatus => "s.status"
    case PaymentStudent => "b.student_id"
    case PaymentDate => "b.payment_date"
    case PaymentMonth => "b.month_for"
  }

  datatype Comparison = Equal | AtLeast | AtMost

  function Symbol(op: Comparison): (sym: string)
    ensures '$' !in sym
  {
    match op
    case Equal => "="
    case AtLeast => ">="
    case AtMost => "<="
  }

  /** One filter condition together with the value its placeholder is bound to. */
  datatype Condition =
    | Compare(column: Column, op: Comparison, value: string)
      /** The free-text student search: one pattern matched against the full name, the
          parent and the contact number. */
    | NameParentContactLike(pattern: string)
  {
    /** The parameter value the condition's placeholder stands for. */
    function Bound(): string
    {
      match this
      case Compare(_, _, v) => v
      case NameParentContactLike(p) => p
    }

    /** How often the condition's SQL mentions its placeholder. */
    function Uses(): nat
    {
      if Compare? then 1 else 3
    }
  }

  /** The SQL appended for condition c when it is the n-th parameter. */
  function Clause(c: Condition, n: nat): string
  {
    match c
    case Compare(column, op, _) =>
      " AND " + ColumnName(column) + " " + Symbol(op) + " " + Placeholder(n)
    case NameParentContactLike(_) =>
      SearchClause(n)
  }

  /** Lines the SELECT heads of several handlers share. None holds a `$`.

      Every fixed text of the queries is assembled from short pieces, each with its own
      `'$' !in q`: one long literal makes that fact, and every proof that mentions the text,
      costly to check. The pieces shared by several heads are here; each handler's head is
      written out of its own pieces right after it. */
  function FromStudents(): (q: string)
    ensures '$' !in q
  {
    "      FROM students s\n"
  }

  function LeftJoinCenters(): (q: string)
    ensures '$' !in q
  {
    "      LEFT JOIN centers c " + "ON s.center_id = c.id\n"
  }

  function FromBilling(): (q: string)
    ensures '$' !in q
  {
    "      FROM billing b\n"
  }

  function JoinStudents(): (q: string)
    ensures '$' !in q
  {
    "      JOIN students s " + "ON b.student_id = s.id\n"
  }

  /** The center's name, the last column of the list SELECTs. */
  function CenterName(): (q: string)
    ensures '$' !in q
  {
    "c.name as center_name\n"
  }

  /** The always-true condition every filter is appended to. */
  function WhereTrue(): (q: string)
    ensures '$' !in q
  {
    "      WHERE 1=1\n    "
  }

  /** The order of the student list and of the aging report: by last name, then first name. */
  function OrderByName(): (q: string)
    ensures '$' !in q && |q| > 0 && q[0] == ' '
  {
    " " + "ORDER BY s.last_name, " + "s.first_name"
  }

  /** The free-text search condition: its placeholder appears three times. */
  function SearchClause(n: nat): string
  {
    SearchName() + Placeholder(n) + SearchParent() + Placeholder(n) + SearchContact() + Placeholder(n) + SearchEnd()
  }

  /** The pieces of the search condition's text between its placeholders, each short enough
      to be checked for `$` on its own. */
  function SearchName(): (q: string)
    ensures '$' !in q && |q| > 0 && q[0] == ' '
  {
    SearchOpen() + NameConcat() + LikeLower()
  }

  function SearchOpen(): (q: string)
    ensures '$' !in q && |q| > 0 && q[0] == ' '
  {
    " " + "AND (\n        "
  }

  /** The student's full name, first and last name joined by a space. */
  function NameConcat(): (q: string)
    ensures '$' !in q
  {
    "LOWER(s.first_name " + "|| ' ' || s.last_name) "
  }

  /** Case-insensitive match: both sides are lower-cased. */
  function LikeLower(): (q: string)
    ensures '$' !in q
  {
    "LIKE LOWER("
  }

  function SearchParent(): (q: string)
    ensures '$' !in q && |q| > 0 && q[0] == ')'
  {
    ")" + OrParent() + LikeLower()
  }

  function OrParent(): (q: string)
    ensures '$' !in q
  {
    "\n        OR LOWER(s.parent) "
  }

  function SearchContact(): (q: string)
    ensures '$' !in q && |q| > 0 && q[0] == ')'
  {
    ")" + "\n        OR s.contact LIKE "
  }

  function SearchEnd(): (q: string)
    ensures '$' !in q && |q| > 0 && !IsDigit(q[0])
  {
    "\n" + "      )"
  }

  /** The center filter, shared by the student list, the payment list, the payment statistics
      and the aging report: the center condition when the filter applies, None otherwise. */
  function CenterFilter(centerId: Option<string>): Option<Condition>
  {
    if CenterFilterApplies(centerId) then Some(Compare(StudentCenter, Equal, centerId.value)) else None
  }

  /** A filter on one query value: the comparison when the value is given non-empty. */
  function ValueFilter(column: Column, op: Comparison, v: Option<string>): Option<Condition>
  {
    if Truthy(v) then Some(Compare(column, op, v.value)) else None
  }

  /** The conditions a filter contributes: its condition, or none. */
  function Applied(f: Option<Condition>): seq<Condition>
  {
    if f.Some? then [f.value] else []
  }

  /** The conditions in the order they were appended; the i-th of them (counting from 1)
      is rendered with placeholder `$i`. */
  function Where(cs: seq<Condition>): string
  {
    if cs == [] then "" else Where(cs[..|cs| - 1]) + Clause(cs[|cs| - 1], |cs|)
  }

  /** The parameter list that goes with the conditions: one value per condition, in order. */
  function Params(cs: seq<Condition>): seq<string>
  {
    seq(|cs|, i requires 0 <= i < |cs| => cs[i].Bound())
  }

  /** Reference numbering: the i-th condition contributes its number i once per use. */
  function Slots(cs: seq<Condition>): seq<nat>
  {
    if cs == [] then []
    else Slots(cs[..|cs| - 1]) + seq(cs[|cs| - 1].Uses(), _ => |cs|)
  }

  /** The placeholders of a query with n parameters are numbered 1..n in order of appearance:
      each one names an existing parameter, every parameter is named, and the numbers never go
      back down. */
  predicate NumberedInOrder(ps: seq<nat>, n: nat)
  {
    && (forall i :: 0 <= i < |ps| ==> 1 <= ps[i] <= n)
    && (forall k :: 1 <= k <= n ==> k in ps)
    && (forall i, j :: 0 <= i < j < |ps| ==> ps[i] <= ps[j])
  }

  lemma {:induction false} SlotsNumbered(cs: seq<Condition>)
    ensures NumberedInOrder(Slots(cs), |cs|)
  {
    if cs != [] {
      var front := cs[..|cs| - 1];
      SlotsNumbered(front);
      var tail := seq(cs[|cs| - 1].Uses(), _ => |cs|);
      assert Slots(cs) == Slots(front) + tail;
      assert |cs| in Slots(cs) by {
        assert Slots(cs)[|Slots(front)|] == |cs|;
      }
    }
  }

  lemma PlaceholdersOfClause(c: Condition, n: nat)
    ensures Placeholders(Clause(c, n)) == seq(c.Uses(), _ => n)
  {
    match c
    case Compare(column, op, _) =>
      ComparePlaceholders(column, op, n);
    case NameParentContactLike(_) =>
      SearchClausePlaceholders(n);
  }

  lemma ComparePlaceholders(column: Column, op: Comparison, n: nat)
    ensures Placeholders(" AND " + ColumnName(column) + " " + Symbol(op) + " " + Placeholder(n)) == [n]
  {
    TextThenPlaceholder(" AND " + ColumnName(column) + " " + Symbol(op) + " ", n);
  }

  /** A literal without `$` that starts with a non-digit adds no placeholder. */
  lemma LiteralAfter(pre: string, lit: string)
    requires '$' !in lit && lit != [] && !IsDigit(lit[0])
    ensures Placeholders(pre + lit) == Placeholders(pre)
  {
    NoPlaceholders(lit);
    PlaceholdersAppend(pre, lit);
  }

  /** A placeholder adds its own number. */
  lemma PlaceholderAfter(pre: string, n: nat)
    ensures Placeholders(pre + Placeholder(n)) == Placeholders(pre) + [n]
  {
    PlaceholdersAppend(pre, Placeholder(n));
    PlaceholdersOfPlaceholder(n);
  }

  /** A text without `$` and then a placeholder: just that placeholder. */
  lemma TextThenPlaceholder(text: string, n: nat)
    requires '$' !in text
    ensures Placeholders(text + Placeholder(n)) == [n]
  {
    NoPlaceholders(text);
    PlaceholderAfter(text, n);
  }

  lemma SearchClausePlaceholders(n: nat)
    ensures Placeholders(SearchClause(n)) == [n, n, n]
  {
    var p := Placeholder(n);
    var t0 := SearchName() + p;
    TextThenPlaceholder(SearchName(), n);
    LiteralAfter(t0, SearchParent());
    var t1 := t0 + SearchParent() + p;
    PlaceholderAfter(t0 + SearchParent(), n);
    LiteralAfter(t1, SearchContact());
    var t2 := t1 + SearchContact() + p;
    PlaceholderAfter(t1 + SearchContact(), n);
    LiteralAfter(t2, SearchEnd());
  }

  /** The placeholders of the rendered conditions are exactly their slots. */
  lemma {:induction false} PlaceholdersOfWhere(cs: seq<Condition>)
    ensures Placeholders(Where(cs)) == Slots(cs)
    ensures Where(cs) == [] || Where(cs)[0] == ' '
  {
    if cs != [] {
      var front, last := cs[..|cs| - 1], cs[|cs| - 1];
      PlaceholdersOfWhere(front);
      ClauseStartsWithSpace(last, |cs|);
      PlaceholdersAppend(Where(front), Clause(last, |cs|));
      PlaceholdersOfClause(last, |cs|);
    }
  }

  lemma ClauseStartsWithSpace(c: Condition, n: nat)
    ensures |Clause(c, n)| > 0 && Clause(c, n)[0] == ' '
  {
  }

  /** The placeholders of a SELECT head, the conditions and a tail are exactly the slots of the
      conditions, so they are numbered 1..|cs| in order. */
  lemma QueryPlaceholders(head: string, cs: seq<Condition>, tail: string)
    requires '$' !in head && '$' !in tail && (tail == [] || !IsDigit(tail[0]))
    ensures Placeholders(head + Where(cs) + tail) == Slots(cs)
    ensures NumberedInOrder(Placeholders(head + Where(cs) + tail), |cs|)
  {
    PlaceholdersOfWhere(cs);
    NoPlaceholders(head);
    PlaceholdersAppend(head, Where(cs));
    PlaceholdersAppend(head + Where(cs), tail);
    NoPlaceholders(tail);
    SlotsNumbered(cs);
  }

  /** Appending one more condition: the text gains its clause with the next number, and the
      parameter list gains its value. */
  lemma AppendCondition(cs: seq<Condition>, c: Condition)
    ensures Where(cs + [c]) == Where(cs) + Clause(c, |cs| + 1)
  {
    var cs' := cs + [c];
    assert Where(cs') == Where(cs'[..|cs|]) + Clause(cs'[|cs|], |cs'|);
    assert cs'[..|cs|] == cs;
  }

  lemma WhereSingle(c: Condition)
    ensures Where([c]) == Clause(c, 1)
  {
    assert [c][..0] == [];
  }

  /** The same, for a query text that starts with a fixed head. */
  lemma AppendClause(head: string, cs: seq<Condition>, c: Condition)
    ensures head + Where(cs) + Clause(c, |cs| + 1) == head + Where(cs + [c])
  {
    AppendCondition(cs, c);
  }

  lemma AppendSlots(cs: seq<Condition>, c: Condition)
    ensures Slots(cs + [c]) == Slots(cs) + seq(c.Uses(), _ => |cs| + 1)
  {
    assert (cs + [c])[..|cs|] == cs;
  }

  lemma AppendParam(cs: seq<Condition>, c: Condition)
    ensures Params(cs + [c]) == Params(cs) + [c.Bound()]
  {
  }

  /** One filter that applies: the parameter count goes up by one, the condition's clause is
      appended with the new count as its placeholder number, and its value is pushed onto the
      parameters. A query text and parameter list that render the conditions so far render
      them with the new condition added. */
  method AddFilter(ghost head: string, ghost conds: seq<Condition>,
                   queryText: string, params: seq<string>, paramCount: nat, c: Condition)
    returns (ghost conds': seq<Condition>, queryText': string, params': seq<string>, paramCount': nat)
    requires queryText == head + Where(conds) && params == Params(conds) && paramCount == |conds|
    ensures paramCount' == paramCount + 1
    ensures queryText' == queryText + Clause(c, paramCount') && params' == params + [c.Bound()]
    ensures conds' == conds + [c]
    ensures queryText' == head + Where(conds') && params' == Params(conds') && paramCount' == |conds'|
  {
    paramCount' := paramCount + 1;
    queryText' := queryText + Clause(c, paramCount');
    params' := params + [c.Bound()];
    conds' := conds + [c];
    AppendClause(head, conds, c);
    AppendParam(conds, c);
  }

  /** One `if` of a handler: when the filter applies, it is added as above; otherwise the query
      text, the parameters and the count stay as they are. */
  method ApplyFilter(ghost head: string, ghost conds: seq<Condition>,
                     queryText: string, params: seq<string>, paramCount: nat, f: Option<Condition>)
    returns (ghost conds': seq<Condition>, queryText': string, params': seq<string>, paramCount': nat)
    requires queryText == head + Where(conds) && params == Params(conds) && paramCount == |conds|
    ensures conds' == conds + Applied(f)
    ensures queryText' == head + Where(conds') && params' == Params(conds') && paramCount' == |conds'|
  {
    if f.Some? {
      conds', queryText', params', paramCount' := AddFilter(head, conds, queryText, params, paramCount, f.value);
    } else {
      conds', queryText', params', paramCount' := conds, queryText, params, paramCount;
      assert conds' == conds + [];
    }
  }
}
