/**
 * The `PUT /expenses/:id` handler: it turns the request body's fields into a
 * parameterised `UPDATE` statement, field i bound to placeholder `$i` and the
 * id bound to the last placeholder.
 */
module ExpenseUpdate {

  /** The decimal digit for `d`. */
  function DigitChar(d: nat): char
    requires d < 10
  {
    ('0' as int + d) as char
  }

  predicate IsDigit(c: char)
  {
    '0' as int <= c as int <= '9' as int
  }

  /** How a template literal renders a natural number. */
  function Decimal(n: nat): (r: string)
    ensures |r| >= 1
    ensures forall i :: 0 <= i < |r| ==> IsDigit(r[i])
  {
    if n < 10 then [DigitChar(n)] else Decimal(n / 10) + [DigitChar(n % 10)]
  }

  /** The number a string of decimal digits denotes, as the database reads a placeholder. */
  function DecimalValue(s: string): nat
    requires forall i :: 0 <= i < |s| ==> IsDigit(s[i])
  {
    if s == [] then 0
    else
      var d := s[|s| - 1];
      assert IsDigit(d);
      10 * DecimalValue(s[..|s| - 1]) + (d as int - '0' as int)
  }

  /** The placeholder written for a number denotes that number. */
  lemma {:induction false} DecimalRoundTrip(n: nat)
    ensures DecimalValue(Decimal(n)) == n
  {
    if n >= 10 {
      DecimalRoundTrip(n / 10);
      var s := Decimal(n);
      assert s[..|s| - 1] == Decimal(n / 10);
    }
  }

  /** Distinct numbers give distinct placeholders, so each placeholder names one parameter. */
  lemma DecimalInjective(m: nat, n: nat)
    requires Decimal(m) == Decimal(n)
    ensures m == n
  {
    DecimalRoundTrip(m);
    DecimalRoundTrip(n);
  }

  function Placeholder(n: nat): string
  {
    "$" + Decimal(n)
  }

  /** `fields.map((field, index) => `${field} = $${index + 1}`)` */
  function Assignments(fields: seq<string>): (r: seq<string>)
    ensures |r| == |fields|
  {
    seq(|fields|, i requires 0 <= i < |fields| => fields[i] + " = " + Placeholder(i + 1))
  }

  /** `parts.join(separator)` */
  function Join(parts: seq<string>, separator: string): string
  {
    if parts == [] then ""
    else if |parts| == 1 then parts[0]
    else parts[0] + separator + Join(parts[1..], separator)
  }

  function Fields<V>(updates: seq<(string, V)>): seq<string>
  {
    seq(|updates|, i requires 0 <= i < |updates| => updates[i].0)
  }

  function Values<V>(updates: seq<(string, V)>): seq<V>
  {
    seq(|updates|, i requires 0 <= i < |updates| => updates[i].1)
  }

  function SetClause(fields: seq<string>): string
  {
    Join(Assignments(fields), ", ")
  }

  function UpdateSql(fields: seq<string>, wherePlaceholder: nat): string
  {
    "UPDATE expenses SET " + (SetClause(fields) + (" WHERE id = " + (Placeholder(wherePlaceholder) + " RETURNING *")))
  }

  datatype Statement<V> = Statement(sql: string, params: seq<V>)

  datatype PutOutcome<V> = BadRequest(message: string) | Query(statement: Statement<V>)

  /**
   * Every placeholder of the statement is bound to the value it is meant for:
   * the one in the i-th assignment to the i-th field's value, the one after
   * `WHERE id =` to the id.
   */
  predicate BindsCorrectly<V(==)>(updates: seq<(string, V)>, id: V, st: Statement<V>)
  {
    && |st.params| == |updates| + 1
    && st.sql == UpdateSql(Fields(updates), |updates| + 1)
    && (forall i :: 0 <= i < |updates| ==>
          && Assignments(Fields(updates))[i] == updates[i].0 + " = " + Placeholder(i + 1)
          && var p := DecimalValue(Decimal(i + 1));
             1 <= p <= |st.params| && st.params[p - 1] == updates[i].1)
    && var w := DecimalValue(Decimal(|updates| + 1));
       1 <= w <= |st.params| && st.params[w - 1] == id
  }

  /** The statement built from the field list and the value list with the id pushed last binds correctly. */
  lemma PlaceholdersBind<V>(updates: seq<(string, V)>, id: V)
    ensures BindsCorrectly(updates, id, Statement(UpdateSql(Fields(updates), |updates| + 1), Values(updates) + [id]))
  {
    forall n | 1 <= n <= |updates| + 1 ensures DecimalValue(Decimal(n)) == n {
      DecimalRoundTrip(n);
    }
  }

  /**
   * The handler up to running the query. `updates` lists the body's entries
   * in `Object.keys` order.
   */
  method BuildUpdate<V(==)>(id: V, updates: seq<(string, V)>) returns (r: PutOutcome<V>)
    ensures r.BadRequest? <==> |updates| == 0
    ensures r.BadRequest? ==> r.message == "No fields provided for update"
    ensures r.Query? ==> BindsCorrectly(updates, id, r.statement)
    ensures r.Query? ==> r.statement.params == Values(updates) + [id]
  {
    if |updates| == 0 {
      return BadRequest("No fields provided for update");
    }
    var fields := Fields(updates);
    var values := Values(updates);
    var setClause := SetClause(fields);
    values := values + [id];
    r := Query(Statement("UPDATE expenses SET " + (setClause + (" WHERE id = " + (Placeholder(|values|) + " RETURNING *"))), values));
    PlaceholdersBind(updates, id);
  }

  /** The length of the run of decimal digits that starts `s`. */
  function DigitRun(s: string): (r: nat)
    ensures r <= |s|
    ensures forall i :: 0 <= i < r ==> IsDigit(s[i])
  {
    if s != [] && IsDigit(s[0]) then 1 + DigitRun(s[1..]) else 0
  }

  /**
   * The parameter numbers the database finds in a statement's text, in the
   * order they appear: a `$` followed by a run of digits.
   */
  function ParamRefs(s: string): seq<nat>
    decreases |s|
  {
    if s == [] then []
    else if s[0] == '$' && DigitRun(s[1..]) > 0 then
      var d := DigitRun(s[1..]);
      [DecimalValue(s[1..1 + d])] + ParamRefs(s[1 + d..])
    else ParamRefs(s[1..])
  }

  /** `start, start + 1, ..., start + n - 1` */
  function Count(start: nat, n: nat): (r: seq<nat>)
    ensures |r| == n
    ensures forall i :: 0 <= i < n ==> r[i] == start + i
    decreases n
  {
    if n == 0 then [] else [start] + Count(start + 1, n - 1)
  }

  predicate NoDollar(s: string)
  {
    forall i :: 0 <= i < |s| ==> s[i] != '$'
  }

  predicate StartsWithoutDigit(s: string)
  {
    s == [] || !IsDigit(s[0])
  }

  /** Text without a `$` contributes no parameter reference. */
  lemma {:induction false} ParamRefsSkip(a: string, b: string)
    requires NoDollar(a)
    ensures ParamRefs(a + b) == ParamRefs(b)
    decreases |a|
  {
    if a == [] {
      assert a + b == b;
    } else {
      assert (a + b)[0] == a[0];
      assert (a + b)[1..] == a[1..] + b;
      ParamRefsSkip(a[1..], b);
    }
  }

  lemma {:induction false} DigitRunOf(d: string, b: string)
    requires forall i :: 0 <= i < |d| ==> IsDigit(d[i])
    requires StartsWithoutDigit(b)
    ensures DigitRun(d + b) == |d|
    decreases |d|
  {
    if d != [] {
      assert (d + b)[1..] == d[1..] + b;
      DigitRunOf(d[1..], b);
    } else {
      assert d + b == b;
    }
  }

  /** A placeholder followed by a non-digit is read back as its own number. */
  lemma ParamRefsPlaceholder(n: nat, b: string)
    requires StartsWithoutDigit(b)
    ensures ParamRefs(Placeholder(n) + b) == [n] + ParamRefs(b)
  {
    var s := Placeholder(n) + b;
    var d := Decimal(n);
    assert s[1..] == d + b;
    DigitRunOf(d, b);
    assert s[1..1 + |d|] == d;
    assert s[1 + |d|..] == b;
    DecimalRoundTrip(n);
  }

  /** Text without a `$` references nothing. */
  lemma NoDollarRefs(a: string)
    requires NoDollar(a)
    ensures ParamRefs(a) == []
  {
    ParamRefsSkip(a, []);
    assert a + [] == a;
  }

  /** `$`-free text, then a placeholder, then a non-digit: one reference. */
  lemma SkipPlaceholder(a: string, n: nat, b: string)
    requires NoDollar(a)
    requires StartsWithoutDigit(b)
    ensures ParamRefs(a + (Placeholder(n) + b)) == [n] + ParamRefs(b)
  {
    ParamRefsSkip(a, Placeholder(n) + b);
    ParamRefsPlaceholder(n, b);
  }

  /** One assignment `field = $n` with a `$`-free field references `n` alone. */
  lemma AssignmentRefs(field: string, eq: string, n: nat, tail: string)
    requires NoDollar(field) && NoDollar(eq)
    requires StartsWithoutDigit(tail)
    ensures ParamRefs(field + eq + Placeholder(n) + tail) == [n] + ParamRefs(tail)
  {
    var p := Placeholder(n);
    assert field + eq + p + tail == field + (eq + (p + tail));
    ParamRefsSkip(field, eq + (p + tail));
    SkipPlaceholder(eq, n, tail);
  }

  lemma JoinStep(parts: seq<string>, separator: string, rest: string)
    requires |parts| >= 2
    ensures Join(parts, separator) + rest == parts[0] + (separator + (Join(parts[1..], separator) + rest))
  {
  }

  /** The step of `JoinRefs`: the first assignment, then the rest joined. */
  lemma JoinRefsStep(parts: seq<string>, fields: seq<string>, separator: string, eq: string, start: nat, rest: string)
    requires |parts| == |fields| >= 2
    requires parts[0] == fields[0] + eq + Placeholder(start)
    requires NoDollar(fields[0]) && NoDollar(eq) && NoDollar(separator)
    requires separator != [] && StartsWithoutDigit(separator)
    requires ParamRefs(Join(parts[1..], separator) + rest) == Count(start + 1, |parts| - 1) + ParamRefs(rest)
    ensures ParamRefs(Join(parts, separator) + rest) == Count(start, |parts|) + ParamRefs(rest)
  {
    var inner := Join(parts[1..], separator) + rest;
    assert (separator + inner)[0] == separator[0];
    calc {
      ParamRefs(Join(parts, separator) + rest);
      { JoinStep(parts, separator, rest); }
      ParamRefs(parts[0] + (separator + inner));
      { AssignmentRefs(fields[0], eq, start, separator + inner); }
      [start] + ParamRefs(separator + inner);
      { ParamRefsSkip(separator, inner); }
      [start] + ParamRefs(inner);
      [start] + (Count(start + 1, |parts| - 1) + ParamRefs(rest));
      Count(start, |parts|) + ParamRefs(rest);
    }
  }

  /**
   * Joining assignments whose fields hold no `$` yields the references
   * `start, start + 1, ...` in order.
   */
  lemma {:induction false} JoinRefs(parts: seq<string>, fields: seq<string>, separator: string, eq: string, start: nat, rest: string)
    requires |parts| == |fields|
    requires forall i :: 0 <= i < |parts| ==> parts[i] == fields[i] + eq + Placeholder(start + i)
    requires forall i :: 0 <= i < |fields| ==> NoDollar(fields[i])
    requires NoDollar(eq) && NoDollar(separator)
    requires separator != [] && StartsWithoutDigit(separator)
    requires StartsWithoutDigit(rest)
    ensures ParamRefs(Join(parts, separator) + rest) == Count(start, |parts|) + ParamRefs(rest)
    decreases |parts|
  {
    if parts == [] {
      assert Join(parts, separator) + rest == rest;
    } else if |parts| == 1 {
      assert Join(parts, separator) + rest == fields[0] + eq + Placeholder(start) + rest;
      AssignmentRefs(fields[0], eq, start, rest);
    } else {
      JoinRefs(parts[1..], fields[1..], separator, eq, start + 1, rest);
      JoinRefsStep(parts, fields, separator, eq, start, rest);
    }
  }

  /** The statement's tail references the id's placeholder alone. */
  lemma WhereRefs(w: nat)
    ensures ParamRefs(" WHERE id = " + (Placeholder(w) + " RETURNING *")) == [w]
  {
    SkipPlaceholder(" WHERE id = ", w, " RETURNING *");
    NoDollarRefs(" RETURNING *");
  }

  /** The set clause references `$1` to `$n`, in order, when no field holds a `$`. */
  lemma SetClauseRefs(fields: seq<string>, rest: string)
    requires forall i :: 0 <= i < |fields| ==> NoDollar(fields[i])
    requires StartsWithoutDigit(rest)
    ensures ParamRefs(SetClause(fields) + rest) == Count(1, |fields|) + ParamRefs(rest)
  {
    var parts := Assignments(fields);
    assert forall i :: 0 <= i < |parts| ==> parts[i] == fields[i] + " = " + Placeholder(1 + i);
    JoinRefs(parts, fields, ", ", " = ", 1, rest);
  }

  /** The statement's head references nothing. */
  lemma HeadRefs(x: string)
    ensures ParamRefs("UPDATE expenses SET " + x) == ParamRefs(x)
  {
    ParamRefsSkip("UPDATE expenses SET ", x);
  }

  lemma CountAppend(n: nat)
    ensures Count(1, n) + [n + 1] == Count(1, n + 1)
  {
  }

  /** With `$`-free field names the statement references `$1` to `$n+1`, in order. */
  lemma UpdateSqlRefs(fields: seq<string>)
    requires forall i :: 0 <= i < |fields| ==> NoDollar(fields[i])
    ensures ParamRefs(UpdateSql(fields, |fields| + 1)) == Count(1, |fields| + 1)
  {
    var w := |fields| + 1;
    var tail := " WHERE id = " + (Placeholder(w) + " RETURNING *");
    HeadRefs(SetClause(fields) + tail);
    SetClauseRefs(fields, tail);
    WhereRefs(w);
    CountAppend(|fields|);
  }

  lemma RegroupInjected(u: string, p: string, v: string, eq: string, q: string, rest: string)
    ensures u + p + v + eq + q + rest == u + (p + (v + (eq + (q + rest))))
  {
  }

  /** An assignment whose field carries `$2` references `2` before its own `1`. */
  lemma InjectedAssignmentRefs(u: string, v: string, eq: string, rest: string)
    requires NoDollar(u) && NoDollar(v) && NoDollar(eq)
    requires v != [] && StartsWithoutDigit(v)
    requires StartsWithoutDigit(rest)
    ensures ParamRefs(u + Placeholder(2) + v + eq + Placeholder(1) + rest) == [2, 1] + ParamRefs(rest)
  {
    var w := v + (eq + (Placeholder(1) + rest));
    assert w[0] == v[0];
    calc {
      ParamRefs(u + Placeholder(2) + v + eq + Placeholder(1) + rest);
      { RegroupInjected(u, Placeholder(2), v, eq, Placeholder(1), rest); }
      ParamRefs(u + (Placeholder(2) + w));
      { SkipPlaceholder(u, 2, w); }
      [2] + ParamRefs(w);
      { ParamRefsSkip(v, eq + (Placeholder(1) + rest)); }
      [2] + ParamRefs(eq + (Placeholder(1) + rest));
      { SkipPlaceholder(eq, 1, rest); }
      [2] + ([1] + ParamRefs(rest));
    }
  }

  /**
   * Two assignments whose first field itself carries the placeholder `$2`
   * reference `2, 1, 2`, in that order.
   */
  lemma InjectedClauseShape(parts: seq<string>, u: string, v: string, c: string, eq: string, separator: string, tail: string)
    requires |parts| == 2
    requires parts[0] == u + Placeholder(2) + v + eq + Placeholder(1)
    requires parts[1] == c + eq + Placeholder(2)
    requires NoDollar(u) && NoDollar(v) && NoDollar(c) && NoDollar(eq) && NoDollar(separator)
    requires v != [] && StartsWithoutDigit(v)
    requires separator != [] && StartsWithoutDigit(separator)
    requires StartsWithoutDigit(tail)
    ensures ParamRefs(Join(parts, separator) + tail) == [2, 1, 2] + ParamRefs(tail)
  {
    var rest := separator + (parts[1] + tail);
    assert rest[0] == separator[0];
    calc {
      ParamRefs(Join(parts, separator) + tail);
      { JoinStep(parts, separator, tail);
        assert Join(parts[1..], separator) == parts[1]; }
      ParamRefs(parts[0] + rest);
      { InjectedAssignmentRefs(u, v, eq, rest); }
      [2, 1] + ParamRefs(rest);
      { ParamRefsSkip(separator, parts[1] + tail); }
      [2, 1] + ParamRefs(parts[1] + tail);
      { AssignmentRefs(c, eq, 2, tail); }
      [2, 1] + ([2] + ParamRefs(tail));
    }
  }

  /** The SET clause built for the keys `notes = $2, category` and `subcategory` references `2, 1, 2`. */
  lemma InjectedSetClauseRefs(tail: string)
    requires StartsWithoutDigit(tail)
    ensures ParamRefs(SetClause(["notes = $2, category", "subcategory"]) + tail) == [2, 1, 2] + ParamRefs(tail)
  {
    var fields := ["notes = $2, category", "subcategory"];
    assert Placeholder(2) == "$2";
    assert fields[0] == "notes = " + Placeholder(2) + ", category";
    var parts := Assignments(fields);
    InjectedClauseShape(parts, "notes = ", ", category", "subcategory", " = ", ", ", tail);
  }

  /**
   * The handler writes request keys into the statement unescaped: for the body
   * `{"notes = $2, category": "Groceries", "subcategory": "Needs"}` the statement
   * reads `SET notes = $2, category = $1, subcategory = $2 WHERE id = $3`, so the
   * assignment list binds correctly while the database sets `notes` to the value
   * sent for `subcategory` and `category` to the value sent under the first key.
   */
  lemma InjectedFieldRebindsPlaceholder()
    ensures BindsCorrectly([("notes = $2, category", "Groceries"), ("subcategory", "Needs")], "7",
      Statement(UpdateSql(["notes = $2, category", "subcategory"], 3), ["Groceries", "Needs", "7"]))
    ensures ParamRefs(UpdateSql(["notes = $2, category", "subcategory"], 3)) == [2, 1, 2, 3]
  {
    var updates := [("notes = $2, category", "Groceries"), ("subcategory", "Needs")];
    assert Fields(updates) == ["notes = $2, category", "subcategory"];
    assert Values(updates) + ["7"] == ["Groceries", "Needs", "7"];
    PlaceholdersBind(updates, "7");
    var tail := " WHERE id = " + (Placeholder(3) + " RETURNING *");
    HeadRefs(SetClause(["notes = $2, category", "subcategory"]) + tail);
    InjectedSetClauseRefs(tail);
    WhereRefs(3);
  }

  /** The columns of the `expenses` table a client may set. */
  const Columns: set<string> := {"amount", "category", "subcategory", "date", "description", "notes", "account"}

  lemma ColumnsHaveNoDollar(f: string)
    requires f in Columns
    ensures NoDollar(f)
  {
  }

  /**
   * The handler with the body's keys checked against the table's columns
   * before they are written into the statement.
   */
  method BuildCheckedUpdate<V(==)>(id: V, updates: seq<(string, V)>) returns (r: PutOutcome<V>)
    ensures r.BadRequest? <==> |updates| == 0 || exists i :: 0 <= i < |updates| && updates[i].0 !in Columns
    ensures |updates| == 0 ==> r == BadRequest("No fields provided for update")
    ensures r.Query? ==> BindsCorrectly(updates, id, r.statement)
    ensures r.Query? ==> r.statement.params == Values(updates) + [id]
    ensures r.Query? ==> ParamRefs(r.statement.sql) == Count(1, |updates| + 1)
  {
    if |updates| == 0 {
      return BadRequest("No fields provided for update");
    }
    if exists i :: 0 <= i < |updates| && updates[i].0 !in Columns {
      return BadRequest("Unknown field");
    }
    var fields := Fields(updates);
    var values := Values(updates) + [id];
    r := Query(Statement("UPDATE expenses SET " + (SetClause(fields) + (" WHERE id = " + (Placeholder(|values|) + " RETURNING *"))), values));
    PlaceholdersBind(updates, id);
    forall i | 0 <= i < |fields| ensures NoDollar(fields[i]) {
      ColumnsHaveNoDollar(fields[i]);
    }
    UpdateSqlRefs(fields);
  }
}
