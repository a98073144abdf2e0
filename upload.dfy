/**
 * The statement upload endpoint: each parsed CSV row becomes an expense record
 * or is dropped, a subcategory is picked from the category by a fixed lookup,
 * and `saveToDatabase` inserts every record whose (amount, date, description)
 * is not stored yet.
 */
module Upload {
  import opened Wrappers
  import opened Sequences

  /** A parsed CSV cell; the parser turns numeric text into numbers (amounts in cents here). */
  datatype Cell = Empty | Text(s: string) | Num(n: int)

  /** JavaScript truthiness: a missing cell, the empty string and the number 0 are false. */
  predicate Truthy(c: Cell)
  {
    match c
    case Empty => false
    case Text(s) => s != ""
    case Num(n) => n != 0
  }

  /** JavaScript `c || d`. */
  function Or(c: Cell, d: Cell): Cell
  {
    if Truthy(c) then c else d
  }

  /** One parsed row, keyed by the header line; a column the row lacks reads as `Empty`. */
  type Row = map<string, Cell>

  function Get(row: Row, column: string): Cell
  {
    if column in row then row[column] else Empty
  }

  const TransactionDateColumn := "Transaction Date"
  const AmountColumn := "Amount"
  const DescriptionColumn := "Description"
  const CategoryColumn := "Category"
  const SubcategoryColumn := "Subcategory"

  /** The natural key the duplicate check queries on. */
  datatype Key = Key(amount: Cell, date: Cell, description: Cell)

  /** A row accepted by the upload handler, as it is returned to the client and handed to `saveToDatabase`. */
  datatype Expense = Expense(
    date: Cell,
    amount: Cell,
    category: Cell,
    subcategory: Cell,
    description: Cell,
    account: string)
  {
    function NaturalKey(): Key
    {
      Key(amount, date, description)
    }
  }

  /** The subcategory each recognised category gets when the row names none. */
  const SubcategoryOf: map<string, string> := map[
    "Food & Drink" := "Wants",
    "Entertainment" := "Wants",
    "Groceries" := "Needs",
    "Gas" := "Needs",
    "Home" := "Needs",
    "Health & Wellness" := "Needs",
    "Automotive" := "Needs"]

  /** The ternary chain of strict (`===`) comparisons against the raw `Category` cell. */
  function DefaultSubcategory(category: Cell): string
  {
    if category == Text("Food & Drink") then "Wants"
    else if category == Text("Entertainment") then "Wants"
    else if category == Text("Groceries") then "Needs"
    else if category == Text("Gas") then "Needs"
    else if category == Text("Home") then "Needs"
    else if category == Text("Health & Wellness") then "Needs"
    else if category == Text("Automotive") then "Needs"
    else "Unselected"
  }

  /**
   * The chain is an exact-match lookup in the table above: only a text cell
   * spelled exactly like a table entry is classified, everything else
   * (another spelling, a number, a missing category) is `Unselected`.
   */
  lemma DefaultSubcategoryIsLookup(category: Cell)
    ensures DefaultSubcategory(category) ==
      if category.Text? && category.s in SubcategoryOf then SubcategoryOf[category.s] else "Unselected"
    ensures DefaultSubcategory(category) in {"Wants", "Needs", "Unselected"}
  {
  }

  /** What every accepted record satisfies: required cells present, category and subcategory never blank. */
  predicate WellFormed(e: Expense, account: string)
  {
    Truthy(e.date) && Truthy(e.amount) && Truthy(e.description)
    && Truthy(e.category) && Truthy(e.subcategory) && e.account == account
  }

  /** The `parsedData.map(row => ...)` callback: `None` is its `null`. */
  function MapRow(row: Row, account: string): (r: Option<Expense>)
    ensures r.None? <==>
      !Truthy(Get(row, DescriptionColumn)) || !Truthy(Get(row, AmountColumn)) || !Truthy(Get(row, TransactionDateColumn))
    ensures r.Some? ==> WellFormed(r.value, account)
  {
    if !Truthy(Get(row, DescriptionColumn)) || !Truthy(Get(row, AmountColumn)) || !Truthy(Get(row, TransactionDateColumn)) then
      None
    else
      Some(Expense(
        date := Get(row, TransactionDateColumn),
        amount := Get(row, AmountColumn),
        category := Or(Get(row, CategoryColumn), Text("Payment")),
        subcategory := Or(Get(row, SubcategoryColumn), Text(DefaultSubcategory(Get(row, CategoryColumn)))),
        description := Get(row, DescriptionColumn),
        account := account))
  }

  /** How an accepted row's fields come from its cells. */
  lemma MapRowFields(row: Row, account: string)
    requires MapRow(row, account).Some?
    ensures var e := MapRow(row, account).value;
      && e.date == Get(row, TransactionDateColumn)
      && e.amount == Get(row, AmountColumn)
      && e.description == Get(row, DescriptionColumn)
      && e.account == account
      && e.category == (if Truthy(Get(row, CategoryColumn)) then Get(row, CategoryColumn) else Text("Payment"))
      && e.subcategory == (if Truthy(Get(row, SubcategoryColumn)) then Get(row, SubcategoryColumn)
                           else Text(DefaultSubcategory(Get(row, CategoryColumn))))
  {
  }

  /** `parsedData.map(...).filter(expense => expense !== null)` */
  function MapRows(rows: seq<Row>, account: string): (r: seq<Expense>)
    ensures |r| <= |rows|
    ensures forall k :: 0 <= k < |r| ==> WellFormed(r[k], account)
  {
    if rows == [] then []
    else
      var init := MapRows(rows[..|rows| - 1], account);
      match MapRow(rows[|rows| - 1], account)
      case None => init
      case Some(e) => init + [e]
  }

  /** The positions of the rows that survive the filter, in order. */
  function AcceptedRows(rows: seq<Row>, account: string): seq<nat>
  {
    if rows == [] then []
    else
      AcceptedRows(rows[..|rows| - 1], account)
      + if MapRow(rows[|rows| - 1], account).Some? then [|rows| - 1] else []
  }

  /**
   * The accepted list is the order-preserving subsequence of the rows the
   * callback maps to a record: its k-th record comes from the k-th accepted
   * row, positions increase, and a row is accepted exactly when it has all
   * three required cells.
   */
  lemma {:induction false} MapRowsKeepsOrder(rows: seq<Row>, account: string)
    ensures var idx, r := AcceptedRows(rows, account), MapRows(rows, account);
      && |idx| == |r|
      && (forall k :: 0 <= k < |idx| ==> idx[k] < |rows| && MapRow(rows[idx[k]], account) == Some(r[k]))
      && (forall k, l :: 0 <= k < l < |idx| ==> idx[k] < idx[l])
      && (forall i :: 0 <= i < |rows| ==> (MapRow(rows[i], account).Some? <==> i in idx))
  {
    if rows != [] {
      var n := |rows| - 1;
      var p := rows[..n];
      MapRowsKeepsOrder(p, account);
      var idx0, r0 := AcceptedRows(p, account), MapRows(p, account);
      var idx, r := AcceptedRows(rows, account), MapRows(rows, account);
      assert forall i :: 0 <= i < n ==> rows[i] == p[i];
      assert n !in idx0 by {
        assert forall k :: 0 <= k < |idx0| ==> idx0[k] < n;
      }
      match MapRow(rows[n], account)
      case None =>
        assert idx == idx0 && r == r0;
      case Some(e) =>
        assert idx == idx0 + [n] && r == r0 + [e];
    }
  }

  /** The stored row: the record plus a serial id and the notes column. */
  datatype Stored = Stored(
    id: nat,
    amount: Cell,
    category: Cell,
    subcategory: Cell,
    date: Cell,
    description: Cell,
    notes: string,
    account: string)
  {
    function NaturalKey(): Key
    {
      Key(amount, date, description)
    }
  }

  /** The `expenses` table and the next value of its id sequence. */
  datatype Db = Db(records: seq<Stored>, nextId: nat)

  function Keys(records: seq<Stored>): set<Key>
  {
    set r | r in records :: r.NaturalKey()
  }

  /** `SELECT * FROM expenses WHERE amount = $1 AND date = $2 AND description = $3` */
  function Matching(records: seq<Stored>, key: Key): seq<Stored>
  {
    if records == [] then []
    else (if records[0].NaturalKey() == key then [records[0]] else []) + Matching(records[1..], key)
  }

  /** The duplicate query finds nothing exactly when no stored row has the key. */
  lemma {:induction false} MatchingEmptyIff(records: seq<Stored>, key: Key)
    ensures |Matching(records, key)| == 0 <==> key !in Keys(records)
  {
    if records != [] {
      MatchingEmptyIff(records[1..], key);
      assert Keys(records) == {records[0].NaturalKey()} + Keys(records[1..]);
    }
  }

  /** The INSERT: notes default to the empty string (the records handed in carry none). */
  function Insert(e: Expense, id: nat): Stored
  {
    Stored(id, e.amount, e.category, e.subcategory, e.date, e.description, "", e.account)
  }

  /** One pass of the loop: skip on a thrown query or a found key, insert otherwise. */
  function Step(db: Db, e: Expense, fails: bool): Db
  {
    if fails || e.NaturalKey() in Keys(db.records) then db
    else Db(db.records + [Insert(e, db.nextId)], db.nextId + 1)
  }

  /** The store after `saveToDatabase(es)`, where the queries for the positions in `failed` throw. */
  function Saved(db: Db, es: seq<Expense>, failed: set<nat>): Db
    decreases |es|
  {
    if es == [] then db
    else Step(Saved(db, es[..|es| - 1], failed), es[|es| - 1], |es| - 1 in failed)
  }

  lemma KeysAppend(records: seq<Stored>, s: Stored)
    ensures Keys(records + [s]) == Keys(records) + {s.NaturalKey()}
  {
    assert forall r :: r in records + [s] <==> r in records || r == s;
  }

  /** Stored rows are never modified or removed; new ones are appended with consecutive ids. */
  lemma {:induction false} SavedExtends(db: Db, es: seq<Expense>, failed: set<nat>)
    ensures var r := Saved(db, es, failed);
      && |db.records| <= |r.records|
      && r.records[..|db.records|] == db.records
      && r.nextId == db.nextId + (|r.records| - |db.records|)
      && forall k :: |db.records| <= k < |r.records| ==> r.records[k].id == db.nextId + (k - |db.records|)
    decreases |es|
  {
    if es != [] {
      SavedExtends(db, es[..|es| - 1], failed);
    }
  }

  /** After the loop every record whose query did not throw has its key stored, and no stored key is lost. */
  lemma {:induction false} SavedCoversInputs(db: Db, es: seq<Expense>, failed: set<nat>)
    ensures var r := Saved(db, es, failed);
      && Keys(db.records) <= Keys(r.records)
      && forall i :: 0 <= i < |es| && i !in failed ==> es[i].NaturalKey() in Keys(r.records)
    decreases |es|
  {
    if es != [] {
      var n := |es| - 1;
      var mid := Saved(db, es[..n], failed);
      SavedCoversInputs(db, es[..n], failed);
      assert forall i :: 0 <= i < n ==> es[..n][i] == es[i];
      if !(n in failed || es[n].NaturalKey() in Keys(mid.records)) {
        KeysAppend(mid.records, Insert(es[n], mid.nextId));
      }
    }
  }

  /**
   * Stored row `s` is the insert of input `i`: its query did not throw, its
   * key was absent from the store `db` the loop started on, and no earlier
   * input whose query did not throw had that key.
   */
  predicate InsertedFrom(db: Db, es: seq<Expense>, failed: set<nat>, s: Stored, i: int)
  {
    && 0 <= i < |es| && i !in failed
    && s == Insert(es[i], s.id)
    && es[i].NaturalKey() !in Keys(db.records)
    && (forall j :: 0 <= j < i && j !in failed ==> es[j].NaturalKey() != es[i].NaturalKey())
  }

  /**
   * A record is inserted only for an input whose key was absent from the
   * store and that is the first input with that key whose query did not
   * throw; the inserted row copies it with empty notes.
   */
  lemma {:induction false} SavedInsertsFirstSeenAbsent(db: Db, es: seq<Expense>, failed: set<nat>, k: int)
    requires |db.records| <= k < |Saved(db, es, failed).records|
    ensures exists i :: InsertedFrom(db, es, failed, Saved(db, es, failed).records[k], i)
    decreases |es|
  {
    var n := |es| - 1;
    var p := es[..n];
    var mid := Saved(db, p, failed);
    var r := Saved(db, es, failed);
    SavedExtends(db, p, failed);
    SavedCoversInputs(db, p, failed);
    assert forall i :: 0 <= i < n ==> p[i] == es[i];
    assert r == Step(mid, es[n], n in failed);
    if k < |mid.records| {
      SavedInsertsFirstSeenAbsent(db, p, failed, k);
      assert r.records[k] == mid.records[k];
      var i :| InsertedFrom(db, p, failed, mid.records[k], i);
      assert InsertedFrom(db, es, failed, r.records[k], i);
    } else {
      assert r.records == mid.records + [Insert(es[n], mid.nextId)];
      assert r.records[k] == Insert(es[n], r.records[k].id);
      assert forall j :: 0 <= j < n && j !in failed ==> es[j].NaturalKey() in Keys(mid.records);
      assert InsertedFrom(db, es, failed, r.records[k], n);
    }
  }

  /** No two stored rows share a key. */
  predicate UniqueKeys(records: seq<Stored>)
  {
    forall i, j :: 0 <= i < j < |records| ==> records[i].NaturalKey() != records[j].NaturalKey()
  }

  /** Every id is below the sequence's next value and no two rows share an id. */
  predicate IdsValid(db: Db)
  {
    && (forall i :: 0 <= i < |db.records| ==> db.records[i].id < db.nextId)
    && (forall i, j :: 0 <= i < j < |db.records| ==> db.records[i].id != db.records[j].id)
  }

  /** Saving keeps a duplicate-free store duplicate-free and keeps ids distinct. */
  lemma {:induction false} SavedPreservesInvariants(db: Db, es: seq<Expense>, failed: set<nat>)
    ensures UniqueKeys(db.records) ==> UniqueKeys(Saved(db, es, failed).records)
    ensures IdsValid(db) ==> IdsValid(Saved(db, es, failed))
    decreases |es|
  {
    if es != [] {
      var n := |es| - 1;
      var mid := Saved(db, es[..n], failed);
      SavedPreservesInvariants(db, es[..n], failed);
      if !(n in failed || es[n].NaturalKey() in Keys(mid.records)) {
        var s := Insert(es[n], mid.nextId);
        var recs := mid.records + [s];
        assert forall i :: 0 <= i < |mid.records| ==> recs[i] == mid.records[i] && mid.records[i].NaturalKey() in Keys(mid.records);
      }
    }
  }

  /** When every input that does not fail is already stored, saving changes nothing. */
  lemma {:induction false} SavedNoop(db: Db, es: seq<Expense>, failed: set<nat>)
    requires forall i :: 0 <= i < |es| && i !in failed ==> es[i].NaturalKey() in Keys(db.records)
    ensures Saved(db, es, failed) == db
    decreases |es|
  {
    if es != [] {
      var n := |es| - 1;
      assert forall i :: 0 <= i < n ==> es[..n][i] == es[i];
      SavedNoop(db, es[..n], failed);
    }
  }

  /**
   * Saving the same list again stores nothing new, provided every query that
   * threw the first time throws again (in particular when none threw).
   */
  lemma SavedIdempotent(db: Db, es: seq<Expense>, first: set<nat>, second: set<nat>)
    requires first <= second
    ensures Saved(Saved(db, es, first), es, second) == Saved(db, es, first)
  {
    SavedCoversInputs(db, es, first);
    SavedNoop(Saved(db, es, first), es, second);
  }

  /** Category, subcategory and account play no part in the duplicate check: only the key decides what is inserted. */
  lemma {:induction false} SavedDependsOnlyOnKeys(db: Db, es: seq<Expense>, es': seq<Expense>, failed: set<nat>)
    requires |es| == |es'|
    requires forall i :: 0 <= i < |es| ==> es[i].NaturalKey() == es'[i].NaturalKey()
    ensures Keys(Saved(db, es, failed).records) == Keys(Saved(db, es', failed).records)
    ensures Saved(db, es, failed).nextId == Saved(db, es', failed).nextId
    ensures |Saved(db, es, failed).records| == |Saved(db, es', failed).records|
    decreases |es|
  {
    if es != [] {
      var n := |es| - 1;
      SavedDependsOnlyOnKeys(db, es[..n], es'[..n], failed);
      var a, b := Saved(db, es[..n], failed), Saved(db, es'[..n], failed);
      if !(n in failed || es[n].NaturalKey() in Keys(a.records)) {
        KeysAppend(a.records, Insert(es[n], a.nextId));
        KeysAppend(b.records, Insert(es'[n], b.nextId));
      }
    }
  }

  datatype Body = ErrorMessage(error: string) | Expenses(expenses: seq<Expense>)

  datatype Response = Response(status: nat, body: Body)

  /**
   * The `/upload` handler once the file is parsed: `file` is the parsed rows
   * (`None` when no file came with the request) and `account` the form field.
   */
  function HandleUpload(db: Db, file: Option<seq<Row>>, account: Option<string>, failed: set<nat>): (Response, Db)
  {
    if file.None? then (Response(400, ErrorMessage("No file uploaded")), db)
    else if account.None? || account.value == "" then (Response(400, ErrorMessage("Account selection is required")), db)
    else
      var expenses := MapRows(file.value, account.value);
      if |expenses| > 0 then (Response(200, Expenses(expenses)), Saved(db, expenses, failed))
      else (Response(400, ErrorMessage("No valid expenses found to insert")), db)
  }

  /**
   * An upload is refused with 400, leaving the store alone, exactly when the
   * file or the account is missing or no row has all three required cells;
   * otherwise the reply is 200 with every accepted row, duplicates included.
   */
  lemma UploadOutcome(db: Db, file: Option<seq<Row>>, account: Option<string>, failed: set<nat>)
    ensures var (resp, db') := HandleUpload(db, file, account, failed);
      && (resp.status == 400 <==>
            file.None? || account.None? || account.value == ""
            || forall i :: 0 <= i < |file.value| ==> MapRow(file.value[i], account.value).None?)
      && (resp.status == 400 ==> db' == db && resp.body.ErrorMessage?)
      && (resp.status != 400 ==> resp == Response(200, Expenses(MapRows(file.value, account.value))))
  {
    if file.Some? && account.Some? && account.value != "" {
      var rows := file.value;
      MapRowsKeepsOrder(rows, account.value);
      var idx := AcceptedRows(rows, account.value);
      if |idx| > 0 {
        assert MapRow(rows[idx[0]], account.value).Some?;
      }
    }
  }

  /**
   * Uploading the same file twice leaves the same store, and gets the same
   * reply, as uploading it once, when every query that threw during the first
   * upload throws again during the second.
   */
  lemma UploadTwiceIsUploadOnce(db: Db, file: Option<seq<Row>>, account: Option<string>, first: set<nat>, second: set<nat>)
    requires first <= second
    ensures var (resp, db1) := HandleUpload(db, file, account, first);
      HandleUpload(db1, file, account, second) == (resp, db1)
  {
    if file.Some? && account.Some? && account.value != "" {
      var expenses := MapRows(file.value, account.value);
      SavedIdempotent(db, expenses, first, second);
    }
  }

  /** The database the handlers share. */
  class ExpenseStore {
    var records: seq<Stored>
    var nextId: nat

    function Value(): Db
      reads this
    {
      Db(records, nextId)
    }

    /** A freshly created table: no rows, and the id sequence starts at 1. */
    constructor ()
      ensures Value() == Db([], 1)
    {
      records := [];
      nextId := 1;
    }

    /** `saveToDatabase(expenses)`; the queries for the positions in `failed` throw and are only logged. */
    method SaveToDatabase(expenses: seq<Expense>, failed: set<nat>)
      modifies this
      ensures Value() == Saved(old(Value()), expenses, failed)
    {
      ghost var db0 := Value();
      var i := 0;
      while i < |expenses|
        invariant 0 <= i <= |expenses|
        invariant Value() == Saved(db0, expenses[..i], failed)
      {
        var expense := expenses[i];
        if i !in failed {
          var result := Matching(records, expense.NaturalKey());
          MatchingEmptyIff(records, expense.NaturalKey());
          if |result| == 0 {
            records := records + [Insert(expense, nextId)];
            nextId := nextId + 1;
          }
        }
        assert expenses[..i + 1][..i] == expenses[..i];
        i := i + 1;
      }
      assert expenses[..i] == expenses;
    }

    /** The `/upload` route after parsing: replies, and saves only when some row was accepted. */
    method Upload(file: Option<seq<Row>>, account: Option<string>, failed: set<nat>) returns (resp: Response)
      modifies this
      ensures (resp, Value()) == HandleUpload(old(Value()), file, account, failed)
    {
      if file.None? {
        return Response(400, ErrorMessage("No file uploaded"));
      }
      if account.None? || account.value == "" {
        return Response(400, ErrorMessage("Account selection is required"));
      }
      var expenses := MapRows(file.value, account.value);
      if |expenses| > 0 {
        SaveToDatabase(expenses, failed);
        resp := Response(200, Expenses(expenses));
      } else {
        resp := Response(400, ErrorMessage("No valid expenses found to insert"));
      }
    }
  }
}
