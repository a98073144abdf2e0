/**
 * The stored expense as the client components hold it, and the by-id edits
 * both components apply to their lists (`expenses.map(e => e.id === id ? {...e, f: v} : e)`).
 * Dates are whole days and amounts whole cents.
 */
module Ledger {

  datatype Expense = Expense(
    id: int,
    account: string,
    date: int,
    description: string,
    category: string,
    subcategory: string,
    amount: int,
    notes: string)

  /** The two fields the components let the user edit in place. */
  datatype Edit = SubcategoryEdit(subcategory: string) | NotesEdit(notes: string)

  function ApplyEdit(e: Expense, edit: Edit): Expense
  {
    match edit
    case SubcategoryEdit(v) => e.(subcategory := v)
    case NotesEdit(v) => e.(notes := v)
  }

  /** `list.map(e => e.id === id ? edited(e) : e)` */
  function UpdateById(es: seq<Expense>, id: int, edit: Edit): seq<Expense>
  {
    if es == [] then []
    else [if es[0].id == id then ApplyEdit(es[0], edit) else es[0]] + UpdateById(es[1..], id, edit)
  }

  function Ids(es: seq<Expense>): seq<int>
  {
    seq(|es|, k requires 0 <= k < |es| => es[k].id)
  }

  /**
   * The update keeps length and order, edits exactly the records whose id
   * matches, and changes only the edited field of those.
   */
  lemma {:induction false} UpdateByIdPointwise(es: seq<Expense>, id: int, edit: Edit)
    ensures |UpdateById(es, id, edit)| == |es|
    ensures forall k :: 0 <= k < |es| && es[k].id != id ==> UpdateById(es, id, edit)[k] == es[k]
    ensures forall k :: 0 <= k < |es| && es[k].id == id ==> UpdateById(es, id, edit)[k] == ApplyEdit(es[k], edit)
  {
    if es != [] {
      UpdateByIdPointwise(es[1..], id, edit);
      var r := UpdateById(es, id, edit);
      forall k | 0 < k < |es| ensures r[k] == UpdateById(es[1..], id, edit)[k - 1] { }
    }
  }

  /** A subcategory edit leaves every other field, the id included, as it was. */
  lemma SubcategoryEditTouchesOnlySubcategory(e: Expense, v: string)
    ensures ApplyEdit(e, SubcategoryEdit(v)).subcategory == v
    ensures ApplyEdit(e, SubcategoryEdit(v)).(subcategory := e.subcategory) == e
  {
  }

  /** A notes edit leaves every other field, the id included, as it was. */
  lemma NotesEditTouchesOnlyNotes(e: Expense, v: string)
    ensures ApplyEdit(e, NotesEdit(v)).notes == v
    ensures ApplyEdit(e, NotesEdit(v)).(notes := e.notes) == e
  {
  }

  /** The ids, and so the order of the records, survive every update. */
  lemma UpdateByIdKeepsIds(es: seq<Expense>, id: int, edit: Edit)
    ensures Ids(UpdateById(es, id, edit)) == Ids(es)
  {
    UpdateByIdPointwise(es, id, edit);
  }

  /** Repeating the same edit changes nothing more. */
  lemma {:induction false} UpdateByIdIdempotent(es: seq<Expense>, id: int, edit: Edit)
    ensures UpdateById(UpdateById(es, id, edit), id, edit) == UpdateById(es, id, edit)
  {
    if es != [] {
      UpdateByIdIdempotent(es[1..], id, edit);
    }
  }

  /** When no record carries the id, the list is returned as it was. */
  lemma {:induction false} UpdateByIdAbsent(es: seq<Expense>, id: int, edit: Edit)
    requires id !in Ids(es)
    ensures UpdateById(es, id, edit) == es
  {
    if es != [] {
      assert Ids(es)[0] == es[0].id;
      assert Ids(es[1..]) == Ids(es)[1..];
      UpdateByIdAbsent(es[1..], id, edit);
      assert es == [es[0]] + es[1..];
    }
  }

  /** A subcategory edit and a notes edit commute, whichever records they address. */
  lemma {:induction false} SubcategoryAndNotesEditsCommute(es: seq<Expense>, id1: int, s: string, id2: int, n: string)
    ensures UpdateById(UpdateById(es, id1, SubcategoryEdit(s)), id2, NotesEdit(n))
         == UpdateById(UpdateById(es, id2, NotesEdit(n)), id1, SubcategoryEdit(s))
  {
    if es != [] {
      SubcategoryAndNotesEditsCommute(es[1..], id1, s, id2, n);
    }
  }
}
