/**
 * The spending summary page: the loaded expenses, the sort column, and the
 * in-place edits of subcategory and notes. It has no filters: it renders
 * every loaded expense, sorted.
 */
module Summary {
  import opened Ledger
  import opened LedgerSort

  class SpendingSummary {
    var expenses: seq<Expense>
    var sortConfig: SortConfig

    constructor ()
      ensures expenses == [] && sortConfig == InitialSort
    {
      expenses := [];
      sortConfig := InitialSort;
    }

    /** The mount effect once `GET /expenses` has answered. */
    method Load(data: seq<Expense>)
      modifies this
      ensures expenses == data && sortConfig == old(sortConfig)
    {
      expenses := data;
    }

    /** Sets the subcategory of the record with this id; length, order and every other record stay as they were. */
    method HandleSubcategoryChange(id: int, value: string)
      modifies this
      ensures expenses == UpdateById(old(expenses), id, SubcategoryEdit(value))
      ensures Ids(expenses) == Ids(old(expenses))
      ensures sortConfig == old(sortConfig)
    {
      expenses := UpdateById(expenses, id, SubcategoryEdit(value));
      UpdateByIdKeepsIds(old(expenses), id, SubcategoryEdit(value));
    }

    /** Sets the notes of the record with this id; length, order and every other record stay as they were. */
    method HandleNoteChange(id: int, value: string)
      modifies this
      ensures expenses == UpdateById(old(expenses), id, NotesEdit(value))
      ensures Ids(expenses) == Ids(old(expenses))
      ensures sortConfig == old(sortConfig)
    {
      expenses := UpdateById(expenses, id, NotesEdit(value));
      UpdateByIdKeepsIds(old(expenses), id, NotesEdit(value));
    }

    method HandleSort(key: SortKey)
      modifies this
      ensures sortConfig == NextSort(old(sortConfig), key)
      ensures expenses == old(expenses)
    {
      sortConfig := NextSort(sortConfig, key);
    }

    /** The rows rendered: every expense, sorted by the current column; `expenses` itself is not reordered. */
    method SortedExpenses() returns (r: seq<Expense>)
      ensures SortedBy(r, sortConfig)
      ensures multiset(r) == multiset(expenses)
    {
      r := SortedCopy(expenses, sortConfig);
    }
  }
}
