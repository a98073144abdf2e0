/**
 * The transactions table: the loaded expenses, the filter form, the list the
 * filters let through, the sort column, and the handlers that change them.
 */
module Transactions {
  import opened Wrappers
  import opened Sequences
  import opened Strings
  import opened Ledger
  import opened LedgerSort

  /** The filter form; an empty list, an empty search or a `None` bound imposes nothing. */
  datatype Filters = Filters(
    account: seq<string>,
    category: seq<string>,
    subcategory: seq<string>,
    description: string,
    notes: string,
    startDate: Option<int>,
    endDate: Option<int>,
    minAmount: Option<int>,
    maxAmount: Option<int>)

  const InitialFilters := Filters([], [], [], "", "", None, None, None, None)

  /** The three checkbox groups of the form. */
  datatype CheckboxGroup = AccountGroup | CategoryGroup | SubcategoryGroup

  function Checked(f: Filters, group: CheckboxGroup): seq<string>
  {
    match group
    case AccountGroup => f.account
    case CategoryGroup => f.category
    case SubcategoryGroup => f.subcategory
  }

  function WithChecked(f: Filters, group: CheckboxGroup, list: seq<string>): Filters
  {
    match group
    case AccountGroup => f.(account := list)
    case CategoryGroup => f.(category := list)
    case SubcategoryGroup => f.(subcategory := list)
  }

  /** `list.filter(item => item !== value)` */
  function RemoveAll(list: seq<string>, value: string): (r: seq<string>)
    ensures |r| <= |list|
  {
    if list == [] then []
    else (if list[0] != value then [list[0]] else []) + RemoveAll(list[1..], value)
  }

  /** Unchecking removes every copy of the value and keeps every other entry, in order and with its multiplicity. */
  lemma RemoveAllSpec(list: seq<string>, value: string)
    ensures value !in RemoveAll(list, value)
    ensures forall x :: x != value ==> multiset(RemoveAll(list, value))[x] == multiset(list)[x]
    ensures IsSubsequence(RemoveAll(list, value), list)
    ensures forall x :: x != value ==> (x in RemoveAll(list, value) <==> x in list)
  {
    RemoveAllCounts(list, value);
    RemoveAllSubsequence(list, value);
    var r := RemoveAll(list, value);
    forall x | x != value ensures x in r <==> x in list {
      assert x in r <==> x in multiset(r);
      assert x in list <==> x in multiset(list);
    }
  }

  lemma {:induction false} RemoveAllCounts(list: seq<string>, value: string)
    ensures multiset(RemoveAll(list, value))[value] == 0
    ensures forall x :: x != value ==> multiset(RemoveAll(list, value))[x] == multiset(list)[x]
  {
    if list != [] {
      RemoveAllCounts(list[1..], value);
      var head := if list[0] != value then [list[0]] else [];
      var rest := RemoveAll(list[1..], value);
      assert RemoveAll(list, value) == head + rest;
      assert multiset(RemoveAll(list, value)) == multiset(head) + multiset(rest);
      assert list == [list[0]] + list[1..];
      assert multiset(list) == multiset([list[0]]) + multiset(list[1..]);
    }
  }

  lemma {:induction false} RemoveAllSubsequence(list: seq<string>, value: string)
    ensures IsSubsequence(RemoveAll(list, value), list)
  {
    if list != [] {
      RemoveAllSubsequence(list[1..], value);
      var rest := RemoveAll(list[1..], value);
      if list[0] != value {
        assert RemoveAll(list, value) == [list[0]] + rest;
        assert ([list[0]] + rest)[1..] == rest;
      } else {
        assert RemoveAll(list, value) == rest;
      }
    }
  }

  /** Removing a value that is not there changes nothing. */
  lemma {:induction false} RemoveAllAbsent(list: seq<string>, value: string)
    requires value !in list
    ensures RemoveAll(list, value) == list
  {
    if list != [] {
      RemoveAllAbsent(list[1..], value);
      assert list == [list[0]] + list[1..];
    }
  }

  /** `handleFilterChange`: a checked box appends its value to its group, an unchecked one removes it. */
  function ToggleFilter(f: Filters, group: CheckboxGroup, value: string, checked: bool): (r: Filters)
    ensures checked ==> Checked(r, group) == Checked(f, group) + [value]
    ensures !checked ==> value !in Checked(r, group)
    ensures !checked ==> forall x :: x != value ==> multiset(Checked(r, group))[x] == multiset(Checked(f, group))[x]
    ensures !checked ==> IsSubsequence(Checked(r, group), Checked(f, group))
    ensures WithChecked(r, group, Checked(f, group)) == f
  {
    RemoveAllSpec(Checked(f, group), value);
    WithChecked(f, group, if checked then Checked(f, group) + [value] else RemoveAll(Checked(f, group), value))
  }

  /** Checking then unchecking a box that was clear leaves the filters as they were. */
  lemma CheckThenUncheck(f: Filters, group: CheckboxGroup, value: string)
    requires value !in Checked(f, group)
    ensures ToggleFilter(ToggleFilter(f, group, value, true), group, value, false) == f
  {
    var list := Checked(f, group);
    RemoveAllAbsent(list, value);
    assert RemoveAll(list + [value], value) == list by {
      RemoveAllAppend(list, value);
    }
  }

  lemma {:induction false} RemoveAllAppend(list: seq<string>, value: string)
    ensures RemoveAll(list + [value], value) == RemoveAll(list, value)
  {
    if list == [] {
      assert RemoveAll([value], value) == [] + RemoveAll([], value);
    } else {
      RemoveAllAppend(list[1..], value);
      assert (list + [value])[1..] == list[1..] + [value];
    }
  }

  /** A checkbox group lets a record through when nothing is checked or its value is checked. */
  predicate Selected(list: seq<string>, value: string)
  {
    |list| == 0 || value in list
  }

  /** A search box lets a record through when empty or when the decoded field contains the search, ignoring case. */
  predicate TextMatches(decode: string -> string, field: string, search: string)
  {
    search == "" || Contains(Lower(decode(field)), Lower(search))
  }

  /** Both bounds are inclusive and each may be absent. */
  predicate WithinBounds(x: int, low: Option<int>, high: Option<int>)
  {
    (low.None? || x >= low.value) && (high.None? || x <= high.value)
  }

  /** The callback of `expenses.filter(...)` in the filtering effect. */
  predicate Matches(f: Filters, decode: string -> string, e: Expense)
  {
    && Selected(f.account, e.account)
    && Selected(f.category, e.category)
    && Selected(f.subcategory, e.subcategory)
    && TextMatches(decode, e.description, f.description)
    && TextMatches(decode, e.notes, f.notes)
    && WithinBounds(e.date, f.startDate, f.endDate)
    && WithinBounds(e.amount, f.minAmount, f.maxAmount)
  }

  function FilterExpenses(es: seq<Expense>, f: Filters, decode: string -> string): (r: seq<Expense>)
    ensures |r| <= |es|
    ensures forall k :: 0 <= k < |r| ==> Matches(f, decode, r[k])
  {
    if es == [] then []
    else (if Matches(f, decode, es[0]) then [es[0]] else []) + FilterExpenses(es[1..], f, decode)
  }

  /** The filtered list is the order-preserving subsequence of the records that pass all seven tests. */
  lemma {:induction false} FilterSpec(es: seq<Expense>, f: Filters, decode: string -> string)
    ensures IsSubsequence(FilterExpenses(es, f, decode), es)
    ensures forall e :: e in FilterExpenses(es, f, decode) <==> e in es && Matches(f, decode, e)
  {
    if es != [] {
      FilterSpec(es[1..], f, decode);
      assert es == [es[0]] + es[1..];
      var rest := FilterExpenses(es[1..], f, decode);
      if Matches(f, decode, es[0]) {
        assert FilterExpenses(es, f, decode) == [es[0]] + rest;
        assert ([es[0]] + rest)[1..] == rest;
      } else {
        assert FilterExpenses(es, f, decode) == rest;
      }
    }
  }

  /** Filtering keeps the order: filtering a concatenation concatenates the filtered parts. */
  lemma {:induction false} FilterConcat(a: seq<Expense>, b: seq<Expense>, f: Filters, decode: string -> string)
    ensures FilterExpenses(a + b, f, decode) == FilterExpenses(a, f, decode) + FilterExpenses(b, f, decode)
  {
    if a != [] {
      FilterConcat(a[1..], b, f, decode);
      assert (a + b)[1..] == a[1..] + b;
    } else {
      assert a + b == b;
    }
  }

  /** With the form as it starts, every record is shown. */
  lemma {:induction false} InitialFiltersShowAll(es: seq<Expense>, decode: string -> string)
    ensures FilterExpenses(es, InitialFilters, decode) == es
  {
    if es != [] {
      InitialFiltersShowAll(es[1..], decode);
      assert es == [es[0]] + es[1..];
    }
  }

  /** Re-running the filter on its own output changes nothing. */
  lemma {:induction false} FilterIdempotent(es: seq<Expense>, f: Filters, decode: string -> string)
    ensures FilterExpenses(FilterExpenses(es, f, decode), f, decode) == FilterExpenses(es, f, decode)
  {
    if es != [] {
      FilterIdempotent(es[1..], f, decode);
      var rest := FilterExpenses(es[1..], f, decode);
      if Matches(f, decode, es[0]) {
        assert FilterExpenses(es, f, decode) == [es[0]] + rest;
        assert ([es[0]] + rest)[1..] == rest;
      } else {
        assert FilterExpenses(es, f, decode) == rest;
      }
    }
  }

  /** The searches ignore the case of what is typed. */
  lemma SearchIgnoresCase(f: Filters, decode: string -> string, e: Expense)
    ensures Matches(f.(description := Lower(f.description), notes := Lower(f.notes)), decode, e) == Matches(f, decode, e)
  {
    LowerIdempotent(f.description);
    LowerIdempotent(f.notes);
  }

  /** `Array.from(new Set(values))`: the values without repeats, in order of first appearance. */
  function Distinct(values: seq<string>): seq<string>
  {
    if values == [] then []
    else
      var d := Distinct(values[..|values| - 1]);
      if values[|values| - 1] in d then d else d + [values[|values| - 1]]
  }

  /**
   * The option list has no repeats and offers every value that occurs, in
   * order of first appearance: the list for any prefix of the values is a
   * prefix of the whole list.
   */
  lemma {:induction false} DistinctSpec(values: seq<string>)
    ensures NoDuplicates(Distinct(values))
    ensures forall x :: x in Distinct(values) <==> x in values
    ensures IsSubsequence(Distinct(values), values)
    ensures forall k :: 0 <= k <= |values| ==> Distinct(values[..k]) <= Distinct(values)
  {
    if values != [] {
      var n := |values| - 1;
      var p := values[..n];
      DistinctSpec(p);
      assert values == p + [values[n]];
      SubsequenceAppend(Distinct(p), p, values[n]);
      assert Distinct(p) <= Distinct(values);
      forall k | 0 <= k <= |values| ensures Distinct(values[..k]) <= Distinct(values) {
        if k <= n {
          assert values[..k] == p[..k];
        } else {
          assert values[..k] == values;
        }
      }
    } else {
      assert values[..0] == values;
    }
  }

  /** One column of the loaded records, `expenses.map(expense => expense.field)`. */
  function Column(es: seq<Expense>, field: Expense -> string): seq<string>
  {
    seq(|es|, k requires 0 <= k < |es| => field(es[k]))
  }

  lemma ColumnMembers(es: seq<Expense>, field: Expense -> string)
    ensures forall x :: x in Column(es, field) <==> exists k :: 0 <= k < |es| && field(es[k]) == x
  {
    forall x | x in Column(es, field) ensures exists k :: 0 <= k < |es| && field(es[k]) == x {
      var k :| 0 <= k < |Column(es, field)| && Column(es, field)[k] == x;
    }
    forall x, k | 0 <= k < |es| && field(es[k]) == x ensures x in Column(es, field) {
      assert Column(es, field)[k] == x;
    }
  }

  /**
   * A notes edit lives only in the filtered list. The next filter run rebuilds
   * that list from the full list, which still holds the old notes, so the row
   * the user edited shows its old text again.
   */
  lemma NoteEditLostOnRefilter(es: seq<Expense>, f: Filters, decode: string -> string, id: int, notes: string, k: int)
    requires 0 <= k < |FilterExpenses(es, f, decode)|
    requires FilterExpenses(es, f, decode)[k].id == id
    requires FilterExpenses(es, f, decode)[k].notes != notes
    ensures var edited := UpdateById(FilterExpenses(es, f, decode), id, NotesEdit(notes));
      k < |edited| && edited[k].notes == notes
    ensures UpdateById(FilterExpenses(es, f, decode), id, NotesEdit(notes)) != FilterExpenses(es, f, decode)
  {
    UpdateByIdPointwise(FilterExpenses(es, f, decode), id, NotesEdit(notes));
  }

  datatype DateBound = StartDate | EndDate

  datatype AmountBound = MinAmount | MaxAmount

  class TransactionsTable {
    /** The page's `decodeHTML`, which goes through the browser's DOM. */
    const decode: string -> string
    var expenses: seq<Expense>
    var filteredExpenses: seq<Expense>
    var filters: Filters
    var sortConfig: SortConfig

    constructor (decode: string -> string)
      ensures this.decode == decode
      ensures expenses == [] && filteredExpenses == []
      ensures filters == InitialFilters && sortConfig == InitialSort
    {
      this.decode := decode;
      expenses := [];
      filteredExpenses := [];
      filters := InitialFilters;
      sortConfig := InitialSort;
    }

    /** The mount effect once `GET /expenses` has answered. */
    method Load(data: seq<Expense>)
      modifies this
      ensures expenses == data && filteredExpenses == data
      ensures filters == old(filters) && sortConfig == old(sortConfig)
    {
      expenses := data;
      filteredExpenses := data;
    }

    method HandleFilterChange(group: CheckboxGroup, value: string, checked: bool)
      modifies this
      ensures filters == ToggleFilter(old(filters), group, value, checked)
      ensures expenses == old(expenses) && filteredExpenses == old(filteredExpenses) && sortConfig == old(sortConfig)
    {
      filters := ToggleFilter(filters, group, value, checked);
    }

    method HandleDescriptionChange(search: string)
      modifies this
      ensures filters == old(filters).(description := search)
      ensures expenses == old(expenses) && filteredExpenses == old(filteredExpenses) && sortConfig == old(sortConfig)
    {
      filters := filters.(description := search);
    }

    method HandleNotesChange(search: string)
      modifies this
      ensures filters == old(filters).(notes := search)
      ensures expenses == old(expenses) && filteredExpenses == old(filteredExpenses) && sortConfig == old(sortConfig)
    {
      filters := filters.(notes := search);
    }

    method HandleDateChange(bound: DateBound, value: Option<int>)
      modifies this
      ensures filters == if bound == StartDate then old(filters).(startDate := value) else old(filters).(endDate := value)
      ensures expenses == old(expenses) && filteredExpenses == old(filteredExpenses) && sortConfig == old(sortConfig)
    {
      if bound == StartDate {
        filters := filters.(startDate := value);
      } else {
        filters := filters.(endDate := value);
      }
    }

    method HandleAmountChange(bound: AmountBound, value: Option<int>)
      modifies this
      ensures filters == if bound == MinAmount then old(filters).(minAmount := value) else old(filters).(maxAmount := value)
      ensures expenses == old(expenses) && filteredExpenses == old(filteredExpenses) && sortConfig == old(sortConfig)
    {
      if bound == MinAmount {
        filters := filters.(minAmount := value);
      } else {
        filters := filters.(maxAmount := value);
      }
    }

    /** "Delete All": the lists are emptied only when the user confirmed and the delete request succeeded. */
    method HandleDeleteAll(confirmed: bool, deleted: bool)
      modifies this
      ensures confirmed && deleted ==> expenses == [] && filteredExpenses == []
      ensures !(confirmed && deleted) ==> expenses == old(expenses) && filteredExpenses == old(filteredExpenses)
      ensures filters == old(filters) && sortConfig == old(sortConfig)
    {
      if confirmed && deleted {
        expenses := [];
        filteredExpenses := [];
      }
    }

    /** The filtering effect, run whenever `filters` or `expenses` has changed. */
    method ApplyFilters()
      modifies this
      ensures filteredExpenses == FilterExpenses(expenses, filters, decode)
      ensures IsSubsequence(filteredExpenses, expenses)
      ensures expenses == old(expenses) && filters == old(filters) && sortConfig == old(sortConfig)
    {
      filteredExpenses := FilterExpenses(expenses, filters, decode);
      FilterSpec(expenses, filters, decode);
    }

    /** Sets the subcategory of the record with this id in the full list. */
    method HandleSubcategoryChange(id: int, value: string)
      modifies this
      ensures expenses == UpdateById(old(expenses), id, SubcategoryEdit(value))
      ensures Ids(expenses) == Ids(old(expenses))
      ensures filteredExpenses == old(filteredExpenses) && filters == old(filters) && sortConfig == old(sortConfig)
    {
      expenses := UpdateById(expenses, id, SubcategoryEdit(value));
      UpdateByIdKeepsIds(old(expenses), id, SubcategoryEdit(value));
    }

    /** Sets the notes of the record with this id in the filtered list only; the full list keeps the old notes. */
    method HandleNoteChange(id: int, value: string)
      modifies this
      ensures filteredExpenses == UpdateById(old(filteredExpenses), id, NotesEdit(value))
      ensures Ids(filteredExpenses) == Ids(old(filteredExpenses))
      ensures expenses == old(expenses) && filters == old(filters) && sortConfig == old(sortConfig)
    {
      filteredExpenses := UpdateById(filteredExpenses, id, NotesEdit(value));
      UpdateByIdKeepsIds(old(filteredExpenses), id, NotesEdit(value));
    }

    /**
     * A notes edit and then the next run of the filtering effect: the list is
     * rebuilt from `expenses`, which the edit never touched, so the new notes
     * are no longer shown.
     */
    method NoteEditThenRefilter(id: int, value: string)
      modifies this
      ensures filteredExpenses == FilterExpenses(old(expenses), old(filters), decode)
      ensures expenses == old(expenses) && filters == old(filters) && sortConfig == old(sortConfig)
    {
      HandleNoteChange(id, value);
      ApplyFilters();
    }

    method HandleSort(key: SortKey)
      modifies this
      ensures sortConfig == NextSort(old(sortConfig), key)
      ensures expenses == old(expenses) && filteredExpenses == old(filteredExpenses) && filters == old(filters)
    {
      sortConfig := NextSort(sortConfig, key);
    }

    /** The rows rendered: the filtered list sorted by the current column; the filtered list itself is not reordered. */
    method SortedExpenses() returns (r: seq<Expense>)
      ensures SortedBy(r, sortConfig)
      ensures multiset(r) == multiset(filteredExpenses)
    {
      r := SortedCopy(filteredExpenses, sortConfig);
    }

    /** The account checkboxes. */
    function AccountOptions(): (r: seq<string>)
      reads this
      ensures NoDuplicates(r)
      ensures forall a :: a in r <==> exists k :: 0 <= k < |expenses| && expenses[k].account == a
    {
      var field := (e: Expense) => e.account;
      var column := Column(expenses, field);
      DistinctSpec(column);
      ColumnMembers(expenses, field);
      Distinct(column)
    }

    /** The category checkboxes. */
    function CategoryOptions(): (r: seq<string>)
      reads this
      ensures NoDuplicates(r)
      ensures forall c :: c in r <==> exists k :: 0 <= k < |expenses| && expenses[k].category == c
    {
      var field := (e: Expense) => e.category;
      var column := Column(expenses, field);
      DistinctSpec(column);
      ColumnMembers(expenses, field);
      Distinct(column)
    }

    /** The subcategory checkboxes; blank subcategories get none (`.filter(Boolean)`). */
    function SubcategoryOptions(): (r: seq<string>)
      reads this
      ensures NoDuplicates(r)
      ensures forall s :: s in r <==> s != "" && exists k :: 0 <= k < |expenses| && expenses[k].subcategory == s
    {
      var field := (e: Expense) => e.subcategory;
      var column := Column(expenses, field);
      var d := Distinct(column);
      DistinctSpec(column);
      ColumnMembers(expenses, field);
      RemoveAllSpec(d, "");
      RemoveAllKeepsNoDuplicates(d, "");
      RemoveAll(d, "")
    }
  }

  lemma {:induction false} RemoveAllKeepsNoDuplicates(list: seq<string>, value: string)
    requires NoDuplicates(list)
    ensures NoDuplicates(RemoveAll(list, value))
  {
    if list != [] {
      RemoveAllKeepsNoDuplicates(list[1..], value);
      RemoveAllSpec(list[1..], value);
      if list[0] != value {
        assert list[0] !in list[1..];
      }
    }
  }
}
