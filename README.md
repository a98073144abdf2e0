# Finance tracker: statement upload and ledger logic in Dafny

This project models the logic of a personal finance tracker in Dafny and proves properties of it.
The tracker has a Node/Express backend and two React views.

- **Statement upload** (`backend/index.js`). A parsed CSV statement arrives with the account the user picked. Each row becomes an expense record or is dropped. A record's subcategory comes from its category through a fixed lookup. `saveToDatabase` then inserts every record whose natural key (amount, date, description) is not stored yet. Module `Upload` models this, with the `expenses` table as the class `ExpenseStore`.
- **Expense edit** (`PUT /expenses/:id`). The handler builds a parameterised `UPDATE` from the request body. Module `ExpenseUpdate` models this. It also reads the finished statement the way the database does, listing the `$n` references in order. That exposes a defect in the handler, recorded under "## Findings", and the module gives a corrected builder.
- **Transactions table** (`frontend/src/TransactionsTable.js`). It holds the loaded expenses, a filter form (three checkbox groups, two case-insensitive searches, an inclusive date range and an inclusive amount range), the filtered list and a sort column. Module `Transactions` models it as the class `TransactionsTable`, with one method per handler. The filtering `useEffect` is the method `ApplyFilters`, which the page runs after any change to the filters or the expenses.
- **Spending summary** (`frontend/src/SpendingSummary.js`). It holds the expenses and a sort column. Module `Summary` models it as the class `SpendingSummary`.

Logic the two views duplicate is defined once and shared:
- `Ledger` holds the client-side expense record and the by-id edits.
- `LedgerSort` holds the header-click rule, the comparator and the sorted copy.

`Strings` models `toLowerCase`, `includes` and `<` on strings. `Sequences` holds the subsequence predicate. `Wrappers` holds `Option`.

Representation choices:
- A CSV cell is `Empty | Text | Num`. JavaScript truthiness makes `Empty`, `Text("")` and `Num(0)` false.
- Amounts are whole cents and dates are whole days.
- A row is a map from header to cell. A missing column reads as `Empty`.
- The request's `account` is `None` when absent.
- A database query that throws is modelled by the set `failed` of loop positions whose query throws.
- The browser's `decodeHTML` is the constructor parameter `decode`, about which nothing is assumed.

Behaviour of the code that the model keeps:
- Rows with a zero amount are dropped.
- The upload reply lists every accepted row, including those that were already stored.
- The subcategory lookup compares the raw `Category` cell by exact equality.
- In the transactions table, a notes edit changes only the filtered list. The next `ApplyFilters` rebuilds that list from `expenses`, which still hold the old notes, so the edit is no longer shown (`Transactions.TransactionsTable.NoteEditThenRefilter`, `Transactions.NoteEditLostOnRefilter`).

The code has no statement-format detection, no per-institution column maps, no substring classification rules, no amount sign normalisation, no uniqueness constraint in storage and no inserted or skipped counts, so the model has none either.

## Model

| member | source | states |
|---|---|---|
| `Upload.DefaultSubcategoryIsLookup` | backend/index.js:70-77 | the chain is an exact-match lookup: `Food & Drink` and `Entertainment` give `Wants`; `Groceries`, `Gas`, `Home`, `Health & Wellness` and `Automotive` give `Needs`; anything else, a missing category included, gives `Unselected` |
| `Upload.MapRow` | backend/index.js:62-80 | a row is dropped exactly when `Description`, `Amount` or `Transaction Date` is falsy; an accepted record has truthy date, amount, description, category and subcategory, and carries the request's account |
| `Upload.MapRowFields` | backend/index.js:65-80 | date, amount and description are copied unchanged; category is the `Category` cell when truthy, else `Payment`; subcategory is the `Subcategory` cell when truthy, else the lookup on `Category` |
| `Upload.MapRows` | backend/index.js:61-81 | the accepted list is no longer than the parsed rows, and every record in it is well formed |
| `Upload.MapRowsKeepsOrder` | backend/index.js:61-81 | the accepted list is the order-preserving subsequence of the rows that map to a record: the k-th record comes from the k-th accepted row, positions increase, and a row is accepted exactly when all three required cells are truthy |
| `Upload.MatchingEmptyIff` | backend/index.js:107-114 | the duplicate query returns no rows exactly when no stored row has the record's (amount, date, description) |
| `Upload.SavedExtends` | backend/index.js:105-128 | stored rows are never modified or removed; new rows are appended with consecutive ids |
| `Upload.SavedCoversInputs` | backend/index.js:105-124 | afterwards, the key of every input whose query did not throw is stored, and no stored key is lost |
| `Upload.SavedInsertsFirstSeenAbsent` | backend/index.js:107-123 | each row the loop appends copies, with empty notes, an input whose key was not stored before and that is the first non-failing input with that key |
| `Upload.SavedPreservesInvariants` | backend/index.js:105-128 | a store without duplicate keys stays without them, and ids stay distinct and below the sequence's next value |
| `Upload.SavedNoop` | backend/index.js:107-124 | when every non-failing input's key is already stored, saving changes nothing |
| `Upload.SavedIdempotent` | backend/index.js:105-128 | saving the same list twice gives the same store as saving it once, when every query that threw the first time throws again |
| `Upload.SavedDependsOnlyOnKeys` | backend/index.js:107-115 | category, subcategory and account play no part: lists with the same keys store the same key set and the same number of rows |
| `Upload.UploadOutcome` | backend/index.js:42-88 | the reply is 400 with the store untouched exactly when the file or account is missing or no row has all required cells; otherwise it is 200 with every accepted row, duplicates included |
| `Upload.UploadTwiceIsUploadOnce` | backend/index.js:83-85 | uploading the same file twice gives the same store and the same reply as uploading it once, when every query that threw during the first upload throws again during the second |
| `Upload.ExpenseStore.constructor` | backend/index.js:18-24 | the store starts as a freshly created table: no rows, id sequence at 1; a table that already holds rows, duplicate keys included, is the `db` argument of the `Saved` lemmas, which assume nothing about it |
| `Upload.ExpenseStore.SaveToDatabase` | backend/index.js:102-129 | the loop leaves the store that `Saved` describes: check, then insert or skip, and continue after a failed row |
| `Upload.ExpenseStore.Upload` | backend/index.js:41-89 | the handler's reply and the new store are those of `HandleUpload`; `saveToDatabase` runs only when some row was accepted |
| `ExpenseUpdate.Decimal` | backend/index.js:143 | a rendered placeholder number is a non-empty string of decimal digits |
| `ExpenseUpdate.DecimalRoundTrip` | backend/index.js:143 | the digits written for `n` denote `n` |
| `ExpenseUpdate.DecimalInjective` | backend/index.js:143 | distinct numbers give distinct placeholders |
| `ExpenseUpdate.Assignments` | backend/index.js:143 | there is one assignment per field |
| `ExpenseUpdate.PlaceholdersBind` | backend/index.js:140-148 | in the assignment list, the placeholder written into assignment i reads back as i and indexes field i's value; the `WHERE` placeholder, n+1, indexes the id. This is about the list before joining, not the SQL text (see "## Findings") |
| `ExpenseUpdate.BuildUpdate` | backend/index.js:136-148 | an empty body is rejected with 400 and the source's message; otherwise the statement is the joined assignment list `f1 = $1, ..., fn = $n` with the id placeholder `$(n+1)`, the parameters are the n values followed by the id, and every assignment in the list binds its own value |
| `ExpenseUpdate.ParamRefsSkip` | backend/index.js:148 | statement text without a `$` adds no parameter reference |
| `ExpenseUpdate.ParamRefsPlaceholder` | backend/index.js:143 | a written placeholder `$n` followed by a non-digit is read by the database as a reference to parameter n |
| `ExpenseUpdate.JoinRefs` | backend/index.js:143 | joining assignments `fi = $(start+i)` whose field names hold no `$` yields the references start, start+1, ... in order |
| `ExpenseUpdate.UpdateSqlRefs` | backend/index.js:143-148 | when no field name holds a `$`, the statement text references exactly `$1, ..., $n, $(n+1)`, in that order |
| `ExpenseUpdate.InjectedFieldRebindsPlaceholder` | backend/index.js:140-148 | for the body `{"notes = $2, category": "Groceries", "subcategory": "Needs"}`, whose keys name real columns, the assignment list binds correctly, yet the statement text references `$2, $1, $2, $3` |
| `ExpenseUpdate.BuildCheckedUpdate` | backend/index.js:136-148 | rejects an empty body, as the handler does, and a key that is not a column of `expenses`; otherwise it builds the same statement and parameters, and the text references `$1` to `$(n+1)` in order, so the database binds each column to its own value and the id to the `WHERE` |
| `Strings.ContainsWitness` | frontend/src/TransactionsTable.js:126-127 | when `includes` holds, it names an index at which the search starts |
| `Strings.ContainsFrom` | frontend/src/TransactionsTable.js:126-127 | an occurrence at any index makes `includes` hold |
| `Strings.ContainsAt` | frontend/src/TransactionsTable.js:126-127 | `includes` holds exactly when the search occurs at some position of the field |
| `Strings.LexLessIrreflexive` | frontend/src/TransactionsTable.js:197-198 | no string sorts before itself |
| `Strings.LexLessAsymmetric` | frontend/src/TransactionsTable.js:197-198 | string `<` is asymmetric |
| `Strings.LexLessTotal` | frontend/src/TransactionsTable.js:197-198 | two different strings are ordered one way or the other |
| `Strings.LexLessTransitive` | frontend/src/TransactionsTable.js:197-198 | string `<` is transitive |
| `Ledger.UpdateByIdPointwise` | frontend/src/TransactionsTable.js:144-148 | the by-id map keeps length and order, edits exactly the records with the id, and leaves the others equal |
| `Ledger.SubcategoryEditTouchesOnlySubcategory` | frontend/src/SpendingSummary.js:42-46 | a subcategory edit sets the subcategory and leaves every other field as it was |
| `Ledger.NotesEditTouchesOnlyNotes` | frontend/src/SpendingSummary.js:56-61 | a notes edit sets the notes and leaves every other field as it was |
| `Ledger.UpdateByIdKeepsIds` | frontend/src/SpendingSummary.js:43-45 | the ids, in order, survive every edit |
| `Ledger.UpdateByIdIdempotent` | frontend/src/SpendingSummary.js:57-59 | repeating an edit changes nothing more |
| `Ledger.UpdateByIdAbsent` | frontend/src/TransactionsTable.js:159-161 | an id that no record carries leaves the list unchanged |
| `Ledger.SubcategoryAndNotesEditsCommute` | frontend/src/SpendingSummary.js:42-61 | subcategory edits and notes edits commute |
| `LedgerSort.NextSort` | frontend/src/TransactionsTable.js:174-180 | the key becomes the clicked column; the direction becomes `asc` exactly when that column was the key with direction `desc` |
| `LedgerSort.NextSortAlternates` | frontend/src/SpendingSummary.js:72-78 | repeated clicks on one column alternate direction; a first click on a new column sorts descending |
| `LedgerSort.Compare` | frontend/src/TransactionsTable.js:182-200 | the comparator returns only -1, 0 or 1 |
| `LedgerSort.BeforeAsymmetric` | frontend/src/TransactionsTable.js:186-198 | no two records are each before the other on a column |
| `LedgerSort.BeforeTrichotomy` | frontend/src/TransactionsTable.js:186-198 | two records are unordered on a column exactly when their numeric or lower-cased values are equal |
| `LedgerSort.BeforeTransitive` | frontend/src/TransactionsTable.js:186-198 | the column order is transitive |
| `LedgerSort.CompareDescIsReversedAsc` | frontend/src/SpendingSummary.js:95-97 | descending is exactly the reverse of ascending |
| `LedgerSort.CompareAntisymmetric` | frontend/src/SpendingSummary.js:80-98 | swapping the arguments negates the comparator |
| `LedgerSort.CompareZeroIffEqualKeys` | frontend/src/SpendingSummary.js:84-97 | the comparator returns 0 exactly when dates or amounts are numerically equal, or when the other fields are equal after lower-casing |
| `LedgerSort.InOrderTransitive` | frontend/src/TransactionsTable.js:182-200 | "may come first" is transitive in either direction, so a sorted order exists |
| `LedgerSort.InOrderTotal` | frontend/src/TransactionsTable.js:182-200 | of any two records, one may come first |
| `LedgerSort.AdjacentSortedIsSorted` | frontend/src/TransactionsTable.js:182-200 | a list whose neighbours are in order has every pair in order |
| `LedgerSort.Swap` | frontend/src/TransactionsTable.js:182 | exchanging two cells keeps the other cells and the multiset |
| `LedgerSort.SortInPlace` | frontend/src/TransactionsTable.js:182-200 | sorting in place leaves the array ordered by the comparator and a permutation of what it held |
| `LedgerSort.SortedCopy` | frontend/src/SpendingSummary.js:80-98 | the sorted copy is ordered by the comparator and is a permutation of the list, and the list is not reordered |
| `Transactions.RemoveAllSpec` | frontend/src/TransactionsTable.js:64 | unchecking removes every copy of the value and keeps every other entry, in order and with its count |
| `Transactions.RemoveAllCounts` | frontend/src/TransactionsTable.js:64 | the value's count drops to zero and every other count is kept |
| `Transactions.RemoveAllSubsequence` | frontend/src/TransactionsTable.js:64 | what remains is an order-preserving subsequence |
| `Transactions.RemoveAllAbsent` | frontend/src/TransactionsTable.js:64 | removing a value that is not present changes nothing |
| `Transactions.RemoveAllAppend` | frontend/src/TransactionsTable.js:62-64 | removing a value just appended removes its earlier copies too |
| `Transactions.ToggleFilter` | frontend/src/TransactionsTable.js:57-68 | checking appends the value to its group; unchecking removes every occurrence and keeps the rest in order; all other filter keys are unchanged |
| `Transactions.CheckThenUncheck` | frontend/src/TransactionsTable.js:57-68 | checking and then unchecking a clear box restores the filters |
| `Transactions.FilterExpenses` | frontend/src/TransactionsTable.js:122-139 | the filtered list is no longer than the input, and every member passes all seven tests |
| `Transactions.FilterSpec` | frontend/src/TransactionsTable.js:122-141 | the filtered list is an order-preserving subsequence of `expenses`, and a record is in it exactly when it is in `expenses` and passes the account, category, subcategory, description, notes, date and amount tests |
| `Transactions.FilterConcat` | frontend/src/TransactionsTable.js:122 | filtering distributes over concatenation, so the order is kept |
| `Transactions.InitialFiltersShowAll` | frontend/src/TransactionsTable.js:30-40 | with the initial empty filters, every expense is shown |
| `Transactions.FilterIdempotent` | frontend/src/TransactionsTable.js:122-139 | filtering the filtered list changes nothing |
| `Transactions.SearchIgnoresCase` | frontend/src/TransactionsTable.js:126-127 | the two searches ignore the case of what is typed |
| `Transactions.DistinctSpec` | frontend/src/TransactionsTable.js:221 | `Array.from(new Set(...))` has no repeats, offers every value that occurs, and keeps first-appearance order: the list for any prefix of the values is a prefix of the whole list |
| `Transactions.ColumnMembers` | frontend/src/TransactionsTable.js:263 | a value is in a projected column exactly when some expense has it |
| `Transactions.NoteEditLostOnRefilter` | frontend/src/TransactionsTable.js:121-163 | after a notes edit to a shown row, the shown list has the new notes, yet it differs from the list the next filter run rebuilds from the unchanged `expenses`, so the edit is no longer shown |
| `Transactions.RemoveAllKeepsNoDuplicates` | frontend/src/TransactionsTable.js:278 | dropping blanks from a repeat-free list keeps it repeat-free |
| `Transactions.TransactionsTable.constructor` | frontend/src/TransactionsTable.js:28-41 | the page starts with empty lists, the empty filter form and the date, newest-first sort |
| `Transactions.TransactionsTable.Load` | frontend/src/TransactionsTable.js:45-54 | loading sets both the expenses and the filtered list to the fetched rows |
| `Transactions.TransactionsTable.HandleFilterChange` | frontend/src/TransactionsTable.js:57-68 | only the filters change, as `ToggleFilter` says |
| `Transactions.TransactionsTable.HandleDescriptionChange` | frontend/src/TransactionsTable.js:71-76 | only the description search changes |
| `Transactions.TransactionsTable.HandleNotesChange` | frontend/src/TransactionsTable.js:79-84 | only the notes search changes |
| `Transactions.TransactionsTable.HandleDateChange` | frontend/src/TransactionsTable.js:87-93 | only the named date bound changes |
| `Transactions.TransactionsTable.HandleAmountChange` | frontend/src/TransactionsTable.js:96-102 | only the named amount bound changes |
| `Transactions.TransactionsTable.HandleDeleteAll` | frontend/src/TransactionsTable.js:105-118 | both lists are emptied only after confirmation and a successful delete |
| `Transactions.TransactionsTable.ApplyFilters` | frontend/src/TransactionsTable.js:121-142 | the filtered list becomes the filter of `expenses`, an order-preserving subsequence of it; nothing else changes |
| `Transactions.TransactionsTable.HandleSubcategoryChange` | frontend/src/TransactionsTable.js:144-148 | only the matching record's subcategory in `expenses` changes; ids and order are kept |
| `Transactions.TransactionsTable.HandleNoteChange` | frontend/src/TransactionsTable.js:158-163 | only the matching record's notes change, and only in the filtered list; `expenses` is untouched |
| `Transactions.TransactionsTable.NoteEditThenRefilter` | frontend/src/TransactionsTable.js:121-163 | a notes edit followed by the filtering effect leaves the shown list equal to the filter of the unchanged `expenses` and filters: the edit is lost whatever notes were typed |
| `Transactions.TransactionsTable.HandleSort` | frontend/src/TransactionsTable.js:174-180 | the sort moves as `NextSort` says; nothing else changes |
| `Transactions.TransactionsTable.SortedExpenses` | frontend/src/TransactionsTable.js:182-200 | the rendered rows are the filtered list, permuted and ordered by the comparator |
| `Transactions.TransactionsTable.AccountOptions` | frontend/src/TransactionsTable.js:221 | the account boxes are the distinct accounts of the expenses, without repeats |
| `Transactions.TransactionsTable.CategoryOptions` | frontend/src/TransactionsTable.js:263 | the category boxes are the distinct categories, without repeats |
| `Transactions.TransactionsTable.SubcategoryOptions` | frontend/src/TransactionsTable.js:278 | the subcategory boxes are the distinct non-blank subcategories, without repeats |
| `Summary.SpendingSummary.constructor` | frontend/src/SpendingSummary.js:28-29 | the page starts empty and sorted by date, newest first |
| `Summary.SpendingSummary.Load` | frontend/src/SpendingSummary.js:32-40 | loading sets the expenses to the fetched rows |
| `Summary.SpendingSummary.HandleSubcategoryChange` | frontend/src/SpendingSummary.js:42-46 | only the matching record's subcategory changes; length, ids and order are kept |
| `Summary.SpendingSummary.HandleNoteChange` | frontend/src/SpendingSummary.js:56-61 | only the matching record's notes change; length, ids and order are kept |
| `Summary.SpendingSummary.HandleSort` | frontend/src/SpendingSummary.js:72-78 | the sort moves as `NextSort` says |
| `Summary.SpendingSummary.SortedExpenses` | frontend/src/SpendingSummary.js:80-98 | the rendered rows are the expenses, permuted and ordered by the comparator |

## Left out

- HTTP routing, the multer upload, reading the file and CSV parsing (backend/index.js:41-59). The model starts from the parsed rows. The 500 replies for a parse error or a read error (backend/index.js:90-98) are not modelled.
- Boolean cells produced by the parser's dynamic typing are not modelled. Neither are fractional amounts.
- The PostgreSQL pool and SQL execution (backend/index.js:18-24). The table is an in-memory sequence. Key equality is equality of cells, so SQL type coercion is not modelled.
- The id sequence is a counter. Gaps from failed inserts are not modelled.
- The race between two concurrent uploads that pass the duplicate check together is a concurrency matter and is not modelled.
- `ExpenseUpdate.BuildUpdate` models the handler as written, keys unescaped. What that does to the statement text is under "## Findings".
- `ExpenseUpdate.ParamRefs` reads every `$` followed by digits as a parameter reference. PostgreSQL's quoted strings, comments and identifiers containing `$` are not modelled. None of these occur in a statement built from column names.
- Running the `UPDATE` against the store and its 500 reply (backend/index.js:146-155) are not modelled. For keys that look like integers, `Object.keys` order is not modelled: the body is taken as a list of entries in key order.
- `GET /expenses` and its ordering (backend/index.js:30-38) are not modelled.
- `formatDate`, `formatAmount`, `parseFloat` and `new Date` are not modelled. Dates and amounts are integers.
- `decodeHTML` needs the browser DOM. It is a parameter of the table.
- Lower-casing covers ASCII letters only.
- String `<` is modelled as code-point order, not UTF-16 code-unit order.
- `handleNoteBlur`, the PUT request sent by `handleSubcategoryChange`, alerts and the filter-visibility toggle are UI and network plumbing. They are not modelled.
- Rendering is not modelled. Neither are the uploader, tracker, navigation and bank-link components.
- `Array.prototype.sort` is modelled by an insertion sort, because the engine's algorithm is not part of this model.
- LedgerSort.SortedCopy: states sorted-and-permutation but not the stability that `Array.prototype.sort` guarantees, because the engine's algorithm is not modelled.

## Findings

| source | as written | input that shows it | evidently intended | confidence | as-written member | corrected member |
|---|---|---|---|---|---|---|
| backend/index.js:140-148 | the request body's keys are written into the `SET` clause unescaped, next to placeholders numbered by position | body `{"notes = $2, category": "Groceries", "subcategory": "Needs"}` for id 7: the statement reads `SET notes = $2, category = $1, subcategory = $2 WHERE id = $3`, so the database sets `notes` to `Needs`, the value sent for `subcategory`, and `category` to `Groceries`, the value sent under the first key | each key names a column of `expenses` and is bound to its own value, `$i` to the i-th value and `$(n+1)` to the id | high; not executed | `ExpenseUpdate.InjectedFieldRebindsPlaceholder` | `ExpenseUpdate.BuildCheckedUpdate` |
