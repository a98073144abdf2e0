/**
 * Column sorting shared by the transactions table and the spending summary:
 * the header-click rule that picks the sort key and direction, the comparator
 * handed to `Array.prototype.sort`, and the sorted copy rendered as the table body.
 */
module LedgerSort {
  import opened Strings
  import opened Ledger

  /** The sortable columns; the notes column has no click handler. */
  datatype SortKey = AccountKey | DateKey | DescriptionKey | CategoryKey | SubcategoryKey | AmountKey

  datatype Direction = Asc | Desc

  datatype SortConfig = SortConfig(key: SortKey, direction: Direction)

  /** Both components start sorted by date, newest first. */
  const InitialSort := SortConfig(DateKey, Desc)

  /** `handleSort(key)`: a click on the column already sorted descending flips it to ascending; every other click sorts that column descending. */
  function NextSort(current: SortConfig, key: SortKey): (r: SortConfig)
    ensures r.key == key
    ensures r.direction == Asc <==> current.key == key && current.direction == Desc
  {
    SortConfig(key, if current.key == key && current.direction == Desc then Asc else Desc)
  }

  /** Clicking one column repeatedly alternates between descending and ascending, starting descending unless it already was. */
  lemma NextSortAlternates(current: SortConfig, key: SortKey)
    ensures NextSort(NextSort(current, key), key).direction != NextSort(current, key).direction
    ensures NextSort(NextSort(NextSort(current, key), key), key) == NextSort(current, key)
    ensures current.key != key ==> NextSort(current, key) == SortConfig(key, Desc)
  {
  }

  /** What the comparator compares: dates and amounts as numbers, the other columns as lower-cased strings. */
  datatype SortValue = Number(n: int) | Str(s: string)

  function ValueOf(key: SortKey, e: Expense): SortValue
  {
    match key
    case DateKey => Number(e.date)
    case AmountKey => Number(e.amount)
    case AccountKey => Str(Lower(e.account))
    case DescriptionKey => Str(Lower(e.description))
    case CategoryKey => Str(Lower(e.category))
    case SubcategoryKey => Str(Lower(e.subcategory))
  }

  /** JavaScript `<` on two values of the same column. */
  predicate ValueLess(x: SortValue, y: SortValue)
  {
    match (x, y)
    case (Number(m), Number(n)) => m < n
    case (Str(s), Str(t)) => LexLess(s, t)
    case _ => false
  }

  predicate Before(key: SortKey, a: Expense, b: Expense)
  {
    ValueLess(ValueOf(key, a), ValueOf(key, b))
  }

  /** The comparator: -1 or 1 according to the direction when the keys differ, 0 when they are equal. */
  function Compare(config: SortConfig, a: Expense, b: Expense): (r: int)
    ensures r in {-1, 0, 1}
  {
    if Before(config.key, a, b) then (if config.direction == Asc then -1 else 1)
    else if Before(config.key, b, a) then (if config.direction == Asc then 1 else -1)
    else 0
  }

  lemma BeforeAsymmetric(key: SortKey, a: Expense, b: Expense)
    ensures Before(key, a, b) ==> !Before(key, b, a)
  {
    match ValueOf(key, a)
    case Number(_) =>
    case Str(s) =>
      if Before(key, a, b) {
        LexLessAsymmetric(s, ValueOf(key, b).s);
      }
  }

  /** `Before` is a strict total order on the column's values. */
  lemma BeforeTrichotomy(key: SortKey, a: Expense, b: Expense)
    ensures ValueOf(key, a) == ValueOf(key, b) <==> !Before(key, a, b) && !Before(key, b, a)
  {
    match ValueOf(key, a)
    case Number(_) =>
    case Str(s) =>
      var t := ValueOf(key, b).s;
      LexLessIrreflexive(s);
      if s != t {
        LexLessTotal(s, t);
      }
  }

  lemma BeforeTransitive(key: SortKey, a: Expense, b: Expense, c: Expense)
    ensures Before(key, a, b) && Before(key, b, c) ==> Before(key, a, c)
  {
    match ValueOf(key, a)
    case Number(_) =>
    case Str(s) =>
      if Before(key, a, b) && Before(key, b, c) {
        LexLessTransitive(s, ValueOf(key, b).s, ValueOf(key, c).s);
      }
  }

  /** Descending order is exactly the reverse of ascending order. */
  lemma CompareDescIsReversedAsc(key: SortKey, a: Expense, b: Expense)
    ensures Compare(SortConfig(key, Desc), a, b) == -Compare(SortConfig(key, Asc), a, b)
  {
  }

  /** Swapping the arguments negates the comparator. */
  lemma CompareAntisymmetric(config: SortConfig, a: Expense, b: Expense)
    ensures Compare(config, a, b) == -Compare(config, b, a)
  {
    BeforeAsymmetric(config.key, a, b);
  }

  /** The comparator returns 0 exactly when the two records agree on the sort column. */
  lemma CompareZeroIffEqualKeys(config: SortConfig, a: Expense, b: Expense)
    ensures Compare(config, a, b) == 0 <==> ValueOf(config.key, a) == ValueOf(config.key, b)
  {
    BeforeTrichotomy(config.key, a, b);
  }

  /** `a` may stand before `b` in the sorted output. */
  predicate InOrder(config: SortConfig, a: Expense, b: Expense)
  {
    Compare(config, a, b) <= 0
  }

  /** The comparator is consistent: "may stand before" is transitive, so a sorted order exists. */
  lemma InOrderTransitive(config: SortConfig, a: Expense, b: Expense, c: Expense)
    requires InOrder(config, a, b) && InOrder(config, b, c)
    ensures InOrder(config, a, c)
  {
    var k := config.key;
    BeforeTrichotomy(k, a, b);
    BeforeTrichotomy(k, b, c);
    BeforeAsymmetric(k, a, b);
    BeforeAsymmetric(k, b, a);
    BeforeAsymmetric(k, b, c);
    BeforeAsymmetric(k, c, b);
    BeforeTransitive(k, c, a, b);
    BeforeTransitive(k, a, c, b);
  }

  /** Every record may stand before any record it does not follow. */
  lemma InOrderTotal(config: SortConfig, a: Expense, b: Expense)
    requires !InOrder(config, a, b)
    ensures InOrder(config, b, a)
  {
    CompareAntisymmetric(config, a, b);
  }

  predicate AdjacentSorted(s: seq<Expense>, config: SortConfig)
  {
    forall k :: 0 < k < |s| ==> InOrder(config, s[k - 1], s[k])
  }

  /** What the comparator promises of the rendered rows: no pair is out of order. */
  predicate SortedBy(s: seq<Expense>, config: SortConfig)
  {
    forall i, j :: 0 <= i < j < |s| ==> InOrder(config, s[i], s[j])
  }

  lemma {:induction false} AdjacentSortedIsSorted(s: seq<Expense>, config: SortConfig)
    requires AdjacentSorted(s, config)
    ensures SortedBy(s, config)
    decreases |s|
  {
    if |s| > 1 {
      var p := s[..|s| - 1];
      assert AdjacentSorted(p, config) by {
        forall k | 0 < k < |p| ensures InOrder(config, p[k - 1], p[k]) {
          assert p[k - 1] == s[k - 1] && p[k] == s[k];
        }
      }
      AdjacentSortedIsSorted(p, config);
      forall i, j | 0 <= i < j < |s| ensures InOrder(config, s[i], s[j]) {
        if j < |s| - 1 {
          assert p[i] == s[i] && p[j] == s[j];
        } else if i < j - 1 {
          assert p[i] == s[i] && p[j - 1] == s[j - 1];
          InOrderTransitive(config, s[i], s[j - 1], s[j]);
        }
      }
    }
  }

  method Swap(a: array<Expense>, i: int, j: int)
    requires 0 <= i < a.Length && 0 <= j < a.Length
    modifies a
    ensures a[i] == old(a[j]) && a[j] == old(a[i])
    ensures forall k :: 0 <= k < a.Length && k != i && k != j ==> a[k] == old(a[k])
    ensures multiset(a[..]) == old(multiset(a[..]))
  {
    a[i], a[j] := a[j], a[i];
  }

  /**
   * `Array.prototype.sort` with the comparator above, done as an insertion sort:
   * the array ends up ordered by the comparator and holds the same records.
   */
  method SortInPlace(a: array<Expense>, config: SortConfig)
    modifies a
    ensures AdjacentSorted(a[..], config)
    ensures multiset(a[..]) == old(multiset(a[..]))
  {
    var i := 0;
    while i < a.Length
      invariant 0 <= i <= a.Length
      invariant forall k :: 0 < k < i ==> InOrder(config, a[k - 1], a[k])
      invariant multiset(a[..]) == old(multiset(a[..]))
    {
      var j := i;
      while j > 0 && !InOrder(config, a[j - 1], a[j])
        invariant 0 <= j <= i
        invariant forall k :: 0 < k <= i && k != j ==> InOrder(config, a[k - 1], a[k])
        invariant 0 < j < i ==> InOrder(config, a[j - 1], a[j + 1])
        invariant multiset(a[..]) == old(multiset(a[..]))
      {
        InOrderTotal(config, a[j - 1], a[j]);
        Swap(a, j - 1, j);
        j := j - 1;
      }
      i := i + 1;
    }
  }

  /** `[...list].sort(comparator)`: a sorted copy; the list it is taken from is left as it was. */
  method SortedCopy(s: seq<Expense>, config: SortConfig) returns (r: seq<Expense>)
    ensures SortedBy(r, config)
    ensures multiset(r) == multiset(s)
  {
    var a := new Expense[|s|](k requires 0 <= k < |s| => s[k]);
    assert a[..] == s;
    SortInPlace(a, config);
    r := a[..];
    AdjacentSortedIsSorted(r, config);
  }
}
