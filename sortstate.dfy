/**
 * The tri-state sort protocol of CustomDataTable.sort_column, as a pure
 * transition on the column-to-phase mapping.
 */
module SortState {
  import opened Wrappers
  import opened Rows

  /** UNSORTED [-], ASCENDING [↑] (reverse = True), DESCENDING [↓] (reverse = False). */
  datatype SortingStatus = Unsorted | Ascending | Descending

  type Status = map<string, SortingStatus>

  /** The errors sort_column raises (ValueError in the source). */
  datatype SortError = NoKey | UnknownColumn(key: string)

  /** The table's initial mapping: every column unsorted. */
  function InitialStatus(): (st: Status)
    ensures st.Keys == ColumnSet()
    ensures forall c :: c in st ==> st[c] == Unsorted
  {
    map c | c in Columns :: Unsorted
  }

  /** At most one column has a phase other than UNSORTED. */
  predicate AtMostOneActive(st: Status) {
    forall a, b :: a in st && b in st && st[a] != Unsorted && st[b] != Unsorted ==> a == b
  }

  /** The `reverse` argument sort_column passes to the table sort. */
  function Reverse(phase: SortingStatus): bool
    requires phase != Unsorted
  {
    phase == Ascending
  }

  /** Every column reset to UNSORTED. */
  function ResetAll(st: Status): (r: Status)
    ensures r.Keys == st.Keys
    ensures forall c :: c in r ==> r[c] == Unsorted
  {
    map c | c in st :: Unsorted
  }

  /** The mapping after selecting `key`, or the error sort_column raises. */
  function Select(st: Status, key: Option<string>): (r: Result<Status, SortError>)
    ensures key.None? ==> r == Failure(NoKey)
    ensures key.Some? && key.value !in st ==> r == Failure(UnknownColumn(key.value))
    ensures key.Some? && key.value in st ==> r.Success? && r.value.Keys == st.Keys
  {
    match key
    case None => Failure(NoKey)
    case Some(k) =>
      if k !in st then Failure(UnknownColumn(k))
      else
        match st[k]
        case Unsorted => Success(ResetAll(st)[k := Ascending])
        case Ascending => Success(st[k := Descending])
        case Descending => Success(st[k := Ascending])
  }

  /** Selecting an UNSORTED column makes it the only sorted one, ASCENDING. */
  lemma SelectUnsorted(st: Status, k: string)
    requires k in st && st[k] == Unsorted
    ensures Select(st, Some(k)).Success?
    ensures Select(st, Some(k)).value[k] == Ascending
    ensures forall c :: c in st && c != k ==> Select(st, Some(k)).value[c] == Unsorted
  {
  }

  /** Reselecting the sorted column toggles its direction and touches nothing else. */
  lemma SelectToggles(st: Status, k: string)
    requires k in st && st[k] != Unsorted
    ensures Select(st, Some(k)).Success?
    ensures Select(st, Some(k)).value[k] == (if st[k] == Ascending then Descending else Ascending)
    ensures forall c :: c in st && c != k ==> Select(st, Some(k)).value[c] == st[c]
  {
  }

  /** A selected column is never left UNSORTED. */
  lemma SelectNeverUnsorted(st: Status, k: string)
    requires k in st
    ensures Select(st, Some(k)).Success? && Select(st, Some(k)).value[k] != Unsorted
  {
  }

  /** Every selection keeps at most one column sorted. */
  lemma SelectKeepsOneActive(st: Status, key: Option<string>)
    requires AtMostOneActive(st)
    ensures Select(st, key).Success? ==> AtMostOneActive(Select(st, key).value)
  {
    if key.Some? && key.value in st {
      var k := key.value;
      var r := Select(st, key).value;
      forall a, b | a in r && b in r && r[a] != Unsorted && r[b] != Unsorted ensures a == b {
        if st[k] == Unsorted {
          assert a == k && b == k;
        } else {
          assert st[a] != Unsorted || a == k;
          assert st[b] != Unsorted || b == k;
        }
      }
    }
  }

  /** The state after a sequence of selections; a failed one changes nothing. */
  function SelectAll(st: Status, keys: seq<Option<string>>): Status
  {
    if |keys| == 0 then st
    else
      var r := Select(st, keys[0]);
      SelectAll(if r.Success? then r.value else st, keys[1..])
  }

  /** After any sequence of selections at most one column is sorted. */
  lemma {:induction false} SelectAllKeepsOneActive(st: Status, keys: seq<Option<string>>)
    requires AtMostOneActive(st)
    ensures AtMostOneActive(SelectAll(st, keys))
    ensures SelectAll(st, keys).Keys == st.Keys
  {
    if |keys| > 0 {
      SelectKeepsOneActive(st, keys[0]);
      var r := Select(st, keys[0]);
      SelectAllKeepsOneActive(if r.Success? then r.value else st, keys[1..]);
    }
  }

  /** The other direction. */
  function Toggle(phase: SortingStatus): SortingStatus {
    match phase
    case Unsorted => Unsorted
    case Ascending => Descending
    case Descending => Ascending
  }

  /** Selecting the same column `n` times in a row. */
  function Press(st: Status, k: string, n: nat): Status
    requires k in st
  {
    if n == 0 then st else Press(Select(st, Some(k)).value, k, n - 1)
  }

  /** Presses on an already sorted column alternate its direction. */
  lemma {:induction false} PressSorted(st: Status, k: string, n: nat)
    requires k in st && st[k] != Unsorted
    ensures k in Press(st, k, n)
    ensures Press(st, k, n)[k] == if n % 2 == 0 then st[k] else Toggle(st[k])
    ensures forall c :: c in st && c != k ==> c in Press(st, k, n) && Press(st, k, n)[c] == st[c]
  {
    if n > 0 {
      var next := Select(st, Some(k)).value;
      SelectToggles(st, k);
      PressSorted(next, k, n - 1);
    }
  }

  /**
   * From UNSORTED, selecting a column n >= 1 times leaves it ASCENDING after
   * an odd number of presses and DESCENDING after an even number, with every
   * other column UNSORTED.
   */
  lemma PressFromUnsorted(st: Status, k: string, n: nat)
    requires k in st && st[k] == Unsorted && n >= 1
    ensures k in Press(st, k, n)
    ensures Press(st, k, n)[k] == if n % 2 == 1 then Ascending else Descending
    ensures forall c :: c in st && c != k ==> c in Press(st, k, n) && Press(st, k, n)[c] == Unsorted
  {
    var first := Select(st, Some(k)).value;
    SelectUnsorted(st, k);
    PressSorted(first, k, n - 1);
  }
}
