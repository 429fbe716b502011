/**
 * The table rows built by CustomDataTable.update_table and the ordering the
 * table's sort applies to them: Python's stable `sorted(rows, key=column,
 * reverse=flag)` on the raw cell values (numbers numerically, text by code
 * point).
 */
module Rows {
  import opened Dict
  import opened Stats

  /** One displayed row: the key (a path or a group name) and the counters. */
  datatype Row = Row(path: string, language: string, blank: int, comment: int, code: int, total: int)

  /** A raw cell value. */
  datatype Cell = Text(s: string) | Number(n: int)

  /** The six column keys, in display order. */
  const Columns: seq<string> := ["path", "language", "blank", "comment", "code", "total"]

  function ColumnSet(): set<string> {
    set c | c in Columns
  }

  /** update_table's row for one entry: total is blank + comment + code. */
  function RowOf(key: string, data: FileStats): (r: Row)
    ensures r.total == r.blank + r.comment + r.code
    ensures r.path == key && r.language == data.language
    ensures r.blank == data.blank && r.comment == data.comment && r.code == data.code
  {
    Row(key, data.language, data.blank, data.comment, data.code, data.blank + data.comment + data.code)
  }

  /** The rows of a mapping, one per entry, in the mapping's order. */
  function RowsOf(d: Dict<FileStats>): (rows: seq<Row>)
    ensures |rows| == |d|
    ensures forall i :: 0 <= i < |d| ==> rows[i] == RowOf(d[i].0, d[i].1)
  {
    if |d| == 0 then [] else RowsOf(d[..|d| - 1]) + [RowOf(d[|d| - 1].0, d[|d| - 1].1)]
  }

  /** The value a column contributes to the sort key of a row. */
  function KeyOf(r: Row, column: string): Cell
    requires column in Columns
  {
    match column
    case "path" => Text(r.path)
    case "language" => Text(r.language)
    case "blank" => Number(r.blank)
    case "comment" => Number(r.comment)
    case "code" => Number(r.code)
    case _ => Number(r.total)
  }

  /** Python's `<=` on strings: lexicographic by code point. */
  predicate TextLeq(a: string, b: string) {
    |a| == 0 || (|b| > 0 && (a[0] < b[0] || (a[0] == b[0] && TextLeq(a[1..], b[1..]))))
  }

  /** `<=` on cells; a column never mixes text and numbers. */
  predicate CellLeq(a: Cell, b: Cell) {
    match (a, b)
    case (Number(x), Number(y)) => x <= y
    case (Text(x), Text(y)) => TextLeq(x, y)
    case (Number(_), Text(_)) => true
    case (Text(_), Number(_)) => false
  }

  lemma {:induction false} TextLeqTotal(a: string, b: string)
    ensures TextLeq(a, b) || TextLeq(b, a)
  {
    if |a| > 0 && |b| > 0 && a[0] == b[0] {
      TextLeqTotal(a[1..], b[1..]);
    }
  }

  lemma {:induction false} TextLeqTransitive(a: string, b: string, c: string)
    requires TextLeq(a, b) && TextLeq(b, c)
    ensures TextLeq(a, c)
  {
    if |a| > 0 && a[0] == b[0] && b[0] == c[0] {
      TextLeqTransitive(a[1..], b[1..], c[1..]);
    }
  }

  lemma {:induction false} TextLeqReflexive(a: string)
    ensures TextLeq(a, a)
  {
    if |a| > 0 {
      TextLeqReflexive(a[1..]);
    }
  }

  lemma CellLeqTotal(a: Cell, b: Cell)
    ensures CellLeq(a, b) || CellLeq(b, a)
  {
    if a.Text? && b.Text? {
      TextLeqTotal(a.s, b.s);
    }
  }

  lemma CellLeqTransitive(a: Cell, b: Cell, c: Cell)
    requires CellLeq(a, b) && CellLeq(b, c)
    ensures CellLeq(a, c)
  {
    if a.Text? && b.Text? && c.Text? {
      TextLeqTransitive(a.s, b.s, c.s);
    }
  }

  lemma CellLeqReflexive(a: Cell)
    ensures CellLeq(a, a)
  {
    if a.Text? {
      TextLeqReflexive(a.s);
    }
  }

  /**
   * `a` may stand before `b` in a sort by `column`: with `reverse` the larger
   * value comes first, without it the smaller.
   */
  predicate InOrder(a: Row, b: Row, column: string, reverse: bool)
    requires column in Columns
  {
    if reverse then CellLeq(KeyOf(b, column), KeyOf(a, column)) else CellLeq(KeyOf(a, column), KeyOf(b, column))
  }

  ghost predicate SortedBy(rows: seq<Row>, column: string, reverse: bool)
    requires column in Columns
  {
    forall i, j :: 0 <= i < j < |rows| ==> InOrder(rows[i], rows[j], column, reverse)
  }

  /** The rows whose `column` value is `v`, in their order. */
  function WithKey(rows: seq<Row>, column: string, v: Cell): seq<Row>
    requires column in Columns
  {
    if |rows| == 0 then []
    else (if KeyOf(rows[0], column) == v then [rows[0]] else []) + WithKey(rows[1..], column, v)
  }

  /** Insert `x` before the first row it may precede. */
  function Insert(x: Row, rows: seq<Row>, column: string, reverse: bool): seq<Row>
    requires column in Columns
  {
    if |rows| == 0 then [x]
    else if InOrder(x, rows[0], column, reverse) then [x] + rows
    else [rows[0]] + Insert(x, rows[1..], column, reverse)
  }

  /** `sorted(rows, key=column, reverse=reverse)`. */
  function SortRows(rows: seq<Row>, column: string, reverse: bool): seq<Row>
    requires column in Columns
  {
    if |rows| == 0 then [] else Insert(rows[0], SortRows(rows[1..], column, reverse), column, reverse)
  }

  lemma {:induction false} InsertPermutes(x: Row, rows: seq<Row>, column: string, reverse: bool)
    requires column in Columns
    ensures multiset(Insert(x, rows, column, reverse)) == multiset(rows) + multiset{x}
  {
    if |rows| > 0 && !InOrder(x, rows[0], column, reverse) {
      InsertPermutes(x, rows[1..], column, reverse);
      assert rows == [rows[0]] + rows[1..];
    }
  }

  lemma {:induction false} InsertSorted(x: Row, rows: seq<Row>, column: string, reverse: bool)
    requires column in Columns
    requires SortedBy(rows, column, reverse)
    ensures SortedBy(Insert(x, rows, column, reverse), column, reverse)
  {
    var a, b := KeyOf(x, column), if |rows| > 0 then KeyOf(rows[0], column) else KeyOf(x, column);
    if |rows| == 0 {
    } else if InOrder(x, rows[0], column, reverse) {
      var r := [x] + rows;
      forall j | 1 <= j < |r| ensures InOrder(x, r[j], column, reverse) {
        if j > 1 {
          assert InOrder(rows[0], rows[j - 1], column, reverse);
          if reverse {
            CellLeqTransitive(KeyOf(rows[j - 1], column), b, a);
          } else {
            CellLeqTransitive(a, b, KeyOf(rows[j - 1], column));
          }
        }
      }
    } else {
      CellLeqTotal(a, b);
      InsertSorted(x, rows[1..], column, reverse);
      var t := Insert(x, rows[1..], column, reverse);
      InsertPermutes(x, rows[1..], column, reverse);
      forall j | 0 <= j < |t| ensures InOrder(rows[0], t[j], column, reverse) {
        assert t[j] in multiset(t);
        assert t[j] == x || t[j] in multiset(rows[1..]);
        if t[j] != x {
          var m :| 0 <= m < |rows[1..]| && rows[1..][m] == t[j];
          assert InOrder(rows[0], rows[m + 1], column, reverse);
        }
      }
    }
  }

  /** Inserting keeps the relative order of each group of equal values. */
  lemma {:induction false} InsertWithKey(x: Row, rows: seq<Row>, column: string, reverse: bool, v: Cell)
    requires column in Columns
    ensures WithKey(Insert(x, rows, column, reverse), column, v)
         == (if KeyOf(x, column) == v then [x] else []) + WithKey(rows, column, v)
  {
    if |rows| > 0 && !InOrder(x, rows[0], column, reverse) {
      CellLeqReflexive(KeyOf(x, column));
      assert KeyOf(rows[0], column) != KeyOf(x, column);
      InsertWithKey(x, rows[1..], column, reverse, v);
      WithKeyCons(rows[0], Insert(x, rows[1..], column, reverse), column, v);
      WithKeyCons(rows[0], rows[1..], column, v);
      assert [rows[0]] + rows[1..] == rows;
    } else if |rows| > 0 {
      WithKeyCons(x, rows, column, v);
    }
  }

  lemma WithKeyCons(a: Row, rest: seq<Row>, column: string, v: Cell)
    requires column in Columns
    ensures WithKey([a] + rest, column, v) == (if KeyOf(a, column) == v then [a] else []) + WithKey(rest, column, v)
  {
    assert ([a] + rest)[1..] == rest;
  }

  /**
   * The sort is a permutation, ordered by the column in the requested
   * direction, and stable: rows with equal values keep their order.
   */
  lemma {:induction false} SortRowsCorrect(rows: seq<Row>, column: string, reverse: bool)
    requires column in Columns
    ensures multiset(SortRows(rows, column, reverse)) == multiset(rows)
    ensures SortedBy(SortRows(rows, column, reverse), column, reverse)
    ensures forall v :: WithKey(SortRows(rows, column, reverse), column, v) == WithKey(rows, column, v)
  {
    if |rows| > 0 {
      var t := SortRows(rows[1..], column, reverse);
      SortRowsCorrect(rows[1..], column, reverse);
      InsertPermutes(rows[0], t, column, reverse);
      InsertSorted(rows[0], t, column, reverse);
      assert rows == [rows[0]] + rows[1..];
      forall v ensures WithKey(SortRows(rows, column, reverse), column, v) == WithKey(rows, column, v) {
        InsertWithKey(rows[0], t, column, reverse, v);
      }
    }
  }

  /** Sorting with reverse puts a row with the largest value first. */
  lemma ReverseSortLargestFirst(rows: seq<Row>, column: string, k: nat)
    requires column in Columns
    requires k < |rows|
    ensures |SortRows(rows, column, true)| == |rows|
    ensures CellLeq(KeyOf(rows[k], column), KeyOf(SortRows(rows, column, true)[0], column))
  {
    SortRowsCorrect(rows, column, true);
    var s := SortRows(rows, column, true);
    assert |s| == |multiset(s)| == |rows|;
    assert rows[k] in multiset(s);
    var m :| 0 <= m < |s| && s[m] == rows[k];
    if m > 0 {
      assert InOrder(s[0], s[m], column, true);
    } else {
      CellLeqReflexive(KeyOf(s[0], column));
    }
  }
}
