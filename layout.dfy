/**
 * Column widths of the table and the resize rule of CustomDataTable.on_resize:
 * the path column takes whatever width the other columns and the cell
 * padding leave, but never less than its minimum.
 */
module Layout {

  /** CustomDataTable.COL_SIZES, in declaration order. */
  const ColSizes: seq<(string, int)> := [
    ("path", 15), ("language", 14), ("blank", 7), ("comment", 9), ("code", 7), ("total", 7)
  ]

  /** `sizes[name]`, or 0 for a name it does not hold. */
  function SizeOf(sizes: seq<(string, int)>, name: string): int {
    if |sizes| == 0 then 0 else if sizes[0].0 == name then sizes[0].1 else SizeOf(sizes[1..], name)
  }

  /** The minimum width of the path column, COL_SIZES["path"]. */
  const PathMinimum: int := SizeOf(ColSizes, "path")

  function SumSizes(sizes: seq<(string, int)>): int {
    if |sizes| == 0 then 0 else sizes[0].1 + SumSizes(sizes[1..])
  }

  /** `sum(COL_SIZES.values()) - COL_SIZES["path"]`. */
  function OtherColsTotal(): (r: int)
    ensures r == 44
  {
    SumSizes(ColSizes) - PathMinimum
  }

  /** The path column width for a table `width` cells wide. */
  function FirstColumnWidth(width: int, cellPadding: int, columnCount: int): (r: int)
    ensures r >= PathMinimum
    ensures r >= width - OtherColsTotal() - cellPadding * 2 * columnCount
    ensures r == PathMinimum || r == width - OtherColsTotal() - cellPadding * 2 * columnCount
  {
    var available := width - OtherColsTotal() - cellPadding * 2 * columnCount;
    if available < PathMinimum then PathMinimum else available
  }

  /** The size posted in UpdateSummarySize for the summary bar's first column. */
  function SummarySize(firstColWidth: int): (r: int)
    ensures r - firstColWidth == 3
  {
    firstColWidth + 3
  }

  lemma PathMinimumValue()
    ensures PathMinimum == 15
  {
  }

  /** A wider table never gets a narrower path column. */
  lemma WidthMonotone(w1: int, w2: int, cellPadding: int, columnCount: int)
    requires w1 <= w2
    ensures FirstColumnWidth(w1, cellPadding, columnCount) <= FirstColumnWidth(w2, cellPadding, columnCount)
  {
  }

  /** When the others leave less than the minimum, the column is clamped to it. */
  lemma WidthClamped(width: int, cellPadding: int, columnCount: int)
    requires width - 44 - cellPadding * 2 * columnCount < 15
    ensures FirstColumnWidth(width, cellPadding, columnCount) == 15
    ensures SummarySize(FirstColumnWidth(width, cellPadding, columnCount)) == 18
  {
  }

  /** With room to spare the column takes all of it. */
  lemma WidthFills(width: int, cellPadding: int, columnCount: int)
    requires width - 44 - cellPadding * 2 * columnCount >= 15
    ensures FirstColumnWidth(width, cellPadding, columnCount) == width - 44 - cellPadding * 2 * columnCount
  {
  }
}
