/**
 * CustomDataTable: the table widget's own state (its data, the two
 * groupings, the displayed rows, the per-column sort phases and the path
 * column's width) and the handlers that change it.
 */
module Table {
  import opened Wrappers
  import opened Dict
  import opened Stats
  import opened Rows
  import opened SortState
  import opened Layout

  class CustomDataTable {
    var fileData: Dict<FileStats>
    var filesByLanguage: Dict<FileStats>
    var filesByDir: Dict<FileStats>
    /** The rows in the order they were added: the order DataTable.sort starts from. */
    var added: seq<Row>
    /** The rows in display order. */
    var rows: seq<Row>
    var sortStatus: Status
    var pathWidth: int
    /** DataTable.cell_padding: blank cells on each side of every column. */
    const cellPadding: int

    /** One phase per column, and at most one column sorted. */
    ghost predicate Valid()
      reads this
    {
      sortStatus.Keys == ColumnSet() && AtMostOneActive(sortStatus)
    }

    constructor(fileData: Dict<FileStats>, cellPadding: int)
      ensures Valid()
      ensures this.fileData == fileData && this.cellPadding == cellPadding
      ensures filesByLanguage == [] && filesByDir == [] && added == [] && rows == []
      ensures sortStatus == InitialStatus()
      ensures pathWidth == PathMinimum
    {
      this.fileData := fileData;
      this.cellPadding := cellPadding;
      filesByLanguage, filesByDir := [], [];
      added, rows := [], [];
      sortStatus := InitialStatus();
      pathWidth := PathMinimum;
    }

    /**
     * sort_column: a missing or unknown key fails and changes nothing;
     * otherwise the phases move by Select and the rows, taken in the order
     * they were added, are sorted by the column, reverse = True for
     * ASCENDING and False for DESCENDING. Rows with equal values therefore
     * keep their insertion order, whatever the previous sort was.
     */
    method SortColumn(key: Option<string>) returns (r: Result<(), SortError>)
      requires Valid()
      modifies this`sortStatus, this`rows
      ensures Valid()
      ensures Select(old(sortStatus), key).Failure? ==>
        && r == Failure(Select(old(sortStatus), key).error)
        && sortStatus == old(sortStatus) && rows == old(rows)
      ensures Select(old(sortStatus), key).Success? ==>
        && r.Success?
        && sortStatus == Select(old(sortStatus), key).value
        && key.value in ColumnSet() && sortStatus[key.value] != Unsorted
        && rows == SortRows(added, key.value, Reverse(sortStatus[key.value]))
    {
      if key.None? {
        return Failure(NoKey);
      }
      var value := key.value;
      if value !in sortStatus {
        return Failure(UnknownColumn(value));
      }
      SelectKeepsOneActive(sortStatus, key);
      if sortStatus[value] == Unsorted {
        // The user is switching columns: reset every column first.
        ghost var before := sortStatus;
        var keys := sortStatus.Keys;
        while keys != {}
          invariant rows == old(rows) && added == old(added)
          invariant sortStatus.Keys == before.Keys && keys <= before.Keys
          invariant forall c :: c in sortStatus && c !in keys ==> sortStatus[c] == Unsorted
          invariant forall c :: c in keys ==> sortStatus[c] == before[c]
          decreases keys
        {
          var c :| c in keys;
          sortStatus := sortStatus[c := Unsorted];
          keys := keys - {c};
        }
        assert sortStatus == ResetAll(before);
        sortStatus := sortStatus[value := Ascending];
        rows := SortRows(added, value, true);
      } else if sortStatus[value] == Ascending {
        sortStatus := sortStatus[value := Descending];
        rows := SortRows(added, value, false);
      } else {
        sortStatus := sortStatus[value := Ascending];
        rows := SortRows(added, value, true);
      }
      r := Success(());
    }

    /**
     * update_table, followed by what its TableWorkerFinished message
     * triggers: the rows are rebuilt from `data` and the table is sorted
     * by total through sort_column('total').
     */
    method UpdateTable(data: Dict<FileStats>)
      requires Valid()
      modifies this`sortStatus, this`rows, this`added
      ensures Valid()
      ensures added == RowsOf(data)
      ensures Select(old(sortStatus), Some("total")).Success?
      ensures sortStatus == Select(old(sortStatus), Some("total")).value
      ensures sortStatus["total"] != Unsorted
      ensures rows == SortRows(RowsOf(data), "total", Reverse(sortStatus["total"]))
    {
      added, rows := [], [];
      var i := 0;
      while i < |data|
        invariant 0 <= i <= |data|
        invariant added == RowsOf(data[..i]) && rows == added
        invariant sortStatus == old(sortStatus)
      {
        assert data[..i + 1][..i] == data[..i];
        var (key, stats) := data[i];
        added := added + [RowOf(key, stats)];
        rows := rows + [RowOf(key, stats)];
        i := i + 1;
      }
      assert data[..i] == data;
      assert "total" in ColumnSet();
      var _ := SortColumn(Some("total"));
    }

    /** group_the_data: stores the two groupings of `data`. */
    method GroupTheData(data: Dict<FileStats>)
      modifies this`filesByLanguage, this`filesByDir
      ensures GroupedBy(filesByLanguage, data, ByLanguage)
      ensures GroupedBy(filesByDir, data, ByDirectory)
    {
      filesByLanguage, filesByDir := GroupFiles(data);
    }

    /** on_mount: show the files, then compute the groupings. */
    method OnMount()
      requires Valid()
      modifies this`sortStatus, this`rows, this`added, this`filesByLanguage, this`filesByDir
      ensures Valid()
      ensures sortStatus == Select(old(sortStatus), Some("total")).value
      ensures added == RowsOf(fileData)
      ensures rows == SortRows(RowsOf(fileData), "total", Reverse(sortStatus["total"]))
      ensures GroupedBy(filesByLanguage, fileData, ByLanguage)
      ensures GroupedBy(filesByDir, fileData, ByDirectory)
    {
      UpdateTable(fileData);
      GroupTheData(fileData);
    }

    method NoGroup()
      requires Valid()
      modifies this`sortStatus, this`rows, this`added
      ensures Valid()
      ensures sortStatus == Select(old(sortStatus), Some("total")).value
      ensures added == RowsOf(fileData)
      ensures rows == SortRows(RowsOf(fileData), "total", Reverse(sortStatus["total"]))
    {
      UpdateTable(fileData);
    }

    method GroupByLang()
      requires Valid()
      modifies this`sortStatus, this`rows, this`added
      ensures Valid()
      ensures sortStatus == Select(old(sortStatus), Some("total")).value
      ensures added == RowsOf(filesByLanguage)
      ensures rows == SortRows(RowsOf(filesByLanguage), "total", Reverse(sortStatus["total"]))
    {
      UpdateTable(filesByLanguage);
    }

    method GroupByDir()
      requires Valid()
      modifies this`sortStatus, this`rows, this`added
      ensures Valid()
      ensures sortStatus == Select(old(sortStatus), Some("total")).value
      ensures added == RowsOf(filesByDir)
      ensures rows == SortRows(RowsOf(filesByDir), "total", Reverse(sortStatus["total"]))
    {
      UpdateTable(filesByDir);
    }

    /**
     * on_resize for a table `width` cells wide: sets the path column's width
     * and returns the size posted in UpdateSummarySize.
     */
    method OnResize(width: int) returns (summarySize: int)
      modifies this`pathWidth
      ensures pathWidth == FirstColumnWidth(width, cellPadding, |Columns|)
      ensures summarySize == pathWidth + 3
    {
      var totalCellPadding := (cellPadding * 2) * |Columns|;
      var firstColWidth := width - OtherColsTotal() - totalCellPadding;
      if firstColWidth < PathMinimum {
        firstColWidth := PathMinimum;
      }
      pathWidth := firstColWidth;
      summarySize := SummarySize(firstColWidth);
    }
  }

  /**
   * Mounting the table sorts by total ASCENDING (largest first); switching
   * to the language grouping reloads the table, and the reload's
   * sort_column('total') finds total already ASCENDING and turns it
   * DESCENDING (smallest first). Pressing a column key afterwards sorts the
   * language groups, in the order they were added, by that column, largest
   * first.
   */
  method MountThenGroupByLanguage(fileData: Dict<FileStats>, column: string)
    returns (onMount: SortingStatus, afterRegroup: SortingStatus, shown: seq<Row>)
    requires column in Columns && column != "total"
    ensures onMount == Ascending && afterRegroup == Descending
    ensures exists groups: Dict<FileStats> ::
      GroupedBy(groups, fileData, ByLanguage) && shown == SortRows(RowsOf(groups), column, true)
  {
    var table := new CustomDataTable(fileData, 1);
    table.OnMount();
    onMount := table.sortStatus["total"];
    table.GroupByLang();
    afterRegroup := table.sortStatus["total"];
    assert column in ColumnSet();
    var _ := table.SortColumn(Some(column));
    shown := table.rows;
  }
}
