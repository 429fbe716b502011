/**
 * The per-file line counts reported by cloc, the split of its decoded JSON
 * object into header, summary and files, and the grouping of the files by
 * language and by directory.
 */
module Stats {
  import opened Wrappers
  import opened Dict
  import opened Paths

  /** One file's counts; in a group record `language` holds the group key. */
  datatype FileStats = FileStats(blank: int, comment: int, code: int, language: string)

  /** The three summed counters. */
  datatype Tally = Tally(blank: int, comment: int, code: int) {
    function Plus(t: Tally): Tally {
      Tally(blank + t.blank, comment + t.comment, code + t.code)
    }
    function Minus(t: Tally): Tally {
      Tally(blank - t.blank, comment - t.comment, code - t.code)
    }
  }

  const Zero := Tally(0, 0, 0)

  function TallyOf(f: FileStats): Tally {
    Tally(f.blank, f.comment, f.code)
  }

  /** Sum of the counters over all entries. */
  function Total(d: Dict<FileStats>): Tally {
    if |d| == 0 then Zero else Total(d[..|d| - 1]).Plus(TallyOf(d[|d| - 1].1))
  }

  // ---------------------------------------------------------------------
  // Splitting the decoded result (ClocTUI.execute_cloc)
  // ---------------------------------------------------------------------

  /** The two keys of cloc's JSON object that are not file paths. */
  predicate IsReserved(key: string) {
    key == "header" || key == "SUM"
  }

  /** The entries other than the reserved ones, in their original order. */
  function Unreserved<V>(d: Dict<V>): Dict<V> {
    if |d| == 0 then []
    else
      var e := d[|d| - 1];
      Unreserved(d[..|d| - 1]) + (if IsReserved(e.0) then [] else [e])
  }

  /** Looking up a missing key raises KeyError in the source. */
  datatype ParseError = MissingKey(key: string)

  datatype Parsed<V> = Parsed(header: V, summary: V, files: Dict<V>)

  lemma {:induction false} UnreservedEntries<V>(d: Dict<V>)
    requires DistinctKeys(d)
    ensures DistinctKeys(Unreserved(d))
    ensures Keys(Unreserved(d)) == Keys(d) - {"header", "SUM"}
    ensures forall k :: k in Keys(Unreserved(d)) ==> Get(Unreserved(d), k) == Get(d, k)
  {
    if |d| > 0 {
      var p, e := d[..|d| - 1], d[|d| - 1];
      assert d == p + [e];
      assert DistinctKeys(p);
      UnreservedEntries(p);
      var u := Unreserved(p);
      KeysAppend(p, e);
      assert e.0 !in Keys(p) by {
        assert forall j :: 0 <= j < |p| ==> p[j].0 != d[|d| - 1].0;
      }
      forall k | k in Keys(p) ensures Get(d, k) == Get(p, k) {
        IndexOfAppend(p, e, k);
      }
      IndexOfUnique(d, e.0, |d| - 1);
      if !IsReserved(e.0) {
        KeysAppend(u, e);
        forall k | k in Keys(u) ensures Get(u + [e], k) == Get(u, k) {
          IndexOfAppend(u, e, k);
        }
        IndexOfUnique(u + [e], e.0, |u|);
      } else {
        assert Unreserved(d) == u;
      }
    }
  }

  /**
   * The partition loop of ClocTUI.execute_cloc: reads "header" and "SUM"
   * (failing on the first one missing) and copies every other entry.
   */
  method Partition<V>(result: Dict<V>) returns (r: Result<Parsed<V>, ParseError>)
    requires DistinctKeys(result)
    ensures "header" !in Keys(result) ==> r == Failure(MissingKey("header"))
    ensures "header" in Keys(result) && "SUM" !in Keys(result) ==> r == Failure(MissingKey("SUM"))
    ensures "header" in Keys(result) && "SUM" in Keys(result) ==>
      && r.Success?
      && r.value.header == Get(result, "header")
      && r.value.summary == Get(result, "SUM")
      && r.value.files == Unreserved(result)
      && DistinctKeys(r.value.files)
      && Keys(r.value.files) == Keys(result) - {"header", "SUM"}
      && (forall k :: k in Keys(r.value.files) ==> Get(r.value.files, k) == Get(result, k))
  {
    if "header" !in Keys(result) {
      return Failure(MissingKey("header"));
    }
    var header := Get(result, "header");
    if "SUM" !in Keys(result) {
      return Failure(MissingKey("SUM"));
    }
    var summary := Get(result, "SUM");
    var files: Dict<V> := [];
    var i := 0;
    while i < |result|
      invariant 0 <= i <= |result|
      invariant files == Unreserved(result[..i])
    {
      var (key, value) := result[i];
      assert result[..i + 1] == result[..i] + [result[i]];
      if !IsReserved(key) {
        assert DistinctKeys(result[..i]);
        UnreservedEntries(result[..i]);
        assert key !in Keys(result[..i]) by {
          assert forall j :: 0 <= j < i ==> result[..i][j].0 != result[i].0;
        }
        files := Put(files, key, value);
      }
      i := i + 1;
    }
    assert result[..i] == result;
    UnreservedEntries(result);
    r := Success(Parsed(header, summary, files));
  }

  // ---------------------------------------------------------------------
  // Grouping (CustomDataTable.group_the_data)
  // ---------------------------------------------------------------------

  datatype Grouping = ByLanguage | ByDirectory

  /** The group a file belongs to: its language, or the directory of its path. */
  function GroupKey(g: Grouping, e: (string, FileStats)): string {
    match g
    case ByLanguage => e.1.language
    case ByDirectory => Dirname(e.0)
  }

  function GroupKeys(files: Dict<FileStats>, g: Grouping): set<string> {
    set i | 0 <= i < |files| :: GroupKey(g, files[i])
  }

  /** Sum of the counters over the files that belong to group `k`. */
  function TotalIn(files: Dict<FileStats>, g: Grouping, k: string): Tally {
    if |files| == 0 then Zero
    else
      var e := files[|files| - 1];
      TotalIn(files[..|files| - 1], g, k).Plus(if GroupKey(g, e) == k then TallyOf(e.1) else Zero)
  }

  /** The record group_the_data stores for group `k`. */
  function GroupRecord(k: string, t: Tally): FileStats {
    FileStats(t.blank, t.comment, t.code, k)
  }

  /** The record after `group[...] += data[...]` for the three counters. */
  function AddCounts(group: FileStats, f: FileStats): (r: FileStats)
    ensures TallyOf(r) == TallyOf(group).Plus(TallyOf(f)) && r.language == group.language
  {
    FileStats(group.blank + f.blank, group.comment + f.comment, group.code + f.code, group.language)
  }

  /** Every record of `groups` holds the sums over the files of its group. */
  ghost predicate RecordsMatch(groups: Dict<FileStats>, files: Dict<FileStats>, g: Grouping) {
    forall k :: k in Keys(groups) ==> Get(groups, k) == GroupRecord(k, TotalIn(files, g, k))
  }

  /**
   * `groups` holds one record per key in `keys`, each with the sums over the
   * files of that group, and the counters of all records sum to those of all
   * files.
   */
  ghost predicate Groups(groups: Dict<FileStats>, files: Dict<FileStats>, g: Grouping, keys: set<string>) {
    && DistinctKeys(groups)
    && Keys(groups) == keys
    && RecordsMatch(groups, files, g)
    && Total(groups) == Total(files)
  }

  /** `groups` is the grouping of `files`: exactly one record per group key. */
  ghost predicate GroupedBy(groups: Dict<FileStats>, files: Dict<FileStats>, g: Grouping) {
    Groups(groups, files, g, GroupKeys(files, g))
  }

  /** Replacing one record correctly keeps all records correct. */
  lemma PutRecord(groups: Dict<FileStats>, files: Dict<FileStats>, files': Dict<FileStats>, g: Grouping, k: string, v: FileStats)
    requires RecordsMatch(groups, files, g)
    requires forall j :: j in Keys(groups) && j != k ==> TotalIn(files', g, j) == TotalIn(files, g, j)
    requires v == GroupRecord(k, TotalIn(files', g, k))
    ensures RecordsMatch(Put(groups, k, v), files', g)
  {
    var r := Put(groups, k, v);
    forall j | j in Keys(r) ensures Get(r, j) == GroupRecord(j, TotalIn(files', g, j)) {
      if j != k {
        assert j in Keys(groups);
      }
    }
  }

  lemma {:induction false} TotalUpdate(d: Dict<FileStats>, i: nat, v: FileStats)
    requires i < |d|
    ensures Total(d[i := (d[i].0, v)]) == Total(d).Minus(TallyOf(d[i].1)).Plus(TallyOf(v))
  {
    var r := d[i := (d[i].0, v)];
    if i == |d| - 1 {
      assert r[..|r| - 1] == d[..|d| - 1];
    } else {
      assert r[..|r| - 1] == d[..|d| - 1][i := (d[i].0, v)];
      TotalUpdate(d[..|d| - 1], i, v);
    }
  }

  lemma TotalPut(d: Dict<FileStats>, k: string, v: FileStats)
    ensures k in Keys(d) ==> Total(Put(d, k, v)) == Total(d).Minus(TallyOf(Get(d, k))).Plus(TallyOf(v))
    ensures k !in Keys(d) ==> Total(Put(d, k, v)) == Total(d).Plus(TallyOf(v))
  {
    if k in Keys(d) {
      TotalUpdate(d, IndexOf(d, k), v);
    } else {
      assert (d + [(k, v)])[..|d|] == d;
    }
  }

  lemma GroupKeysAppend(files: Dict<FileStats>, g: Grouping, e: (string, FileStats))
    ensures GroupKeys(files + [e], g) == GroupKeys(files, g) + {GroupKey(g, e)}
  {
    var r := files + [e];
    assert r[|files|] == e;
    forall x | x in GroupKeys(files, g) ensures x in GroupKeys(r, g) {
      var j :| 0 <= j < |files| && GroupKey(g, files[j]) == x;
      assert r[j] == files[j];
    }
  }

  lemma TotalAppend(files: Dict<FileStats>, g: Grouping, e: (string, FileStats))
    ensures Total(files + [e]) == Total(files).Plus(TallyOf(e.1))
    ensures TotalIn(files + [e], g, GroupKey(g, e)) == TotalIn(files, g, GroupKey(g, e)).Plus(TallyOf(e.1))
    ensures forall j :: j != GroupKey(g, e) ==> TotalIn(files + [e], g, j) == TotalIn(files, g, j)
  {
    assert (files + [e])[..|files|] == files;
    forall j | j != GroupKey(g, e) ensures TotalIn(files + [e], g, j) == TotalIn(files, g, j) {
      PlusZero(TotalIn(files, g, j));
    }
  }

  lemma PlusZero(t: Tally)
    ensures t.Plus(Zero) == t
  {
  }

  lemma {:induction false} TotalInOutside(files: Dict<FileStats>, g: Grouping, k: string)
    requires k !in GroupKeys(files, g)
    ensures TotalIn(files, g, k) == Zero
  {
    if |files| > 0 {
      var p := files[..|files| - 1];
      assert GroupKey(g, files[|files| - 1]) != k;
      assert k !in GroupKeys(p, g) by {
        assert forall j :: 0 <= j < |p| ==> p[j] == files[j];
      }
      TotalInOutside(p, g, k);
    }
  }

  /** A new group starts from the zero record; this keeps every record's sums right. */
  lemma AddGroup(groups: Dict<FileStats>, files: Dict<FileStats>, g: Grouping, keys: set<string>, k: string)
    requires Groups(groups, files, g, keys)
    requires k !in keys && k !in GroupKeys(files, g)
    ensures Groups(Put(groups, k, FileStats(0, 0, 0, k)), files, g, keys + {k})
  {
    TotalInOutside(files, g, k);
    TotalPut(groups, k, FileStats(0, 0, 0, k));
    PutRecord(groups, files, files, g, k, FileStats(0, 0, 0, k));
  }

  /** Adding a file's counters to its group's record accounts for that file. */
  lemma AddToGroup(groups: Dict<FileStats>, files: Dict<FileStats>, g: Grouping, keys: set<string>, e: (string, FileStats))
    requires Groups(groups, files, g, keys)
    requires GroupKey(g, e) in keys
    ensures Groups(Put(groups, GroupKey(g, e), AddCounts(Get(groups, GroupKey(g, e)), e.1)), files + [e], g, keys)
  {
    AddToGroupTotal(groups, files, GroupKey(g, e), e);
    AddToGroupRecords(groups, files, g, e);
  }

  lemma AddToGroupTotal(groups: Dict<FileStats>, files: Dict<FileStats>, k: string, e: (string, FileStats))
    requires Total(groups) == Total(files) && k in Keys(groups)
    ensures Total(Put(groups, k, AddCounts(Get(groups, k), e.1))) == Total(files + [e])
  {
    assert (files + [e])[..|files|] == files;
    TotalPut(groups, k, AddCounts(Get(groups, k), e.1));
  }

  lemma AddToGroupRecords(groups: Dict<FileStats>, files: Dict<FileStats>, g: Grouping, e: (string, FileStats))
    requires RecordsMatch(groups, files, g) && GroupKey(g, e) in Keys(groups)
    ensures RecordsMatch(Put(groups, GroupKey(g, e), AddCounts(Get(groups, GroupKey(g, e)), e.1)), files + [e], g)
  {
    var k := GroupKey(g, e);
    AddedRecord(groups, files, g, e, k);
    TotalAppend(files, g, e);
    PutRecord(groups, files, files + [e], g, k, AddCounts(Get(groups, k), e.1));
  }

  lemma AddedRecord(groups: Dict<FileStats>, files: Dict<FileStats>, g: Grouping, e: (string, FileStats), k: string)
    requires RecordsMatch(groups, files, g) && k == GroupKey(g, e) && k in Keys(groups)
    ensures AddCounts(Get(groups, k), e.1) == GroupRecord(k, TotalIn(files + [e], g, k))
  {
    assert Get(groups, k) == GroupRecord(k, TotalIn(files, g, k));
    TotalAppend(files, g, e);
  }

  /**
   * One step of the source loop for one grouping: create the zero record if
   * the key is new, then add the file's counters to that key's record.
   */
  function Accumulate(groups: Dict<FileStats>, k: string, data: FileStats): Dict<FileStats> {
    var created := if k !in Keys(groups) then Put(groups, k, FileStats(0, 0, 0, k)) else groups;
    Put(created, k, AddCounts(Get(created, k), data))
  }

  /** One step of the loop turns the grouping of `files` into that of `files + [e]`. */
  lemma GroupStep(groups: Dict<FileStats>, files: Dict<FileStats>, g: Grouping, e: (string, FileStats))
    requires GroupedBy(groups, files, g)
    ensures GroupedBy(Accumulate(groups, GroupKey(g, e), e.1), files + [e], g)
  {
    var k := GroupKey(g, e);
    GroupKeysAppend(files, g, e);
    var keys := GroupKeys(files + [e], g);
    var created := if k !in Keys(groups) then Put(groups, k, FileStats(0, 0, 0, k)) else groups;
    assert Groups(created, files, g, keys) by {
      if k !in Keys(groups) {
        AddGroup(groups, files, g, GroupKeys(files, g), k);
      }
    }
    AddToGroup(created, files, g, keys, e);
  }

  /**
   * The loop of CustomDataTable.group_the_data: one pass over the files building the
   * language groups and the directory groups side by side.
   */
  method GroupFiles(fileData: Dict<FileStats>) returns (filesByLanguage: Dict<FileStats>, filesByDir: Dict<FileStats>)
    ensures GroupedBy(filesByLanguage, fileData, ByLanguage)
    ensures GroupedBy(filesByDir, fileData, ByDirectory)
  {
    filesByLanguage, filesByDir := [], [];
    var i := 0;
    while i < |fileData|
      invariant 0 <= i <= |fileData|
      invariant GroupedBy(filesByLanguage, fileData[..i], ByLanguage)
      invariant GroupedBy(filesByDir, fileData[..i], ByDirectory)
    {
      assert fileData[..i + 1] == fileData[..i] + [fileData[i]];
      var (key, data) := fileData[i];
      GroupStep(filesByLanguage, fileData[..i], ByLanguage, fileData[i]);
      GroupStep(filesByDir, fileData[..i], ByDirectory, fileData[i]);
      filesByLanguage := Accumulate(filesByLanguage, data.language, data);
      filesByDir := Accumulate(filesByDir, Dirname(key), data);
      i := i + 1;
    }
    assert fileData[..i] == fileData;
  }
}
