# cloctui core, modelled in Dafny

cloctui is a terminal front end for the `cloc` line counter. It builds a
`cloc --by-file --json` command line and runs it. It decodes the JSON object
cloc prints and splits it into the header, the `SUM` record and one record
per file. It then shows the files in a sortable six-column table (path,
language, blank, comment, code, total) and can regroup the rows by language
or by directory.

This project models the logic of `src/cloctui/main.py`. Each module follows
one part of it:

- `Command` (command.dfy) covers the `CLOC` builder class, which appends to
  its flag, option and argument lists. It also covers the `" ".join` that
  builds the command line, the classification of a failing exit code into a
  `CLOCException`, and the fixed command line of a scan.
- `App` (app.dfy) covers `ClocTUI.execute_cloc`. It builds the command, runs
  it, decodes the output and splits the result.
- `Stats` (stats.dfy) covers the per-file records and the partition of the
  decoded result. It also covers the loop of `group_the_data`, which sums the
  counters per language and per directory.
- `Rows` (rows.dfy) covers the rows that `update_table` builds, with
  `total = blank + comment + code`. It also covers the table's sort, which is
  a stable sort by one column with a `reverse` flag.
- `SortState` (sortstate.dfy) covers the three-phase sort protocol of
  `sort_column` as a pure transition on the column-to-phase map.
- `Layout` (layout.dfy) covers `COL_SIZES`, `other_cols_total` and the
  `on_resize` width rule.
- `Table` (table.dfy) covers `CustomDataTable`, a class whose fields are
  updated in place. Its fields are the data, the two groupings, the rows, the
  sort phases and the path width. Its methods are `sort_column` (with its
  reset loop), `update_table` followed by the reload's `sort_column('total')`,
  `group_the_data`, `on_mount`, the three regrouping handlers and `on_resize`.
- `Text`, `Paths`, `Dict` and `Wrappers` are small supporting modules:
  - `Text` has `str.split(" ")`, `" ".join` and `str(int)` with its inverse.
  - `Paths` has `os.path.dirname`.
  - `Dict` models a Python dict as a sequence of key/value pairs in
    insertion order.
  - `Wrappers` has `Option` and `Result`.

Process execution and JSON decoding are parameters of the model.
`Execute` takes `run`, which stands for `subprocess.run`. `ExecuteCloc`
takes `decode`, which stands for `json.loads`.

Some of what the code does may not be what a reader expects. The model
follows the code in each case:

- On resize the path column always gets `max(15, W - 44 - 2·p·n)`. It is
  not fitted to the widest path.
- The grouped views keep all six columns. The group key appears in the path
  column and again in the language column.
- A result without `header` or `SUM` fails on the missing key, which raises
  `KeyError` in the source (`MissingKey` in the model). Nothing else is
  validated: the values are cast without checks.
- `sort_status` belongs to the class, not to each instance.
- Every reload (mount, no grouping, by language, by directory) ends in
  `sort_column('total')`. This selects total again rather than re-applying
  the sort that was active. When total was already sorted, the reload flips
  its direction: the first regrouping after mount shows the smallest totals
  first (`Table.MountThenGroupByLanguage`). When another column was sorted,
  the reload resets it and sorts by total, largest first.
- The table sort always starts from the order the rows were added. Rows with
  equal values therefore come in insertion order, whatever the previous sort
  left on screen.

## Model

| member | source | states |
|---|---|---|
| Command.Cloc.constructor | src/cloctui/main.py:71-76 | base command `cloc`, empty flag/option/argument lists, working directory = the given current directory |
| Command.Cloc.AddOption | src/cloctui/main.py:78-86 | appends exactly `option + " " + str(value)` to the options, changes nothing else, returns the builder itself |
| Command.Cloc.AddFlag | src/cloctui/main.py:88-95 | appends the flag to the flags only, returns the builder itself |
| Command.Cloc.AddArgument | src/cloctui/main.py:97-104 | appends the argument to the arguments only, returns the builder itself |
| Command.Cloc.SetWorkingDirectory | src/cloctui/main.py:106-113 | replaces the working directory only, returns the builder itself |
| Command.Cloc.Build | src/cloctui/main.py:115-122 | the words of the command line are those of the base command, then every flag, every option and every argument, each group in insertion order; splitting the line and re-joining gives it back |
| Text.Join | src/cloctui/main.py:122 | `" ".join`: empty for no parts, otherwise the parts' lengths plus one separator between each two; Text.SplitJoin and Text.JoinSplit relate it to `split` |
| Text.SplitJoin | src/cloctui/main.py:121-122 | splitting a space-joined list gives the words of its parts in order |
| Text.JoinSplit | src/cloctui/main.py:122 | joining the pieces of a split restores any string |
| Text.IntToStringRoundTrip | src/cloctui/main.py:85 | `int(str(n)) == n` for the option value rendering |
| Text.IntToStringInjective | src/cloctui/main.py:148 | distinct integers print differently |
| Command.Classify | src/cloctui/main.py:137-150 | the exception always carries the original code; any code below 0 or above 128 gets the signal message built from `-code`; otherwise 25, 126 and 127 get their fixed messages and every other code gets "Unknown CLOC error: " followed by the error text |
| Command.MessageMark | src/cloctui/main.py:137-148 | every message's first and fourteenth characters identify its kind of failure |
| Command.MessageDeterminesCategory | src/cloctui/main.py:137-148 | two codes with the same message have the same kind of failure, and the same signal for signal messages (unless both are unknown failures) |
| Command.SignalAbove128Negative | src/cloctui/main.py:147-148 | as written, exit code 137 reports "terminated by signal -137" |
| Command.SignalNumber | src/cloctui/main.py:147-148 | the signal behind a signal code is positive: `-code` for a negative code, `code - 128` above 128 |
| Command.ClassifyIntended | src/cloctui/main.py:137-150 | keeps the code; a signal message names SignalNumber(code); for codes up to 128 it equals Classify |
| Command.IntendedSignalPositive | src/cloctui/main.py:147-148 | with the intended classification, a signal message ends in the positive signal number and has no minus sign |
| Command.Cloc.Execute | src/cloctui/main.py:124-150 | runs Build() in the working directory; exit code 0 gives the output, any other code gives the exception Classify builds for it |
| Command.ScanCommandLine | src/cloctui/main.py:545-552 | the scan command is the fixed parts joined with the scan directory; its words are `cloc --by-file --json --timeout 15` followed by the words of the directory |
| Command.ScanOptionsSplit | src/cloctui/main.py:545-552 | the fixed parts `cloc`, `--by-file`, `--json` and `--timeout 15` split into exactly five words |
| App.ExecuteCloc | src/cloctui/main.py:542-568 | the builder chain runs the scan command in `./`; a failing exit is reported as the exception Classify builds; otherwise a missing `header`, then a missing `SUM`, is reported, and in every other case the result is the header, the summary and the unreserved entries |
| Dict.Put | src/cloctui/main.py:568 | `d[k] = v`: the key set grows by k, k maps to v, every other key keeps its value, and keys stay distinct |
| Stats.UnreservedEntries | src/cloctui/main.py:562-568 | the copied entries have exactly the keys other than `header` and `SUM`, distinct, with unchanged values |
| Stats.Partition | src/cloctui/main.py:559-568 | missing `header` fails first, then missing `SUM`; otherwise it returns the two records and the files, which are exactly the other keys with unchanged values, in their order |
| Paths.Dirname | src/cloctui/main.py:316 | `os.path.dirname`: a prefix of the path, and empty for a path without `/` |
| Paths.DirnameOfJoin | src/cloctui/main.py:316 | the directory of `dir + "/" + name` is `dir` when the name has no `/` |
| Stats.AddCounts | src/cloctui/main.py:309-311 | the group record's counters grow by the file's counters; its group key is kept |
| Stats.TotalAppend | src/cloctui/main.py:300-326 | adding one file adds its counters to the overall sum and to its own group's sum only |
| Stats.Accumulate | src/cloctui/main.py:304-326 | one pass of the grouping loop: create the group if missing, then add the file's counters; Stats.GroupStep states that it extends a grouping by one file |
| Stats.GroupStep | src/cloctui/main.py:301-326 | one loop step turns the grouping of the files seen so far into the grouping including the next file |
| Stats.GroupFiles | src/cloctui/main.py:297-329 | both results are groupings of the files: one record per language or per directory, each record holding the sums of blank, comment and code over exactly the files of its group and its group key in the language field, and the records' sums equal the sums over all files |
| Rows.RowOf | src/cloctui/main.py:285-292 | a row copies the key, language and counters, and its total is blank + comment + code |
| Rows.RowsOf | src/cloctui/main.py:283-292 | one row per entry of the data, in the data's order |
| Rows.SortRowsCorrect | src/cloctui/main.py:263-273 | the table sort is a permutation, ordered by the column (largest first with reverse), and stable: rows with equal values keep their relative order |
| Rows.SortRows | src/cloctui/main.py:263-273 | the DataTable sort by one column with a `reverse` flag; its contract is stated by Rows.SortRowsCorrect |
| Rows.ReverseSortLargestFirst | src/cloctui/main.py:165 | sorting with reverse puts a row no smaller than any other first |
| SortState.Reverse | src/cloctui/main.py:263-273 | the `reverse` argument of the sort: True for ASCENDING, False for DESCENDING; used in the contract of Table.CustomDataTable.SortColumn |
| SortState.InitialStatus | src/cloctui/main.py:179-186 | all six columns are present and UNSORTED |
| SortState.ResetAll | src/cloctui/main.py:255-256 | every column becomes UNSORTED and the set of columns is kept |
| SortState.Select | src/cloctui/main.py:242-278 | a missing key and an unknown key are errors; for a known key the column set is kept |
| SortState.SelectUnsorted | src/cloctui/main.py:254-263 | selecting an UNSORTED column makes it ASCENDING and every other column UNSORTED |
| SortState.SelectToggles | src/cloctui/main.py:267-273 | reselecting the sorted column flips ASCENDING and DESCENDING and leaves the other columns alone |
| SortState.SelectNeverUnsorted | src/cloctui/main.py:254-274 | a selected column is never left UNSORTED |
| SortState.SelectKeepsOneActive | src/cloctui/main.py:254-274 | every selection keeps at most one column sorted |
| SortState.SelectAllKeepsOneActive | src/cloctui/main.py:240-278 | after any sequence of selections, successful or failed, at most one column is sorted and the columns are the same |
| SortState.PressSorted | src/cloctui/main.py:267-274 | n presses on the sorted column leave its direction unchanged for even n and flipped for odd n; other columns are untouched |
| SortState.PressFromUnsorted | src/cloctui/main.py:254-274 | from UNSORTED, an odd number of presses ends ASCENDING, an even number DESCENDING, with all other columns UNSORTED |
| Layout.OtherColsTotal | src/cloctui/main.py:169-177 | the columns other than path take 44 cells |
| Layout.PathMinimumValue | src/cloctui/main.py:170 | the path column's minimum is 15 |
| Layout.FirstColumnWidth | src/cloctui/main.py:221-227 | the path width is never below the minimum and never below what remains; it is one of the two |
| Layout.WidthMonotone | src/cloctui/main.py:221-227 | a wider table never gets a narrower path column |
| Layout.WidthClamped | src/cloctui/main.py:226-232 | when less than 15 remains the width is 15 and the posted summary size 18 |
| Layout.WidthFills | src/cloctui/main.py:224-227 | otherwise the path column takes all that remains |
| Layout.SummarySize | src/cloctui/main.py:232 | the posted size exceeds the path width by exactly 3 |
| Table.CustomDataTable.constructor | src/cloctui/main.py:190-201 | stores the data, no rows, every column UNSORTED, path width 15 |
| Table.CustomDataTable.SortColumn | src/cloctui/main.py:240-278 | an error leaves phases and rows unchanged; otherwise the phases become Select's, the selected column is sorted, at most one column is sorted, and the displayed rows are the rows in insertion order sorted by the column, with reverse = True exactly when the column is ASCENDING, so ties keep insertion order |
| Table.CustomDataTable.UpdateTable | src/cloctui/main.py:280-294 | the rows are added afresh from the data, in its order, and then shown sorted by total through the sort_column('total') the reload triggers (main.py:477-479) |
| Table.CustomDataTable.GroupTheData | src/cloctui/main.py:297-329 | the two grouping fields hold the groupings of the data by language and by directory |
| Table.CustomDataTable.OnMount | src/cloctui/main.py:205-207 | the rows added are the files' rows in order, shown sorted by total; then both groupings are stored |
| Table.CustomDataTable.NoGroup | src/cloctui/main.py:331-332 | the rows added are the per-file rows in order, shown sorted by total |
| Table.CustomDataTable.GroupByLang | src/cloctui/main.py:334-335 | the rows added are the language groups' rows in order, shown sorted by total |
| Table.CustomDataTable.GroupByDir | src/cloctui/main.py:337-338 | the rows added are the directory groups' rows in order, shown sorted by total |
| Table.CustomDataTable.OnResize | src/cloctui/main.py:218-232 | the path width is FirstColumnWidth for the six columns and the returned summary size is that width + 3 |
| Table.MountThenGroupByLanguage | src/cloctui/main.py:477-479 | mounting leaves total ASCENDING (largest first); switching to the language grouping flips it to DESCENDING (smallest first), because each reload reselects the already sorted total column; a key press for another column then shows the language groups, in the order they were added, sorted by that column, largest first (main.py:441-446) |

## Left out

- Process execution and the UTF-8 decoding of its output are left out (main.py:130-135). They are I/O, so `Execute` takes `run` as a parameter that gives an exit code, the output and the text of the error.
- `str(error)` of `CalledProcessError` is left out. It is library text, so it is the `errorText` field of the process result.
- `json.loads` is left out (main.py:559). It is a foreign parser, so `ExecuteCloc` takes `decode` as a parameter. Invalid JSON, and a decoded value that is not an object, are not modelled.
- Stats.Partition: requires distinct keys. A decoded JSON object has them.
- The float fields of the header (elapsed time, files and lines per second) and their formatting are display only. Records are generic in `Partition`.
- Textual plumbing is left out because it is UI event dispatch and rendering. This covers:
  - column labels with their arrow markup;
  - `refresh`;
  - `@work` workers;
  - messages and their handlers, except that a reload is followed by `sort_column('total')`;
  - the header bar, summary bar, options bar and screens;
  - the spinner.
- Table.CustomDataTable.SortColumn: takes the column key as an `Option` and does not model the `Column` object, whose only use is its label.
- Table.CustomDataTable.OnResize: takes the table width and returns the size instead of posting it. cloctui never passes or sets `cell_padding` (main.py:191-195), so the model fixes the padding at construction.
- Table.CustomDataTable.constructor: `sort_status` is a class attribute in the source and is shared by all tables. The model gives each table its own map. The application creates one table per run.
- Stats.GroupFiles: does not state the order of the group records. In the source they appear in the order their keys are first met.
- Rows.SortRowsCorrect: the actual sort is Textual's `DataTable.sort`, which the source does not show. It is modelled by its contract, a stable sort by the cell value with a `reverse` flag. Text compares by code point and numbers numerically.
- The `else` branch of sort_column (main.py:275-278) cannot be reached, because the phase type has exactly three values.
- `src/cloctui/cli.py` is not part of this model. It holds argument parsing, the search for the cloc executable, the version probe and the checks that the path exists.
- `src/cloctui/rawoutput.py` is not part of this model. It is a debug script that only runs the command and prints its output.

## Findings

| source | as written | input that shows it | evidently intended | confidence | as-written member | corrected member |
|---|---|---|---|---|---|---|
| src/cloctui/main.py:147-148 | a code above 128 reports `str(-code)` as the signal | exit code 137 (shell child killed by signal 9) gives "CLOC command was terminated by signal -137" | report signal `code - 128`, here 9; keep `-code` for negative codes | medium, not executed | Command.Classify, Command.SignalAbove128Negative | Command.ClassifyIntended, Command.IntendedSignalPositive |

`Cloc.Execute` and `App.ExecuteCloc` use `Classify`, the code as written.
`ClassifyIntended` and `IntendedSignalPositive` state the corrected
reading only. If the shell execs cloc directly, a signal arrives as a
negative code instead, and the as-written message is then right.
