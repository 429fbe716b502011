/**
 * ClocTUI.execute_cloc: build the scan command, run it, decode its output
 * and split the decoded map into header, summary and per-file records.
 */
module App {
  import opened Wrappers
  import opened Text
  import opened Dict
  import opened Stats
  import opened Command

  /** Why a scan produced no table: cloc failed, or its result lacked a key. */
  datatype ScanFailure = CommandFailed(exception: ClocException) | Malformed(missing: ParseError)

  /**
   * `run` stands for subprocess.run and `decode` for the JSON decoder
   * applied to cloc's output; a decoded JSON object has distinct keys.
   */
  method ExecuteCloc<V>(dirToScan: string, cwd: string, run: (string, string) -> ProcessRun, decode: string -> Dict<V>)
    returns (r: Result<Parsed<V>, ScanFailure>)
    requires forall s :: DistinctKeys(decode(s))
    ensures var p := run(ScanCommandLine(dirToScan), ScanWorkingDirectory);
      && (p.returnCode != 0 ==> r == Failure(CommandFailed(Classify(p.returnCode, p.errorText))))
      && (p.returnCode == 0 ==>
            var result := decode(p.stdout);
            && ("header" !in Keys(result) ==> r == Failure(Malformed(MissingKey("header"))))
            && ("header" in Keys(result) && "SUM" !in Keys(result) ==> r == Failure(Malformed(MissingKey("SUM"))))
            && ("header" in Keys(result) && "SUM" in Keys(result) ==>
                  r == Success(Parsed(Get(result, "header"), Get(result, "SUM"), Unreserved(result)))))
  {
    var cloc := new Cloc(cwd);
    var _ := cloc.AddFlag("--by-file");
    var _ := cloc.AddFlag("--json");
    var _ := cloc.AddOption("--timeout", Timeout);
    var _ := cloc.SetWorkingDirectory(ScanWorkingDirectory);
    var _ := cloc.AddArgument(dirToScan);
    assert cloc.flags == ["--by-file", "--json"] && cloc.options == ["--timeout" + " " + IntToString(Timeout)];
    assert [cloc.baseCommand] + cloc.flags + cloc.options + cloc.arguments == ScanOptions + [dirToScan];
    assert cloc.Build() == ScanCommandLine(dirToScan);
    var output := cloc.Execute(run);
    if output.Failure? {
      return Failure(CommandFailed(output.error));
    }
    var result := decode(output.value);
    var parsed := Partition(result);
    if parsed.Failure? {
      return Failure(Malformed(parsed.error));
    }
    r := Success(parsed.value);
  }
}
