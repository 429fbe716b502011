/**
 * The cloc command line builder (class CLOC) and the mapping of a failed
 * run's exit code to the message of a CLOCException.
 */
module Command {
  import opened Wrappers
  import opened Text

  /** The exception raised for a failed run: a message and the original code. */
  datatype ClocException = ClocException(message: string, code: int)

  /**
   * What running a command line reports: its exit code, its standard output
   * (already decoded) and `str()` of the CalledProcessError a nonzero code
   * raises.
   */
  datatype ProcessRun = ProcessRun(returnCode: int, stdout: string, errorText: string)

  // The verifier does not look inside string literals this long (it cannot
  // even tell their first character), so each of the two longer messages is
  // written as two shorter literals; their concatenation is the source's text.
  const TarfileMessage := "Failed to create tarfile of files" + " from git or not a git repository."
  const PermissionMessage := "Permission denied." + " Please check the permissions of the working directory."
  const NotFoundMessage := "CLOC command not found. Please install CLOC."
  const UnknownPrefix := "Unknown CLOC error: "
  const SignalPrefix := "CLOC command was terminated by signal "

  /** A nonzero code the process was stopped by a signal for. */
  predicate IsSignalCode(code: int) {
    code < 0 || code > 128
  }

  /** The exception CLOC.execute raises for a nonzero exit code. */
  function Classify(code: int, errorText: string): (e: ClocException)
    requires code != 0
    ensures e.code == code
    ensures IsSignalCode(code) ==> e.message == SignalPrefix + IntToString(-code)
    ensures !IsSignalCode(code) && code == 25 ==> e.message == TarfileMessage
    ensures !IsSignalCode(code) && code == 126 ==> e.message == PermissionMessage
    ensures !IsSignalCode(code) && code == 127 ==> e.message == NotFoundMessage
    ensures !IsSignalCode(code) && code !in {25, 126, 127} ==> e.message == UnknownPrefix + errorText
  {
    var message :=
      match code
      case 25 => TarfileMessage
      case 126 => PermissionMessage
      case 127 => NotFoundMessage
      case _ => UnknownPrefix + errorText;
    var message := if code < 0 || code > 128 then SignalPrefix + IntToString(-code) else message;
    ClocException(message, code)
  }

  /**
   * As written, a code above 128 reports a negative signal number: exit
   * code 137 (a shell whose child got signal 9) gives "... signal -137".
   */
  lemma SignalAbove128Negative(errorText: string)
    ensures Classify(137, errorText).message == SignalPrefix + "-137"
  {
    assert IntToString(-137) == "-137";
  }

  /**
   * The signal behind a signal code: Python reports a process killed by
   * signal n as -n, and a shell whose child was killed by it exits with 128 + n.
   */
  function SignalNumber(code: int): (n: int)
    requires IsSignalCode(code)
    ensures n > 0
    ensures code < 0 ==> n == -code
    ensures code > 128 ==> code == 128 + n
  {
    if code < 0 then -code else code - 128
  }

  /**
   * The classification with the signal message naming the actual signal;
   * it differs from Classify only for codes above 128.
   */
  function ClassifyIntended(code: int, errorText: string): (e: ClocException)
    requires code != 0
    ensures e.code == code
    ensures IsSignalCode(code) ==> e.message == SignalPrefix + IntToString(SignalNumber(code))
    ensures code <= 128 ==> e == Classify(code, errorText)
  {
    if code > 128 then ClocException(SignalPrefix + IntToString(code - 128), code)
    else Classify(code, errorText)
  }

  /**
   * Under the intended classification a signal message ends in the positive
   * signal number, without a minus sign.
   */
  lemma IntendedSignalPositive(code: int, errorText: string)
    requires IsSignalCode(code)
    ensures |ClassifyIntended(code, errorText).message| > |SignalPrefix|
    ensures var tail := ClassifyIntended(code, errorText).message[|SignalPrefix|..];
      '-' !in tail && ParseInt(tail) == SignalNumber(code) > 0
  {
    var m := ClassifyIntended(code, errorText).message;
    var n := SignalNumber(code);
    assert m[|SignalPrefix|..] == IntToString(n);
    assert IntToString(n) == NatToString(n);
    IntToStringRoundTrip(n);
  }

  /** The failure kinds a nonzero exit code stands for. */
  datatype Category =
    | TarfileFailed
    | PermissionDenied
    | ToolNotFound
    | TerminatedBySignal(signal: int)
    | UnknownFailure(code: int)

  /** The kind of failure, independently of any message. */
  function CategoryOf(code: int): Category {
    if code < 0 || code > 128 then TerminatedBySignal(-code)
    else if code == 25 then TarfileFailed
    else if code == 126 then PermissionDenied
    else if code == 127 then ToolNotFound
    else UnknownFailure(code)
  }

  /** The first and fourteenth characters of a category's message. */
  function Mark(c: Category): (char, char) {
    match c
    case TarfileFailed => ('F', 'a')
    case PermissionDenied => ('P', 'n')
    case ToolNotFound => ('C', 'n')
    case TerminatedBySignal(_) => ('C', 'w')
    case UnknownFailure(_) => ('U', 'e')
  }

  lemma MessageMark(code: int, errorText: string)
    requires code != 0
    ensures |Classify(code, errorText).message| > 13
    ensures var m := Classify(code, errorText).message; (m[0], m[13]) == Mark(CategoryOf(code))
  {
    var m := Classify(code, errorText).message;
    if IsSignalCode(code) {
      assert m == SignalPrefix + IntToString(-code);
      SignalPrefixMark();
      PrefixMark(SignalPrefix, IntToString(-code));
    } else if code == 25 {
      assert m == TarfileMessage;
      TarfileMark();
    } else if code == 126 {
      assert m == PermissionMessage;
      PermissionMark();
    } else if code == 127 {
      assert m == NotFoundMessage;
      NotFoundMark();
    } else {
      assert m == UnknownPrefix + errorText;
      UnknownPrefixMark();
      PrefixMark(UnknownPrefix, errorText);
    }
  }

  lemma TarfileMark()
    ensures |TarfileMessage| > 13 && (TarfileMessage[0], TarfileMessage[13]) == Mark(TarfileFailed)
  {
  }

  lemma PermissionMark()
    ensures |PermissionMessage| > 13 && (PermissionMessage[0], PermissionMessage[13]) == Mark(PermissionDenied)
  {
  }

  lemma NotFoundMark()
    ensures |NotFoundMessage| > 13 && (NotFoundMessage[0], NotFoundMessage[13]) == Mark(ToolNotFound)
  {
  }

  lemma SignalPrefixMark()
    ensures forall s :: |SignalPrefix| > 13 && (SignalPrefix[0], SignalPrefix[13]) == Mark(TerminatedBySignal(s))
  {
  }

  lemma UnknownPrefixMark()
    ensures forall c :: |UnknownPrefix| > 13 && (UnknownPrefix[0], UnknownPrefix[13]) == Mark(UnknownFailure(c))
  {
  }

  lemma PrefixMark(prefix: string, rest: string)
    requires |prefix| > 13
    ensures (prefix + rest)[0] == prefix[0] && (prefix + rest)[13] == prefix[13]
  {
  }

  /** Categories with the same mark are of the same kind. */
  lemma MarkDeterminesKind(k1: Category, k2: Category)
    requires Mark(k1) == Mark(k2)
    ensures k1.TerminatedBySignal? <==> k2.TerminatedBySignal?
    ensures k1.UnknownFailure? <==> k2.UnknownFailure?
    ensures !k1.TerminatedBySignal? && !k1.UnknownFailure? ==> k1 == k2
  {
  }

  /** A signal message tells the signal. */
  lemma SignalMessageDeterminesSignal(c1: int, t1: string, c2: int, t2: string)
    requires IsSignalCode(c1) && IsSignalCode(c2)
    requires Classify(c1, t1).message == Classify(c2, t2).message
    ensures c1 == c2
  {
    PrefixCancel(SignalPrefix, IntToString(-c1), IntToString(-c2));
    IntToStringInjective(-c1, -c2);
  }

  lemma PrefixCancel(prefix: string, a: string, b: string)
    requires prefix + a == prefix + b
    ensures a == b
  {
    assert (prefix + a)[|prefix|..] == a;
    assert (prefix + b)[|prefix|..] == b;
  }

  /**
   * The message tells the failure kind apart, and a signal message tells
   * the signal: two codes with the same message fall in the same category,
   * unless both are unknown failures (whose messages carry the caller's text).
   */
  lemma MessageDeterminesCategory(c1: int, t1: string, c2: int, t2: string)
    requires c1 != 0 && c2 != 0
    requires Classify(c1, t1).message == Classify(c2, t2).message
    requires !(CategoryOf(c1).UnknownFailure? && CategoryOf(c2).UnknownFailure?)
    ensures CategoryOf(c1) == CategoryOf(c2)
  {
    var k1, k2 := CategoryOf(c1), CategoryOf(c2);
    assert Mark(k1) == Mark(k2) by {
      MessageMark(c1, t1);
      MessageMark(c2, t2);
    }
    MarkDeterminesKind(k1, k2);
    if k1.TerminatedBySignal? {
      SignalMessageDeterminesSignal(c1, t1, c2, t2);
    }
  }

  /** The builder for one cloc command line. */
  class Cloc {
    var baseCommand: string
    var options: seq<string>
    var flags: seq<string>
    var arguments: seq<string>
    var workingDirectory: string

    /** A fresh builder; `cwd` is the process's working directory (os.getcwd()). */
    constructor(cwd: string)
      ensures baseCommand == "cloc" && options == [] && flags == [] && arguments == []
      ensures workingDirectory == cwd
    {
      baseCommand := "cloc";
      options := [];
      flags := [];
      arguments := [];
      workingDirectory := cwd;
    }

    /** Appends `"option value"`; returns the builder itself for chaining. */
    method AddOption(option: string, value: int) returns (self: Cloc)
      modifies this
      ensures self == this
      ensures options == old(options) + [option + " " + IntToString(value)]
      ensures flags == old(flags) && arguments == old(arguments)
      ensures baseCommand == old(baseCommand) && workingDirectory == old(workingDirectory)
    {
      options := options + [option + " " + IntToString(value)];
      self := this;
    }

    method AddFlag(flag: string) returns (self: Cloc)
      modifies this
      ensures self == this
      ensures flags == old(flags) + [flag]
      ensures options == old(options) && arguments == old(arguments)
      ensures baseCommand == old(baseCommand) && workingDirectory == old(workingDirectory)
    {
      flags := flags + [flag];
      self := this;
    }

    method AddArgument(argument: string) returns (self: Cloc)
      modifies this
      ensures self == this
      ensures arguments == old(arguments) + [argument]
      ensures options == old(options) && flags == old(flags)
      ensures baseCommand == old(baseCommand) && workingDirectory == old(workingDirectory)
    {
      arguments := arguments + [argument];
      self := this;
    }

    method SetWorkingDirectory(path: string) returns (self: Cloc)
      modifies this
      ensures self == this
      ensures workingDirectory == path
      ensures options == old(options) && flags == old(flags) && arguments == old(arguments)
      ensures baseCommand == old(baseCommand)
    {
      workingDirectory := path;
      self := this;
    }

    /**
     * The command line: the words of the base command, then of every flag,
     * every option and every argument, each group in insertion order.
     */
    function Build(): (r: string)
      reads this
      ensures Split(r) == Words([baseCommand] + flags + options + arguments)
      ensures Join(Split(r)) == r
    {
      var parts := [baseCommand] + flags + options + arguments;
      SplitJoin(parts);
      JoinSplit(Join(parts));
      Join(parts)
    }

    /**
     * Runs the command line in the working directory; `run` stands for
     * subprocess.run. A zero exit code yields the output, any other the
     * classified exception.
     */
    method Execute(run: (string, string) -> ProcessRun) returns (r: Result<string, ClocException>)
      ensures var p := run(Build(), workingDirectory);
        && (p.returnCode == 0 ==> r == Success(p.stdout))
        && (p.returnCode != 0 ==> r.Failure? && r.error.code == p.returnCode
                                  && r.error == Classify(p.returnCode, p.errorText))
    {
      var command := Build();
      var process := run(command, workingDirectory);
      if process.returnCode == 0 {
        return Success(process.stdout);
      }
      return Failure(Classify(process.returnCode, process.errorText));
    }
  }

  /** How long cloc may run, in seconds (ClocTUI.timeout). */
  const Timeout := 15

  /** The working directory ClocTUI runs cloc in. */
  const ScanWorkingDirectory := "./"

  /**
   * The parts of the scan command before the scan directory, as the builder
   * chain of ClocTUI.execute_cloc produces them: base command, flags, option.
   */
  const ScanOptions: seq<string> := ["cloc", "--by-file", "--json", "--timeout" + " " + IntToString(Timeout)]

  /** The words of those parts. */
  const ScanWords: seq<string> := ["cloc", "--by-file", "--json", "--timeout", "15"]

  /**
   * The command line ClocTUI.execute_cloc builds: the fixed parts and the
   * scan directory joined by spaces. Its words are the five fixed words
   * followed by those of the scan directory, so a directory without spaces
   * gives exactly six.
   */
  function ScanCommandLine(dirToScan: string): (r: string)
    ensures r == Join(ScanOptions) + " " + dirToScan
    ensures Split(r) == ScanWords + Split(dirToScan)
  {
    JoinAppend(ScanOptions, [dirToScan]);
    SplitConcat(Join(ScanOptions), dirToScan);
    ScanOptionsSplit();
    Join(ScanOptions + [dirToScan])
  }

  lemma ScanOptionsSplit()
    ensures Split(Join(ScanOptions)) == ScanWords
  {
    assert Join(ScanOptions) == Join(ScanWords) by { ScanOptionsJoin(); }
    ScanWordsPlain();
    JoinSplitParts(ScanWords);
  }

  lemma ScanOptionsJoin()
    ensures Join(ScanOptions) == Join(ScanWords)
  {
    var first := ["cloc", "--by-file", "--json"];
    assert ScanOptions == first + ["--timeout" + " " + IntToString(Timeout)];
    assert ScanWords == first + ["--timeout", "15"];
    assert IntToString(Timeout) == "15";
    JoinAppend(first, ["--timeout" + " " + IntToString(Timeout)]);
    JoinAppend(first, ["--timeout", "15"]);
    assert ["--timeout", "15"][1..] == ["15"];
  }

  lemma ScanWordsPlain()
    ensures forall i :: 0 <= i < |ScanWords| ==> ' ' !in ScanWords[i]
  {
  }
}
