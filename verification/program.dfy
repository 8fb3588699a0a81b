/**
 * The program front end: the Program object that New builds from options,
 * the way Run reads piped standard input into the list of requested files
 * and the changed lines of a diff, and the -version output.
 */
module Program {
  import opened GoStrings
  import opened Lines
  import opened Version
  import opened Options

  /** The coverage profile read when the -profile flag is not given. */
  const DefaultProfileFilename: string := "coverage.out"

  /** What the diff parser makes of the piped text: not a diff, or the new names of its files and their changed lines. */
  datatype DiffParse =
    | NotADiff
    | Diff(files: seq<string>, changed: map<string, seq<int>>)

  /**
   * Standard input as parseInput sees it: not a named pipe (or its mode
   * cannot be read), a pipe whose reading failed, or a pipe's whole text
   * together with what the diff parser makes of that text.
   */
  datatype Stdin =
    | NotPiped
    | ReadFailed
    | Piped(text: string, parsed: DiffParse)

  /**
   * The result of parsing the command line: the values the three flags hold
   * afterwards, and whether parsing stopped at an error. Parsing assigns each
   * flag as it reads it, so after an error the flags read before the bad
   * argument already hold their new values.
   */
  datatype FlagParse =
    | BadFlags(showVersion: bool, sortByCoverage: bool, profileFilename: string)
    | Parsed(showVersion: bool, sortByCoverage: bool, profileFilename: string)

  /** An error value: none, or the reason. */
  datatype Outcome = Pass | Fail(reason: string)

  /** What Run ends with: an error, the version text written, or the configuration handed to the coverage view. */
  datatype RunOutcome =
    | RunFailed(reason: string)
    | PrintedVersion(text: string)
    | StartedView(profileFilename: string, requestedFiles: seq<string>, sortByCoverage: bool, filteredLines: map<string, seq<int>>)

  /** The two fields that reading standard input sets. */
  datatype Inputs = Inputs(requestedFiles: seq<string>, diffLines: map<string, seq<int>>)

  /** A Go source file name. */
  predicate IsGoFile(name: string) {
    HasSuffix(name, ".go")
  }

  /** The changed lines of the Go files only: a part of the map that holds no other file. */
  function GoFilesOnly(changed: map<string, seq<int>>): (goLines: map<string, seq<int>>)
    ensures goLines.Keys <= changed.Keys
    ensures forall file :: file in goLines ==> IsGoFile(file) && goLines[file] == changed[file]
  {
    map file | file in changed && IsGoFile(file) :: changed[file]
  }

  /**
   * The changed-line map after filtering holds exactly the Go files of the
   * diff, each with its line list unchanged.
   */
  lemma GoFilesOnlyExact(changed: map<string, seq<int>>)
    ensures forall file :: file in GoFilesOnly(changed) <==> file in changed && IsGoFile(file)
    ensures forall file :: file in GoFilesOnly(changed) ==> GoFilesOnly(changed)[file] == changed[file]
  {
  }

  /**
   * What parseInput does to the requested files and the changed lines: only a
   * piped diff replaces the changed-line map, and then it holds Go files only;
   * earlier requests are kept except when non-diff text replaces them.
   */
  function AfterInput(before: Inputs, stdin: Stdin): (after: Inputs)
    ensures (stdin.Piped? && stdin.parsed.Diff?) || after.diffLines == before.diffLines
    ensures stdin.Piped? && stdin.parsed.Diff? ==> forall file :: file in after.diffLines ==> IsGoFile(file)
    ensures (stdin.Piped? && stdin.parsed.NotADiff?)
      || (|before.requestedFiles| <= |after.requestedFiles| && after.requestedFiles[..|before.requestedFiles|] == before.requestedFiles)
  {
    match stdin
    case NotPiped => before
    case ReadFailed => before
    case Piped(text, NotADiff) => before.(requestedFiles := SplitLines(text))
    case Piped(_, Diff(files, changed)) => Inputs(before.requestedFiles + files, GoFilesOnly(changed))
  }

  /**
   * When the piped text is not a diff, every line of it is a requested file
   * (empty lines included) and the changed-line map is left as it was.
   */
  lemma FallbackRequestsEveryLine(before: Inputs, text: string)
    ensures var after := AfterInput(before, Piped(text, NotADiff));
      && Join(after.requestedFiles, "\n") == ReplaceCRLF(text)
      && |after.requestedFiles| == Count(text, '\n') + 1
      && (forall i :: 0 <= i < |after.requestedFiles| ==> '\n' !in after.requestedFiles[i])
      && after.diffLines == before.diffLines
  {
    SplitLinesJoin(text);
  }

  /**
   * When the piped text is a diff, only Go files keep changed lines, each with
   * its lines unchanged, while every file name of the diff is requested, in
   * the diff's order, after those requested before.
   */
  lemma DiffRequestsEveryFile(before: Inputs, text: string, files: seq<string>, changed: map<string, seq<int>>)
    ensures var after := AfterInput(before, Piped(text, Diff(files, changed)));
      && (forall file :: file in after.diffLines ==> IsGoFile(file) && file in changed)
      && (forall file :: file in changed && IsGoFile(file) ==> file in after.diffLines && after.diffLines[file] == changed[file])
      && |after.requestedFiles| == |before.requestedFiles| + |files|
      && after.requestedFiles[..|before.requestedFiles|] == before.requestedFiles
      && (forall i :: 0 <= i < |files| ==> after.requestedFiles[|before.requestedFiles| + i] == files[i])
  {
    var after := AfterInput(before, Piped(text, Diff(files, changed)));
    assert after.requestedFiles[..|before.requestedFiles|] == before.requestedFiles;
  }

  /** Input that is not piped, or could not be read, changes nothing. */
  lemma UnreadInputChangesNothing(before: Inputs, stdin: Stdin)
    requires !stdin.Piped?
    ensures AfterInput(before, stdin) == before
  {
  }

  class Program {
    var version: string
    var commit: string
    var date: string
    var modVersion: string
    var modSum: string
    var showVersion: bool
    var profileFilename: string
    var sortByCoverage: bool
    var args: seq<string>
    var logFile: string
    var requestedFiles: seq<string>
    var diffLines: map<string, seq<int>>

    /** The fields that options set. */
    function Configuration(): Config
      reads this
    {
      Config(version, commit, date, modVersion, modSum, logFile, args)
    }

    /** The fields that reading standard input sets. */
    function InputState(): Inputs
      reads this
    {
      Inputs(requestedFiles, diffLines)
    }

    /**
     * New: the options run in order on a fresh program, then registering the
     * flags stores each flag's default value in its field.
     */
    constructor (processArgs: seq<string>, opts: seq<Option>)
      ensures Configuration() == ApplyAll(Defaults(processArgs), opts)
      ensures !showVersion && !sortByCoverage && profileFilename == DefaultProfileFilename
      ensures requestedFiles == [] && diffLines == map[]
    {
      version, commit, date, modVersion, modSum, logFile := "", "", "", "", "", "";
      args := processArgs;
      showVersion, sortByCoverage, profileFilename := false, false, "";
      requestedFiles, diffLines := [], map[];
      new;
      var i := 0;
      while i < |opts|
        invariant 0 <= i <= |opts|
        invariant Configuration() == ApplyAll(Defaults(processArgs), opts[..i])
        invariant requestedFiles == [] && diffLines == map[]
      {
        ApplyAllSnoc(Defaults(processArgs), opts[..i], opts[i]);
        assert opts[..i + 1] == opts[..i] + [opts[i]];
        ApplyOption(opts[i]);
        i := i + 1;
      }
      assert opts[..i] == opts;
      showVersion := false;
      sortByCoverage := false;
      profileFilename := DefaultProfileFilename;
    }

    /** One option run on the program. */
    method ApplyOption(o: Option)
      modifies this`version, this`commit, this`date, this`modVersion, this`modSum, this`logFile, this`args
      ensures Configuration() == Apply(old(Configuration()), o)
    {
      match o
      case WithBuildInfo(v, cm, d) =>
        version, commit, date := v, cm, d;
      case WithModuleInfo(mv, ms) =>
        modVersion, modSum := mv, ms;
      case WithLogFile(f) =>
        logFile := f;
      case WithArgs(a) =>
        args := a;
    }

    /**
     * parseInput: piped text that parses as a diff gives the changed lines of
     * its Go files and appends its file names to the requested files; piped
     * text that does not parse is taken as a list of file names, one per line.
     */
    method ParseInput(stdin: Stdin) returns (err: Outcome)
      modifies this`requestedFiles, this`diffLines
      ensures err == if stdin.ReadFailed? then Fail("failed to read stdin") else Pass
      ensures InputState() == AfterInput(old(InputState()), stdin)
    {
      err := Pass;
      match stdin {
        case NotPiped =>
        case ReadFailed =>
          err := Fail("failed to read stdin");
        case Piped(text, parsed) =>
          match parsed {
            case NotADiff =>
              // not a diff: fall back to a list of files, which is not an error
              requestedFiles := SplitLines(text);
            case Diff(files, changed) =>
              diffLines := changed;
              var pending := diffLines.Keys;
              while pending != {}
                modifies this`diffLines
                invariant pending <= changed.Keys
                invariant diffLines == map file | file in changed && (file in pending || IsGoFile(file)) :: changed[file]
                decreases pending
              {
                var file :| file in pending;
                if !IsGoFile(file) {
                  diffLines := diffLines - {file};
                }
                pending := pending - {file};
              }
              var i := 0;
              ghost var requestedBefore := requestedFiles;
              while i < |files|
                modifies this`requestedFiles
                invariant 0 <= i <= |files|
                invariant requestedFiles == requestedBefore + files[..i]
              {
                requestedFiles := requestedFiles + [files[i]];
                i := i + 1;
              }
              assert files[..i] == files;
          }
      }
    }

    /**
     * Run, up to the point where the coverage view takes over: parse the
     * flags, print the version text when asked to, otherwise read standard
     * input and hand the configuration to the coverage view.
     */
    method Run(flags: FlagParse, stdin: Stdin) returns (outcome: RunOutcome)
      modifies this`showVersion, this`sortByCoverage, this`profileFilename, this`requestedFiles, this`diffLines
      ensures showVersion == flags.showVersion && sortByCoverage == flags.sortByCoverage
      ensures profileFilename == flags.profileFilename
      ensures flags.BadFlags? ==> outcome == RunFailed("failed to parse flags") && InputState() == old(InputState())
      ensures flags.Parsed? && flags.showVersion ==>
        && outcome == PrintedVersion(VersionText(version, commit, date, modVersion, modSum))
        && InputState() == old(InputState())
      ensures flags.Parsed? && !flags.showVersion ==>
        && InputState() == AfterInput(old(InputState()), stdin)
        && outcome == if stdin.ReadFailed? then RunFailed("failed to parse input")
                      else StartedView(profileFilename, requestedFiles, sortByCoverage, diffLines)
    {
      showVersion, sortByCoverage, profileFilename := flags.showVersion, flags.sortByCoverage, flags.profileFilename;
      if flags.BadFlags? {
        return RunFailed("failed to parse flags");
      }
      if showVersion {
        var out := VersionText(version, commit, date, modVersion, modSum);
        return PrintedVersion(out);
      }
      var err := ParseInput(stdin);
      if err.Fail? {
        return RunFailed("failed to parse input");
      }
      outcome := StartedView(profileFilename, requestedFiles, sortByCoverage, diffLines);
    }
  }

  /** Piped plain file names: each line is requested and no changed lines are recorded. */
  method FileListInput() {
    var p := new Program([], []);
    var err := p.ParseInput(Piped("x.go\ny.go", NotADiff));
    SplitLinesFileList();
    assert err == Pass;
    assert p.requestedFiles == ["x.go", "y.go"];
    assert p.diffLines == map[];
  }

  /** A piped diff: every file name is requested, but only the Go file keeps its changed lines. */
  method DiffInput(text: string) {
    var p := new Program([], []);
    var changed := map["c.go" := [42], "README.md" := [3]];
    var err := p.ParseInput(Piped(text, Diff(["c.go", "README.md"], changed)));
    assert IsGoFile("c.go") && !IsGoFile("README.md");
    assert p.diffLines == map["c.go" := [42]];
    assert p.requestedFiles == ["c.go", "README.md"];
  }

  /** Options apply in order: the second build information replaces the first, and flag defaults follow. */
  method LaterOptionsOverride() {
    var opts := [WithBuildInfo("v1", "c1", "d1"), WithLogFile("log"), WithBuildInfo("v2", "c2", "d2")];
    var p := new Program(["-version"], opts);
    LastOptionWins(Defaults(["-version"]), opts, 2);
    LastOptionWins(Defaults(["-version"]), opts, 1);
    UnsetFieldsKeepDefaults(Defaults(["-version"]), opts, WithModuleInfo("", ""));
    assert p.version == "v2" && p.commit == "c2" && p.date == "d2";
    assert p.logFile == "log" && p.modVersion == "";
    assert !p.showVersion && p.profileFilename == "coverage.out";
  }
}
