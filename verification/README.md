# gocovsh front end: reading piped input, version text, options

gocovsh shows Go test coverage in a terminal. Its `program` package is the
front end that runs before the coverage view starts. This project models that
front end in Dafny:

- **`Program.New`** builds a `Program` by running functional options in order.
  It then registers the command-line flags, which stores each flag's default
  in its field. The model is the class `Program.Program` and its constructor.
  The options themselves are the datatype `Options.Option`, and their effect is
  the fold `Options.ApplyAll`.
- **`Program.parseInput`** reads piped standard input.
  - If the text parses as a unified diff, `diffLines` becomes the diff's
    changed-line map. Every file whose name does not end in `.go` is then
    deleted from it in place. The new name of every file in the diff is
    appended to `requestedFiles`, in diff order.
  - If the text does not parse as a diff, this is not an error.
    `requestedFiles` becomes the lines of the text.
  - Input that is not a named pipe changes nothing.

  The model is the method `Program.Program.ParseInput`. It has the same two
  loops as the source: one deletes keys from the map field, the other appends
  to the sequence field. It is proved against the function
  `Program.AfterInput`.
- **`Program.splitLines`** turns `"\r\n"` into `"\n"` in a single
  left-to-right pass, then splits at every `'\n'`. It keeps empty lines. The
  model is `Lines.SplitLines`, built on models of `strings.ReplaceAll`
  (`GoStrings.ReplaceCRLF`) and `strings.Split` (`GoStrings.Split`).
- **The `-version` output** has three lines (version, commit, date). Two
  module lines are added only when the module version is not empty. The model
  is `Version.VersionText`.
- **`Program.Run`**, up to the point where the terminal UI takes over: parse
  the flags, print the version text if asked, otherwise read standard input
  and hand the configuration to the coverage view.

The diff parser is an outside library. It is modelled as an oracle value,
`Program.DiffParse`: either `NotADiff`, or `Diff(files, changed)`. Here
`files` holds each diff file's new name and `changed` is the diff's
changed-line map. Standard input is the value `Program.Stdin`: not a pipe, a
pipe whose read failed, or a pipe's text together with what the parser made
of it.

Points where the code's behaviour is easy to misread, each pinned by a lemma:

- Empty lines are kept, so a trailing newline gives a trailing `""`
  (`Lines.SplitLinesTrailingNewline`).
- Only `"\r\n"` pairs are replaced, in one pass, so `"a\r\r\n"` gives the
  line `"a\r"` (`Lines.SplitLinesSinglePass`).
- In the diff case, file names are appended to `requestedFiles` rather than
  replacing it. Names that do not end in `.go` are kept there too, because
  the `.go` filter applies only to `diffLines`.
- The flags are registered after the options are applied. Registration
  stores the defaults (`false`, `false`, `"coverage.out"`) in `showVersion`,
  `sortByCoverage` and `profileFilename`.
- Flag parsing assigns each flag as it reads it. When it stops at a bad
  argument, the flags read before it keep their new values
  (`Program.FlagParse`).

## Model

| member | source | states |
|---|---|---|
| `GoStrings.ReplaceCRLF` | internal/program/program.go:178 | replacing `"\r\n"` never lengthens the text |
| `GoStrings.ReplaceCRLFShortens` | internal/program/program.go:178 | the replacement makes the text strictly shorter exactly when the text holds a `"\r\n"` pair |
| `GoStrings.HasSuffix` | internal/program/program.go:154 | a text has a suffix exactly when it is some text followed by that suffix |
| `GoStrings.Split` | internal/program/program.go:178 | splitting at a character gives one more piece than there are separators, and no piece holds the separator |
| `GoStrings.JoinSplit` | internal/program/program.go:178 | joining the pieces of a split with the separator gives back the text |
| `GoStrings.SplitJoin` | internal/program/program.go:178 | splitting a join gives back the parts, when no part holds the separator |
| `GoStrings.SplitWithoutSeparator` | internal/program/program.go:178 | a text without the separator is a single piece |
| `GoStrings.SplitAfterFirst` | internal/program/program.go:178 | a separator-free prefix followed by the separator is the first piece, and the pieces of the rest follow |
| `GoStrings.SplitAppendSeparator` | internal/program/program.go:178 | a separator at the end of the text adds one empty piece |
| `GoStrings.ReplaceCRLFAppend` | internal/program/program.go:178 | the replacement distributes over a concatenation unless the cut splits a `"\r\n"` pair |
| `GoStrings.ReplaceCRLFFixed` | internal/program/program.go:178 | a text without `"\r\n"` is left unchanged |
| `GoStrings.ReplaceCRLFKeepsLineFeeds` | internal/program/program.go:178 | the replacement keeps the number of `'\n'` |
| `Lines.SplitLines` | internal/program/program.go:177-179 | there is one more line than the input has `'\n'`, and no line holds `'\n'` |
| `Lines.SplitLinesJoin` | internal/program/program.go:177-179 | the lines joined with `"\n"` are the input with every `"\r\n"` replaced by `"\n"` |
| `Lines.SplitLinesSingle` | internal/program/program.go:177-179 | input without `'\n'` is one line; the empty input is `[""]` |
| `Lines.SplitLinesOfCRLFText` | internal/program/program.go:177-179 | lines without `'\n'`, joined by `"\r\n"`, are read back exactly |
| `Lines.SplitLinesOfLFText` | internal/program/program.go:177-179 | lines without `'\n'`, joined by `"\n"`, are read back exactly when no line but the last ends in `'\r'` |
| `Lines.SplitLinesTrailingNewline` | internal/program/program.go:177-179 | a trailing newline adds one empty line; a `'\r'` before it is absorbed into the line ending |
| `Lines.SplitLinesSinglePass` | internal/program/program.go:178 | the replacement is one pass: `"a\r\r\n"` gives the lines `"a\r"` and `""` |
| `Lines.SplitLinesFileList` | internal/program/program.go:147-149 | piped `"x.go\ny.go"` gives the requests `["x.go", "y.go"]`; empty input gives `[""]` |
| `Version.VersionText` | internal/program/program.go:93-102 | the version output opens with the line `Version: <version>` and ends with a line feed |
| `Version.VersionLines` | internal/program/program.go:93-102 | the version output has five lines with a module version and three without |
| `Version.VersionTextIsJoin` | internal/program/program.go:93-102 | the version output is its lines, each ended by `'\n'` |
| `Version.VersionTextLines` | internal/program/program.go:93-102 | read back line by line, the output is exactly the version, commit and date lines, then the two module lines when there is a module version |
| `Version.ModuleLinesOnlyWithModVersion` | internal/program/program.go:97-102 | the output has a "Module Version" line and a "Module Checksum" line exactly when the module version is not empty |
| `Version.ModuleLinesInVersionLines` | internal/program/program.go:97-102 | among the output's lines, a module line is present exactly when the module version is not empty |
| `Options.Apply` | internal/program/program.go:45 | an option sets its own fields and leaves every other group of fields as it was |
| `Options.ApplyAll` | internal/program/program.go:44-46 | the options run first to last, so the last option's fields always hold its values |
| `Options.ApplyAllSnoc` | internal/program/program.go:44-46 | running one more option is running it on the result of the earlier ones |
| `Options.LastOptionWins` | internal/program/program.go:44-46 | an option decides its fields when no later option is of the same kind, so a later option overrides an earlier one |
| `Options.UnsetFieldsKeepDefaults` | internal/program/program.go:37-46 | a group of fields that no option sets keeps its initial value |
| `Program.GoFilesOnly` | internal/program/program.go:151-157 | the filtered changed-line map is part of the diff's map, with only `.go` files and their line lists unchanged |
| `Program.AfterInput` | internal/program/program.go:140-166 | only a piped diff replaces the changed-line map, which then holds `.go` files only; earlier requests stay in front unless text that is not a diff replaces them |
| `Program.GoFilesOnlyExact` | internal/program/program.go:151-157 | after filtering, the changed-line map holds exactly the diff's `.go` files, each with its line list unchanged |
| `Program.FallbackRequestsEveryLine` | internal/program/program.go:147-149 | for text that is not a diff, the requests are the lines of the text (empty ones included) and the changed-line map is unchanged |
| `Program.DiffRequestsEveryFile` | internal/program/program.go:150-161 | for a diff, only `.go` files keep changed lines, each with its list unchanged; every file name of the diff, `.go` or not, is appended to the requests in diff order |
| `Program.UnreadInputChangesNothing` | internal/program/program.go:141-145 | input that is not a named pipe, or that cannot be read, changes neither field |
| `Program.Program.constructor` | internal/program/program.go:36-61 | the options run in order on the defaults; the flag fields then hold their defaults; no files are requested and there are no changed lines |
| `Program.Program.ApplyOption` | internal/program/program.go:44-46 | one option changes the configuration as `Apply` says and changes no other field |
| `Program.Program.ParseInput` | internal/program/program.go:140-166 | the two input fields become `AfterInput` of their old values; a read failure is the only error; no other field changes |
| `Program.Program.Run` | internal/program/program.go:87-111 | the three flag fields hold what parsing assigned, also when it stopped at an error; a flag error then stops before the input is read; `-version` prints the version text and leaves the input fields alone; otherwise the input is read and the resulting configuration goes to the coverage view |

## Left out

- Flag parsing through `flag.FlagSet`, and the usage printer: this is standard-library plumbing. `Run` takes what parsing produced: the values of the three flags and whether it stopped at an error.
- The named-pipe check (`Stat` and `os.ModeNamedPipe`) and `io.ReadAll` of standard input are I/O. They are the `Stdin` value given to `ParseInput`.
- The internals of the diff parser and of its changed-line map come from an outside library. They are the `DiffParse` value. The model does not relate `files` and `changed` to the text.
- The option constructors are defined outside this file, and their source is not part of this model. `Options.Option` assumes four kinds, one for each group of `Program` fields that the program reads: build information, module information, log file and arguments.
- `Program.Program.Run`: does not model that the default flag set (`flag.CommandLine`) exits the process on a bad flag; the `"failed to parse flags"` error is the behaviour of a flag set that returns its errors, which an option would have to install. Which flags a partial parse has assigned is taken as given in `BadFlags`, not derived from the arguments.
- `Program.Program.Run`: does not model writing the version text to the output or a failed write. It also leaves out the log-file setup, `model.New` and the terminal UI event loop. The UI part is the `StartedView` outcome, which carries the configuration handed over.
- The coverage engine that the front end hands over to (profile parsing, per-line classification, sorting, navigation) is in `internal/model`. That package is not part of this model.
- Go's map iteration order is unspecified. The deletion loop in `ParseInput` takes the keys in an arbitrary order, and its result does not depend on that order.
