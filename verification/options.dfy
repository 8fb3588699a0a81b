/**
 * Functional options of program.New. Each option sets one group of the
 * program's configuration fields; New applies the options in the order they
 * are given, so for each group the last option of that kind decides.
 */
module Options {

  /** The configuration fields that options set. */
  datatype Config = Config(
    version: string,
    commit: string,
    date: string,
    modVersion: string,
    modSum: string,
    logFile: string,
    args: seq<string>)

  /** One option, named after the group of fields it sets. */
  datatype Option =
    | WithBuildInfo(version: string, commit: string, date: string)
    | WithModuleInfo(modVersion: string, modSum: string)
    | WithLogFile(logFile: string)
    | WithArgs(args: seq<string>)

  /** The configuration New starts from: no build or module information, no log file, the process arguments. */
  function Defaults(args: seq<string>): Config {
    Config("", "", "", "", "", "", args)
  }

  /** Running one option on a configuration: it sets its own fields and leaves every other group as it was. */
  function Apply(c: Config, o: Option): (r: Config)
    ensures Holds(r, o)
    ensures forall other :: !SameKind(o, other) ==> (Holds(r, other) <==> Holds(c, other))
  {
    match o
    case WithBuildInfo(v, cm, d) => c.(version := v, commit := cm, date := d)
    case WithModuleInfo(mv, ms) => c.(modVersion := mv, modSum := ms)
    case WithLogFile(f) => c.(logFile := f)
    case WithArgs(a) => c.(args := a)
  }

  /** Running the options in order, the first one first; the last option always takes effect. */
  function ApplyAll(c: Config, opts: seq<Option>): (r: Config)
    ensures opts != [] ==> Holds(r, opts[|opts| - 1])
    decreases |opts|
  {
    if opts == [] then c
    else Apply(ApplyAll(c, opts[..|opts| - 1]), opts[|opts| - 1])
  }

  /** Two options set the same group of fields. */
  predicate SameKind(a: Option, b: Option) {
    || (a.WithBuildInfo? && b.WithBuildInfo?)
    || (a.WithModuleInfo? && b.WithModuleInfo?)
    || (a.WithLogFile? && b.WithLogFile?)
    || (a.WithArgs? && b.WithArgs?)
  }

  /** The configuration holds the values that option `o` sets. */
  predicate Holds(c: Config, o: Option) {
    match o
    case WithBuildInfo(v, cm, d) => c.version == v && c.commit == cm && c.date == d
    case WithModuleInfo(mv, ms) => c.modVersion == mv && c.modSum == ms
    case WithLogFile(f) => c.logFile == f
    case WithArgs(a) => c.args == a
  }

  /** Applying one more option is applying it to the result of the others. */
  lemma ApplyAllSnoc(c: Config, opts: seq<Option>, o: Option)
    ensures ApplyAll(c, opts + [o]) == Apply(ApplyAll(c, opts), o)
  {
    assert (opts + [o])[..|opts|] == opts;
  }

  /**
   * A later option overrides an earlier one: the option at position i decides
   * its fields when no later option is of the same kind.
   */
  lemma {:induction false} LastOptionWins(c: Config, opts: seq<Option>, i: nat)
    requires i < |opts|
    requires forall j :: i < j < |opts| ==> !SameKind(opts[j], opts[i])
    ensures Holds(ApplyAll(c, opts), opts[i])
    decreases |opts|
  {
    var init, last := opts[..|opts| - 1], opts[|opts| - 1];
    if i < |opts| - 1 {
      assert !SameKind(last, opts[i]);
      assert forall j :: i < j < |init| ==> init[j] == opts[j];
      LastOptionWins(c, init, i);
      assert init[i] == opts[i];
    }
  }

  /** A group of fields that no option sets keeps the value it started with. */
  lemma {:induction false} UnsetFieldsKeepDefaults(c: Config, opts: seq<Option>, o: Option)
    requires forall j :: 0 <= j < |opts| ==> !SameKind(opts[j], o)
    ensures Holds(ApplyAll(c, opts), o) <==> Holds(c, o)
    decreases |opts|
  {
    if opts != [] {
      var init, last := opts[..|opts| - 1], opts[|opts| - 1];
      assert forall j :: 0 <= j < |init| ==> init[j] == opts[j];
      UnsetFieldsKeepDefaults(c, init, o);
    }
  }
}
