/**
 * The root command of the older `et` binary (package cmd/et, RunE of
 * rootCmd). Flag parsing is disabled in cobra and done by hand: a scan of the
 * arguments sets the package-level `dryRun` and `cfgFile` in place and finds
 * where the command arguments begin; a second pass looks for `--select` and
 * `--explain` anywhere. Then come the `config` subcommand, configuration
 * loading, explain mode, interactive selection, the single-argument file flow
 * (running every matched rule) and the command flow.
 */
module EtRoot {
  import opened Wrappers
  import opened Text
  import opened Domain
  import opened Matcher
  import opened History
  import opened Executor
  import opened Pipeline
  import opened Et
  import Explain

  const ConfigEq := "--config="

  /** Where the scan of the arguments ended. */
  datatype Stop =
    | Proceed             // go on with the command arguments found
    | ShowVersion         // "--version" or "-v": prints "et v0.1.0" and succeeds
    | ShowHelp            // "--help" or "-h": the command's help
    | ConfigValueMissing  // "--config" was the last argument

  /** The scan's end and the flags it leaves behind. */
  datatype Scanned = Scanned(stop: Stop, cfgFile: string, dryRun: bool, commandArgs: seq<string>)

  /**
   * The scan of `rest`, the arguments not yet looked at, with the flags as
   * they are so far.
   */
  function ScanArgs(rest: seq<string>, cfgFile: string, dryRun: bool): (r: Scanned)
    ensures r.stop != Proceed ==> r.commandArgs == []
    ensures dryRun ==> r.dryRun
    decreases |rest|
  {
    if rest == [] then Scanned(Proceed, cfgFile, dryRun, [])
    else
      var arg := rest[0];
      if arg == "--version" || arg == "-v" then Scanned(ShowVersion, cfgFile, dryRun, [])
      else if arg == "--help" || arg == "-h" then Scanned(ShowHelp, cfgFile, dryRun, [])
      else if arg == "--dry-run" then ScanArgs(rest[1..], cfgFile, true)
      else if arg == "--config" then
        if |rest| > 1 then ScanArgs(rest[2..], rest[1], dryRun)
        else Scanned(ConfigValueMissing, cfgFile, dryRun, [])
      else if HasPrefix(arg, ConfigEq) then ScanArgs(rest[1..], TrimPrefix(arg, ConfigEq), dryRun)
      else if arg == "--select" || arg == "-s" || arg == "--explain" then ScanArgs(rest[1..], cfgFile, dryRun)
      else if arg == "--" then Scanned(Proceed, cfgFile, dryRun, rest[1..])
      else Scanned(Proceed, cfgFile, dryRun, rest)
  }

  /** A flag the scan consumes on its own and moves past. */
  predicate Passed(arg: string) {
    arg == "--dry-run" || arg == "--select" || arg == "-s" || arg == "--explain" || HasPrefix(arg, ConfigEq)
  }

  /** The flags after the scan has moved past `pre`, a run of flags it consumes on their own. */
  function PassedFlags(pre: seq<string>, cfgFile: string, dryRun: bool): (string, bool)
    decreases |pre|
  {
    if pre == [] then (cfgFile, dryRun)
    else
      var arg := pre[0];
      PassedFlags(pre[1..], if HasPrefix(arg, ConfigEq) then TrimPrefix(arg, ConfigEq) else cfgFile,
                  dryRun || arg == "--dry-run")
  }

  /** The two modes the second loop over the arguments looks for. */
  datatype Modes = Modes(interactive: bool, explain: bool)

  /** What RunE's surroundings supply. */
  datatype Env = Env(
    loadConfig: string -> Result<Config, Error>,  // config.LoadConfig
    history: HistoryFile)                         // the history file the executor records into

  /** The package-level flags of cmd/et. */
  datatype Globals = Globals(cfgFile: string, dryRun: bool)

  /** How RunE ends. */
  datatype Outcome =
    | Version                               // "et v0.1.0" printed
    | Help                                  // cmd.Help()
    | Failed(error: Error)                  // an error before the executor exists
    | ConfigCommand(args: seq<string>)      // handleConfigCommand with these arguments
    | Explained(report: Explain.Report)     // the explain report
    | Executed(err: Option<Error>, sink: Sink)  // the executor's result and what it did

  /**
   * The single non-interactive argument: every matched rule in order, else the
   * default command or opener for a URL or existing file, else on to command
   * handling with that one argument.
   */
  function Single(h: Host, cfg: Config, dryRun: bool, s: Sink, filename: string): Step {
    MatchSound(h, cfg.rules, filename, 0);
    match MatchFrom(h, cfg.rules, filename, 0)
    case Err(e) => Step(Some(ErrorMatchingRule(e)), s)
    case Ok(ks) =>
      if |ks| > 0 then RunAll(h, dryRun, s, Pick(cfg.rules, ks), filename)
      else if IsUrl(h, filename) then WithDefault(h, cfg, dryRun, s, filename)
      else if h.fileExists(filename) then WithDefault(h, cfg, dryRun, s, filename)
      else HandleCommand(h, cfg, dryRun, s, [filename])
  }

  /** The interactive single argument: the options, the user's choice, and the chosen action. */
  function Interactive(h: Host, cfg: Config, dryRun: bool, s: Sink, filename: string): Step {
    match InteractiveOptions(h, cfg, filename)
    case Err(e) => Step(Some(e), s)
    case Ok(options) =>
      if |options| == 0 then Step(Some(NoMatchingRulesFor(filename)), s)
      else
        match h.select(Labels(options))
        case None => Step(Some(SelectionAborted), s)
        case Some(j) =>
          if j < |options| && (!options[j].isSystem ==> options[j].rule.Some?) then
            Selected(h, cfg, dryRun, s, options[j], filename)
          else Step(Some(SelectionAborted), s)
  }

  /** RunE once the configuration is loaded, with the executor's fresh sink `s`. */
  function Dispatch(h: Host, cfg: Config, dryRun: bool, s: Sink, args: seq<string>, commandArgs: seq<string>): (r: Outcome)
    requires |commandArgs| > 0
    ensures r.Explained? <==> "--explain" in args && |commandArgs| == 1
    ensures !r.Explained? ==> r.Executed?
    ensures r.Executed? ==> Extends(s, r.sink)
    ensures r.Executed? && dryRun ==> Quiet(s, r.sink)
  {
    var modes := Modes("--select" in args, "--explain" in args);
    if modes.explain && |commandArgs| == 1 then Explained(Explain.ExplainReport(h, cfg, commandArgs[0]))
    else if |commandArgs| == 1 && modes.interactive then
      var st := Interactive(h, cfg, dryRun, s, commandArgs[0]);
      Executed(st.err, st.sink)
    else if |commandArgs| == 1 then
      var st := Single(h, cfg, dryRun, s, commandArgs[0]);
      Executed(st.err, st.sink)
    else
      var st := HandleCommand(h, cfg, dryRun, s, commandArgs);
      Executed(st.err, st.sink)
  }

  /** RunE's result for the arguments, with the package-level flags as they were. */
  function RunOutcome(env: Env, h: Host, g: Globals, args: seq<string>): (r: Outcome)
    ensures args == [] ==> r == Failed(RequiresArgument)
    ensures |args| > 0 && (args[0] == "--version" || args[0] == "-v") ==> r == Version
    ensures |args| > 0 && (args[0] == "--help" || args[0] == "-h") ==> r == Help
    ensures r.Executed? && ScanArgs(args, g.cfgFile, g.dryRun).dryRun ==> r.sink.spawned == [] && r.sink.history == env.history
  {
    var sc := ScanArgs(args, g.cfgFile, g.dryRun);
    match sc.stop
    case ShowVersion => Version
    case ShowHelp => Help
    case ConfigValueMissing => Failed(FlagNeedsArgument)
    case Proceed =>
      if sc.commandArgs == [] then Failed(RequiresArgument)
      else if sc.commandArgs[0] == "config" then ConfigCommand(sc.commandArgs[1..])
      else
        match env.loadConfig(sc.cfgFile)
        case Err(e) => Failed(ErrorLoadingConfig(e))
        case Ok(cfg) => Dispatch(h, cfg, sc.dryRun, Sink("", [], env.history), args, sc.commandArgs)
  }

  /** The package-level flags after RunE: whatever the scan set before it stopped. */
  function GlobalsAfter(g: Globals, args: seq<string>): Globals {
    var sc := ScanArgs(args, g.cfgFile, g.dryRun);
    Globals(sc.cfgFile, sc.dryRun)
  }

  /** The package-level `cfgFile` and `dryRun`, and RunE. */
  class Root {
    var cfgFile: string
    var dryRun: bool

    function Current(): Globals
      reads this
    {
      Globals(cfgFile, dryRun)
    }

    constructor(g: Globals)
      ensures Current() == g
    {
      cfgFile := g.cfgFile;
      dryRun := g.dryRun;
    }

    /** RunE. */
    method RunE(env: Env, h: Host, args: seq<string>) returns (outcome: Outcome)
      modifies this
      ensures outcome == RunOutcome(env, h, old(Current()), args)
      ensures Current() == GlobalsAfter(old(Current()), args)
    {
      var stop, commandArgs := ScanFlags(args);
      if stop == ShowVersion {
        return Version;
      } else if stop == ShowHelp {
        return Help;
      } else if stop == ConfigValueMissing {
        return Failed(FlagNeedsArgument);
      }
      if |commandArgs| == 0 {
        return Failed(RequiresArgument);
      }
      if commandArgs[0] == "config" {
        return ConfigCommand(commandArgs[1..]);
      }
      var cfg := env.loadConfig(cfgFile);
      if cfg.Err? {
        return Failed(ErrorLoadingConfig(cfg.error));
      }
      outcome := DispatchArgs(h, cfg.value, dryRun, env.history, args, commandArgs);
    }

    /** The manual flag loop: sets the flags it meets and finds the command arguments. */
    method ScanFlags(args: seq<string>) returns (stop: Stop, commandArgs: seq<string>)
      modifies this
      ensures Scanned(stop, cfgFile, dryRun, commandArgs) == ScanArgs(args, old(cfgFile), old(dryRun))
    {
      var i := 0;
      while i < |args|
        invariant 0 <= i <= |args|
        invariant ScanArgs(args[i..], cfgFile, dryRun) == ScanArgs(args, old(cfgFile), old(dryRun))
        decreases |args| - i
      {
        var arg := args[i];
        assert args[i..][0] == arg && args[i..][1..] == args[i + 1..];
        if arg == "--version" || arg == "-v" {
          return ShowVersion, [];
        }
        if arg == "--help" || arg == "-h" {
          return ShowHelp, [];
        }
        if arg == "--dry-run" {
          dryRun := true;
        } else if arg == "--config" {
          if i + 1 < |args| {
            assert args[i..][2..] == args[i + 2..];
            cfgFile := args[i + 1];
            i := i + 1;
          } else {
            return ConfigValueMissing, [];
          }
        } else if HasPrefix(arg, ConfigEq) {
          cfgFile := TrimPrefix(arg, ConfigEq);
        } else if arg == "--select" || arg == "-s" || arg == "--explain" {
          // looked for by the second loop
        } else if arg == "--" {
          return Proceed, args[i + 1..];
        } else {
          // the first word, or an unknown flag: it and all that follows
          return Proceed, args[i..];
        }
        i := i + 1;
      }
      return Proceed, [];
    }
  }

  /** The second loop over all the arguments: `--select` and `--explain` anywhere turn the modes on. */
  method FindModes(args: seq<string>) returns (modes: Modes)
    ensures modes.interactive <==> "--select" in args
    ensures modes.explain <==> "--explain" in args
  {
    var interactive, explain := false, false;
    for k := 0 to |args|
      invariant interactive <==> "--select" in args[..k]
      invariant explain <==> "--explain" in args[..k]
    {
      assert args[..k + 1] == args[..k] + [args[k]];
      if args[k] == "--select" {
        interactive := true;
      }
      if args[k] == "--explain" {
        explain := true;
      }
    }
    assert args[..|args|] == args;
    return Modes(interactive, explain);
  }

  /** RunE after loading, with a fresh executor. */
  method DispatchArgs(h: Host, cfg: Config, dryRun: bool, history: HistoryFile, args: seq<string>, commandArgs: seq<string>)
    returns (outcome: Outcome)
    requires |commandArgs| > 0
    ensures outcome == Dispatch(h, cfg, dryRun, Sink("", [], history), args, commandArgs)
  {
    var exec := new Executor(dryRun, history);
    var modes := FindModes(args);
    if modes.explain && |commandArgs| == 1 {
      var report := Explain.HandleExplain(h, cfg, commandArgs[0]);
      return Explained(report);
    }
    if |commandArgs| == 1 {
      var filename := commandArgs[0];
      if modes.interactive {
        var err := InteractiveSelection(exec, h, cfg, filename);
        return Executed(err, exec.State());
      }
      var err := SingleArgument(exec, h, cfg, filename);
      return Executed(err, exec.State());
    }
    var err := HandleCommandExecution(exec, h, cfg, commandArgs);
    return Executed(err, exec.State());
  }

  /** The non-interactive single argument. */
  method SingleArgument(exec: Executor, h: Host, cfg: Config, filename: string) returns (err: Option<Error>)
    modifies exec
    ensures Step(err, exec.State()) == Single(h, cfg, exec.dryRun, old(exec.State()), filename)
  {
    var rules := Match(h, cfg.rules, filename);
    if rules.Err? {
      return Some(ErrorMatchingRule(rules.error));
    }
    MatchSound(h, cfg.rules, filename, 0);
    if |rules.value| > 0 {
      err := Et.ExecuteRules(exec, h, Pick(cfg.rules, rules.value), filename);
      return;
    }
    if IsUrl(h, filename) {
      err := ExecuteWithDefault(exec, h, cfg, filename);
      return;
    }
    if h.fileExists(filename) {
      err := ExecuteWithDefault(exec, h, cfg, filename);
      return;
    }
    err := HandleCommandExecution(exec, h, cfg, [filename]);
  }

  /** The interactive single argument. */
  method InteractiveSelection(exec: Executor, h: Host, cfg: Config, filename: string) returns (err: Option<Error>)
    modifies exec
    ensures Step(err, exec.State()) == Interactive(h, cfg, exec.dryRun, old(exec.State()), filename)
  {
    var options := BuildInteractiveOptions(h, cfg, filename);
    if options.Err? {
      return Some(options.error);
    }
    if |options.value| == 0 {
      return Some(NoMatchingRulesFor(filename));
    }
    var selected := h.select(Labels(options.value));
    if selected.None? || selected.value >= |options.value| {
      return Some(SelectionAborted);
    }
    var choice := options.value[selected.value];
    if !choice.isSystem && choice.rule.None? {
      return Some(SelectionAborted);
    }
    err := Et.ExecuteSelectedOption(exec, h, cfg, choice, filename);
  }

  // ---------------------------------------------------------------------
  // Properties of the scan

  /**
   * Moving past consumed flags: "--dry-run" anywhere among them sets the
   * dry-run flag, and the last "--config=" among them gives the configuration
   * file (none leaves it as it was).
   */
  lemma {:induction false} PassedFlagsFacts(pre: seq<string>, cfgFile: string, dryRun: bool)
    ensures PassedFlags(pre, cfgFile, dryRun).1 <==> dryRun || "--dry-run" in pre
    ensures (forall k :: 0 <= k < |pre| ==> !HasPrefix(pre[k], ConfigEq)) ==> PassedFlags(pre, cfgFile, dryRun).0 == cfgFile
    ensures forall k :: 0 <= k < |pre| && HasPrefix(pre[k], ConfigEq)
                     && (forall j :: k < j < |pre| ==> !HasPrefix(pre[j], ConfigEq))
                     ==> PassedFlags(pre, cfgFile, dryRun).0 == TrimPrefix(pre[k], ConfigEq)
    decreases |pre|
  {
    PassedDryRun(pre, cfgFile, dryRun);
    if forall k :: 0 <= k < |pre| ==> !HasPrefix(pre[k], ConfigEq) {
      PassedNoConfig(pre, cfgFile, dryRun);
    }
    forall k | 0 <= k < |pre| && HasPrefix(pre[k], ConfigEq) && (forall j :: k < j < |pre| ==> !HasPrefix(pre[j], ConfigEq))
      ensures PassedFlags(pre, cfgFile, dryRun).0 == TrimPrefix(pre[k], ConfigEq)
    {
      PassedLastConfig(pre, k, cfgFile, dryRun);
    }
  }

  lemma {:induction false} PassedDryRun(pre: seq<string>, cfgFile: string, dryRun: bool)
    ensures PassedFlags(pre, cfgFile, dryRun).1 <==> dryRun || "--dry-run" in pre
    decreases |pre|
  {
    if pre != [] {
      var arg := pre[0];
      var c := if HasPrefix(arg, ConfigEq) then TrimPrefix(arg, ConfigEq) else cfgFile;
      PassedDryRun(pre[1..], c, dryRun || arg == "--dry-run");
      assert pre == [arg] + pre[1..];
    }
  }

  lemma {:induction false} PassedNoConfig(pre: seq<string>, cfgFile: string, dryRun: bool)
    requires forall k :: 0 <= k < |pre| ==> !HasPrefix(pre[k], ConfigEq)
    ensures PassedFlags(pre, cfgFile, dryRun).0 == cfgFile
    decreases |pre|
  {
    if pre != [] {
      forall j | 0 <= j < |pre[1..]|
        ensures !HasPrefix(pre[1..][j], ConfigEq)
      {
        assert pre[1..][j] == pre[j + 1];
      }
      PassedNoConfig(pre[1..], cfgFile, dryRun || pre[0] == "--dry-run");
    }
  }

  lemma {:induction false} PassedLastConfig(pre: seq<string>, k: nat, cfgFile: string, dryRun: bool)
    requires k < |pre| && HasPrefix(pre[k], ConfigEq)
    requires forall j :: k < j < |pre| ==> !HasPrefix(pre[j], ConfigEq)
    ensures PassedFlags(pre, cfgFile, dryRun).0 == TrimPrefix(pre[k], ConfigEq)
    decreases |pre|
  {
    var arg := pre[0];
    var c := if HasPrefix(arg, ConfigEq) then TrimPrefix(arg, ConfigEq) else cfgFile;
    var d := dryRun || arg == "--dry-run";
    if k > 0 {
      assert pre[1..][k - 1] == pre[k];
      forall j | k - 1 < j < |pre[1..]|
        ensures !HasPrefix(pre[1..][j], ConfigEq)
      {
        assert pre[1..][j] == pre[j + 1];
      }
      PassedLastConfig(pre[1..], k - 1, c, d);
    } else {
      forall j | 0 <= j < |pre[1..]|
        ensures !HasPrefix(pre[1..][j], ConfigEq)
      {
        assert pre[1..][j] == pre[j + 1];
      }
      PassedNoConfig(pre[1..], c, d);
    }
  }

  /** The scan moves past a run of flags it consumes on their own, setting what they set. */
  lemma {:induction false} SkipsPassedFlags(pre: seq<string>, rest: seq<string>, cfgFile: string, dryRun: bool)
    requires forall k :: 0 <= k < |pre| ==> Passed(pre[k])
    ensures var f := PassedFlags(pre, cfgFile, dryRun);
      ScanArgs(pre + rest, cfgFile, dryRun) == ScanArgs(rest, f.0, f.1)
    decreases |pre|
  {
    if pre == [] {
      assert pre + rest == rest;
    } else {
      var arg := pre[0];
      assert (pre + rest)[0] == arg && (pre + rest)[1..] == pre[1..] + rest;
      PassedIsNotStop(arg);
      var c := if HasPrefix(arg, ConfigEq) then TrimPrefix(arg, ConfigEq) else cfgFile;
      assert ScanArgs(pre + rest, cfgFile, dryRun) == ScanArgs(pre[1..] + rest, c, dryRun || arg == "--dry-run");
      SkipsPassedFlags(pre[1..], rest, c, dryRun || arg == "--dry-run");
    }
  }

  /** An argument that is neither a consumed flag nor one the scan stops or branches on. */
  predicate Begins(arg: string) {
    !Passed(arg) && arg != "--version" && arg != "-v" && arg != "--help" && arg != "-h" && arg != "--config"
  }

  /** An argument "--config=…" is a dash argument of at least nine characters, none of the literal flags. */
  lemma ConfigEqShape(arg: string)
    requires HasPrefix(arg, ConfigEq)
    ensures |arg| >= 9 && HasPrefix(arg, "-") && arg[8] == '='
    ensures arg != "--version" && arg != "--help" && arg != "--config" && arg != "--dry-run" && arg != "--explain"
  {
    assert arg[..9] == ConfigEq;
    assert arg[0] == arg[..9][0] && arg[8] == arg[..9][8];
  }

  /** A consumed flag is none of the arguments the scan stops or branches on. */
  lemma PassedIsNotStop(arg: string)
    requires Passed(arg)
    ensures arg != "--version" && arg != "-v" && arg != "--help" && arg != "-h" && arg != "--config" && arg != "--"
    ensures HasPrefix(arg, ConfigEq) ==> arg != "--dry-run"
  {
    if HasPrefix(arg, ConfigEq) {
      ConfigEqShape(arg);
    }
  }

  /** A word that does not start with a dash begins the command arguments. */
  lemma WordBegins(word: string)
    requires !HasPrefix(word, "-")
    ensures Begins(word) && word != "--"
  {
  }

  /**
   * After consumed flags, "--" makes what follows it the command arguments,
   * and any other argument (a word or an unknown flag) begins them itself.
   */
  lemma WhereCommandBegins(pre: seq<string>, arg: string, rest: seq<string>, cfgFile: string, dryRun: bool)
    requires forall k :: 0 <= k < |pre| ==> Passed(pre[k])
    requires Begins(arg)
    ensures var f := PassedFlags(pre, cfgFile, dryRun);
      ScanArgs(pre + [arg] + rest, cfgFile, dryRun)
        == Scanned(Proceed, f.0, f.1, if arg == "--" then rest else [arg] + rest)
  {
    assert pre + [arg] + rest == pre + ([arg] + rest);
    SkipsPassedFlags(pre, [arg] + rest, cfgFile, dryRun);
    assert ([arg] + rest)[1..] == rest;
  }

  /** "--config" takes the next argument as the configuration file, whatever it looks like. */
  lemma ConfigTakesNext(pre: seq<string>, value: string, rest: seq<string>, cfgFile: string, dryRun: bool)
    requires forall k :: 0 <= k < |pre| ==> Passed(pre[k])
    ensures var f := PassedFlags(pre, cfgFile, dryRun);
      ScanArgs(pre + ["--config", value] + rest, cfgFile, dryRun) == ScanArgs(rest, value, f.1)
  {
    assert pre + ["--config", value] + rest == pre + (["--config", value] + rest);
    SkipsPassedFlags(pre, ["--config", value] + rest, cfgFile, dryRun);
    assert (["--config", value] + rest)[2..] == rest;
  }

  /** A trailing "--config" is the error "flag needs an argument". */
  lemma TrailingConfigFails(env: Env, h: Host, g: Globals, pre: seq<string>)
    requires forall k :: 0 <= k < |pre| ==> Passed(pre[k])
    ensures ScanArgs(pre + ["--config"], g.cfgFile, g.dryRun).stop == ConfigValueMissing
    ensures RunOutcome(env, h, g, pre + ["--config"]) == Failed(FlagNeedsArgument)
  {
    SkipsPassedFlags(pre, ["--config"], g.cfgFile, g.dryRun);
    MissingValueFails(env, h, g, pre + ["--config"]);
  }

  /** A scan that stops for a missing value ends RunE with "flag needs an argument". */
  lemma MissingValueFails(env: Env, h: Host, g: Globals, args: seq<string>)
    requires ScanArgs(args, g.cfgFile, g.dryRun).stop == ConfigValueMissing
    ensures RunOutcome(env, h, g, args) == Failed(FlagNeedsArgument)
  {
  }

  /** The command arguments are always a suffix of the arguments, and empty unless the scan proceeds. */
  lemma {:induction false} CommandArgsSuffix(args: seq<string>, cfgFile: string, dryRun: bool)
    ensures var sc := ScanArgs(args, cfgFile, dryRun);
      && (exists j :: 0 <= j <= |args| && sc.commandArgs == args[j..])
      && (sc.stop != Proceed ==> sc.commandArgs == [])
    decreases |args|
  {
    var sc := ScanArgs(args, cfgFile, dryRun);
    if args == [] {
      assert sc.commandArgs == args[0..];
    } else {
      var arg := args[0];
      if arg == "--version" || arg == "-v" || arg == "--help" || arg == "-h" {
        assert sc.commandArgs == args[|args|..];
      } else if arg == "--dry-run" || HasPrefix(arg, ConfigEq) || arg == "--select" || arg == "-s" || arg == "--explain" {
        var c := if arg == "--dry-run" || !HasPrefix(arg, ConfigEq) then cfgFile else TrimPrefix(arg, ConfigEq);
        var d := dryRun || arg == "--dry-run";
        assert sc == ScanArgs(args[1..], c, d);
        CommandArgsSuffix(args[1..], c, d);
        var j :| 0 <= j <= |args[1..]| && sc.commandArgs == args[1..][j..];
        assert args[1..][j..] == args[j + 1..];
      } else if arg == "--config" {
        if |args| > 1 {
          CommandArgsSuffix(args[2..], args[1], dryRun);
          var j :| 0 <= j <= |args[2..]| && sc.commandArgs == args[2..][j..];
          assert args[2..][j..] == args[j + 2..];
        } else {
          assert sc.commandArgs == args[|args|..];
        }
      } else if arg == "--" {
        assert sc.commandArgs == args[1..];
      } else {
        assert sc.commandArgs == args[0..];
      }
    }
  }

  /** The dry-run flag is only ever switched on, and only by "--dry-run". */
  lemma {:induction false} DryRunOnlyByFlag(args: seq<string>, cfgFile: string, dryRun: bool)
    ensures dryRun ==> ScanArgs(args, cfgFile, dryRun).dryRun
    ensures ScanArgs(args, cfgFile, dryRun).dryRun ==> dryRun || "--dry-run" in args
    decreases |args|
  {
    if args != [] {
      var arg := args[0];
      assert forall a :: a in args[1..] ==> a in args;
      if arg == "--dry-run" || HasPrefix(arg, ConfigEq) || arg == "--select" || arg == "-s" || arg == "--explain" {
        if arg != "--version" && arg != "-v" && arg != "--help" && arg != "-h" {
          DryRunOnlyByFlag(args[1..], if arg == "--dry-run" || !HasPrefix(arg, ConfigEq) then cfgFile else TrimPrefix(arg, ConfigEq),
                           dryRun || arg == "--dry-run");
        }
      } else if arg == "--config" && |args| > 1 {
        assert forall a :: a in args[2..] ==> a in args;
        DryRunOnlyByFlag(args[2..], args[1], dryRun);
      }
    }
  }

  // ---------------------------------------------------------------------
  // Properties of RunE

  /** Consumed flags alone, or followed by "--" alone, leave no command: "requires at least 1 argument". */
  lemma NoCommandFails(env: Env, h: Host, g: Globals, pre: seq<string>)
    requires forall k :: 0 <= k < |pre| ==> Passed(pre[k])
    ensures RunOutcome(env, h, g, pre) == Failed(RequiresArgument)
    ensures RunOutcome(env, h, g, pre + ["--"]) == Failed(RequiresArgument)
  {
    SkipsPassedFlags(pre, [], g.cfgFile, g.dryRun);
    assert pre + [] == pre;
    WhereCommandBegins(pre, "--", [], g.cfgFile, g.dryRun);
    assert pre + ["--"] + [] == pre + ["--"];
  }

  /** A first command argument "config" goes to the config handler with the rest, before any configuration is read. */
  lemma ConfigSubcommand(env: Env, h: Host, g: Globals, pre: seq<string>, rest: seq<string>)
    requires forall k :: 0 <= k < |pre| ==> Passed(pre[k])
    ensures RunOutcome(env, h, g, pre + ["config"] + rest) == ConfigCommand(rest)
  {
    WhereCommandBegins(pre, "config", rest, g.cfgFile, g.dryRun);
    assert (["config"] + rest)[1..] == rest;
  }

  /**
   * Once the scan has found one command argument other than "config", and
   * neither "--select" nor "--explain" is among the arguments ("-s" does not
   * count), RunE loads the configuration the scan named and takes the
   * single-argument flow with the dry-run flag the scan left.
   */
  lemma ScannedSingle(env: Env, h: Host, g: Globals, args: seq<string>, cfgFile: string, dryRun: bool, file: string, cfg: Config)
    requires ScanArgs(args, g.cfgFile, g.dryRun) == Scanned(Proceed, cfgFile, dryRun, [file])
    requires file != "config" && "--select" !in args && "--explain" !in args && env.loadConfig(cfgFile) == Ok(cfg)
    ensures var st := Single(h, cfg, dryRun, Sink("", [], env.history), file);
      RunOutcome(env, h, g, args) == Executed(st.err, st.sink)
  {
  }

  /**
   * A word after consumed flags is the one command argument; the flags are
   * those the consumed ones set, and neither mode flag is on unless it was
   * among them.
   */
  lemma WordAfterFlags(pre: seq<string>, file: string, cfgFile: string, dryRun: bool)
    requires forall k :: 0 <= k < |pre| ==> Passed(pre[k])
    requires !HasPrefix(file, "-") && "--select" !in pre && "--explain" !in pre
    ensures var f := PassedFlags(pre, cfgFile, dryRun);
      ScanArgs(pre + [file], cfgFile, dryRun) == Scanned(Proceed, f.0, f.1, [file])
    ensures "--select" !in pre + [file] && "--explain" !in pre + [file]
  {
    WordBegins(file);
    WhereCommandBegins(pre, file, [], cfgFile, dryRun);
    assert pre + [file] + [] == pre + [file];
  }

  /**
   * Everything after the first word belongs to the command, flags included:
   * with more than one command argument, "--explain" and "--select" change
   * nothing and the arguments go to command handling.
   */
  lemma FlagsAfterWordAreArguments(env: Env, h: Host, g: Globals, word: string, rest: seq<string>, cfg: Config)
    requires !HasPrefix(word, "-") && word != "config" && rest != []
    requires env.loadConfig(g.cfgFile) == Ok(cfg)
    ensures var st := HandleCommand(h, cfg, g.dryRun, Sink("", [], env.history), [word] + rest);
      RunOutcome(env, h, g, [word] + rest) == Executed(st.err, st.sink)
  {
    WordBegins(word);
    assert ([word] + rest)[0] == word;
  }

  /**
   * The single-argument flow is handleFileExecution, except that "no rule
   * and neither a URL nor a file" goes on to command handling instead of
   * failing; a matcher error is final.
   */
  lemma SingleIsFileThenCommand(h: Host, cfg: Config, dryRun: bool, s: Sink, filename: string)
    ensures MatchFrom(h, cfg.rules, filename, 0) == Ok([]) && !IsFileOrUrl(h, filename) ==>
      && Et.HandleFile(h, cfg, dryRun, s, filename) == Step(Some(FileNotFoundNoRule), s)
      && Single(h, cfg, dryRun, s, filename) == HandleCommand(h, cfg, dryRun, s, [filename])
    ensures !(MatchFrom(h, cfg.rules, filename, 0) == Ok([]) && !IsFileOrUrl(h, filename)) ==>
      Single(h, cfg, dryRun, s, filename) == Et.HandleFile(h, cfg, dryRun, s, filename)
  {
  }

  /** With no scripts and no empty commands, the interactive flow is the `entry` command's. */
  lemma InteractiveAgrees(h: Host, cfg: Config, dryRun: bool, s: Sink, filename: string)
    requires forall k :: 0 <= k < |cfg.rules| ==> Plain(cfg.rules[k])
    ensures Interactive(h, cfg, dryRun, s, filename) == HandleInteractive(h, cfg, dryRun, s, filename)
  {
    InteractiveOptionsShape(h, cfg, filename);
    match InteractiveOptions(h, cfg, filename)
    case Err(_) =>
    case Ok(options) =>
      if |options| > 0 && h.select(Labels(options)).Some? {
        var j := h.select(Labels(options)).value;
        if j < |options| && !options[j].isSystem {
          MatchAllExact(h, cfg.rules, filename, 0);
          var ks := MatchAllFrom(h, cfg.rules, filename, 0).value;
          assert j < |ks|;
          assert options[j].rule == Some(cfg.rules[ks[j]]);
          SelectedAgrees(h, cfg, dryRun, s, options[j], filename);
        }
      }
  }

  /** In dry-run mode the single-argument flow starts no process and records no history. */
  lemma DryRunSingleSpawnsNothing(h: Host, cfg: Config, s: Sink, filename: string)
    ensures Single(h, cfg, true, s, filename).sink.spawned == s.spawned
    ensures Single(h, cfg, true, s, filename).sink.history == s.history
  {
    MatchSound(h, cfg.rules, filename, 0);
    match MatchFrom(h, cfg.rules, filename, 0)
    case Err(_) =>
    case Ok(ks) =>
      if |ks| > 0 {
        DryRunAllSpawnsNothing(h, s, Pick(cfg.rules, ks), filename);
      } else if IsFileOrUrl(h, filename) {
        DryRunDefaultSpawnsNothing(h, cfg, s, filename);
      } else {
        DryRunCommandSpawnsNothing(h, cfg, s, [filename]);
      }
  }

  /** In dry-run mode the interactive flow starts no process and records no history. */
  lemma DryRunInteractiveSpawnsNothing(h: Host, cfg: Config, s: Sink, filename: string)
    ensures Interactive(h, cfg, true, s, filename).sink.spawned == s.spawned
    ensures Interactive(h, cfg, true, s, filename).sink.history == s.history
  {
    match InteractiveOptions(h, cfg, filename)
    case Err(_) =>
    case Ok(options) =>
      if |options| > 0 && h.select(Labels(options)).Some? {
        var j := h.select(Labels(options)).value;
        if j < |options| && (!options[j].isSystem ==> options[j].rule.Some?) {
          if options[j].isSystem {
            DryRunDefaultSpawnsNothing(h, cfg, s, filename);
          } else {
            var rule := options[j].rule.value;
            DryRunExecute(h, s, rule.command, filename, Options(rule.background, rule.terminal));
          }
        }
      }
  }

  /** Once the scan has set the dry-run flag, RunE starts no process and records no history. */
  lemma DryRunRunSpawnsNothing(env: Env, h: Host, g: Globals, args: seq<string>)
    requires ScanArgs(args, g.cfgFile, g.dryRun).dryRun
    ensures var o := RunOutcome(env, h, g, args);
      o.Executed? ==> o.sink.spawned == [] && o.sink.history == env.history
  {
    var sc := ScanArgs(args, g.cfgFile, g.dryRun);
    var s := Sink("", [], env.history);
    if sc.stop == Proceed && sc.commandArgs != [] && sc.commandArgs[0] != "config" && env.loadConfig(sc.cfgFile).Ok? {
      var cfg := env.loadConfig(sc.cfgFile).value;
      var c := sc.commandArgs;
      if !("--explain" in args && |c| == 1) {
        if |c| == 1 && "--select" in args {
          DryRunInteractiveSpawnsNothing(h, cfg, s, c[0]);
        } else if |c| == 1 {
          DryRunSingleSpawnsNothing(h, cfg, s, c[0]);
        } else {
          DryRunCommandSpawnsNothing(h, cfg, s, c);
        }
      }
    }
  }
}
