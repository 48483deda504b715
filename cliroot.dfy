/**
 * The root command of `entry` (package internal/cli, runRoot) once its flags
 * are parsed: help when no argument is left, a subcommand when the arguments
 * name one, the profile and configuration-file resolution (which updates the
 * `profile` and `cfgFile` flags in place), and the routing of the arguments to
 * explain mode, interactive selection, file execution (falling back to command
 * execution) or command execution.
 */
module CliRoot {
  import opened Wrappers
  import opened Domain
  import opened History
  import opened Executor
  import opened Pipeline
  import Explain

  /** What runRoot's surroundings supply. */
  datatype Env = Env(
    entryProfile: string,                         // os.Getenv("ENTRY_PROFILE")
    profilePath: string -> Option<string>,        // config.GetConfigPathWithProfile; None when it fails
    loggerStarts: bool,                           // initLogger succeeds
    loadConfig: string -> Result<Config, Error>,  // config.LoadConfig
    isSubcommand: seq<string> -> bool,            // cobra's Find names a subcommand other than the root
    history: HistoryFile)                         // the history file the executor records into

  /** The parsed flags runRoot reads; `cfgFile` and `profile` are the ones it updates. */
  datatype Flags = Flags(cfgFile: string, profile: string, dryRun: bool, interactive: bool, explain: bool)

  /** How runRoot ends. */
  datatype Outcome =
    | Help                                  // cmd.Help()
    | Subcommand(args: seq<string>)         // the subcommand runs with the arguments
    | Failed(error: Error)                  // an error before the executor exists
    | Explained(report: Explain.Report)     // handleExplain's report
    | Executed(err: Option<Error>, sink: Sink)  // the executor's result and what it did

  /** The profile in effect: the flag, else ENTRY_PROFILE. */
  function ProfileFor(env: Env, profile: string): string {
    if profile == "" && env.entryProfile != "" then env.entryProfile else profile
  }

  /** The configuration file: the flag, else the profile's file when a profile is in effect. */
  function ConfigPath(env: Env, cfgFile: string, profile: string): Result<string, Error> {
    if cfgFile == "" && profile != "" then
      match env.profilePath(profile)
      case None => Err(ProfilePathError(profile))
      case Some(path) => Ok(path)
    else Ok(cfgFile)
  }

  /** Profile resolution, logger start-up and configuration loading, in that order. */
  function LoadFor(env: Env, f: Flags): Result<Config, Error> {
    match ConfigPath(env, f.cfgFile, ProfileFor(env, f.profile))
    case Err(e) => Err(e)
    case Ok(path) =>
      if !env.loggerStarts then Err(LoggerInitError)
      else
        match env.loadConfig(path)
        case Err(e) => Err(ErrorLoadingConfig(e))
        case Ok(cfg) => Ok(cfg)
  }

  /** The routing of the arguments once the configuration is loaded, from the executor's fresh sink `s`. */
  function Route(h: Host, cfg: Config, f: Flags, s: Sink, args: seq<string>): (r: Outcome)
    requires |args| > 0
    ensures r.Explained? <==> f.explain && |args| == 1
    ensures !r.Explained? ==> r.Executed?
    ensures r.Executed? ==> Extends(s, r.sink)
    ensures r.Executed? && f.dryRun ==> Quiet(s, r.sink)
  {
    if f.explain && |args| == 1 then Explained(Explain.ExplainReport(h, cfg, args[0]))
    else if |args| == 1 && f.interactive then
      var st := HandleInteractive(h, cfg, f.dryRun, s, args[0]);
      Executed(st.err, st.sink)
    else if |args| == 1 then
      var st := HandleFile(h, cfg, f.dryRun, s, args[0]);
      if st.err.None? then Executed(None, st.sink)
      else
        var st2 := HandleCommand(h, cfg, f.dryRun, st.sink, args);
        Executed(st2.err, st2.sink)
    else
      var st := HandleCommand(h, cfg, f.dryRun, s, args);
      Executed(st.err, st.sink)
  }

  /** runRoot's result for the arguments left after flag parsing. */
  function RootOutcome(env: Env, h: Host, f: Flags, args: seq<string>): (r: Outcome)
    ensures args == [] ==> r == Help
    ensures |args| > 0 && env.isSubcommand(args) ==> r == Subcommand(args)
    ensures r.Failed? ==> LoadFor(env, f).Err? && r.error == LoadFor(env, f).error
    ensures r.Executed? && f.dryRun ==> r.sink.spawned == [] && r.sink.history == env.history
  {
    if |args| < 1 then Help
    else if env.isSubcommand(args) then Subcommand(args)
    else
      match LoadFor(env, f)
      case Err(e) => Failed(e)
      case Ok(cfg) => Route(h, cfg, f, Sink("", [], env.history), args)
  }

  /** The flags after runRoot: the profile is filled in, then the configuration file when it resolves. */
  function FlagsAfter(env: Env, f: Flags, args: seq<string>): Flags {
    if |args| < 1 || env.isSubcommand(args) then f
    else
      var profile := ProfileFor(env, f.profile);
      match ConfigPath(env, f.cfgFile, profile)
      case Err(_) => f.(profile := profile)
      case Ok(path) => f.(profile := profile, cfgFile := path)
  }

  /** The package-level flags of internal/cli and the root command's handler. */
  class Root {
    var cfgFile: string
    var profile: string
    const dryRun: bool
    const interactive: bool
    const explain: bool

    function Current(): Flags
      reads this
    {
      Flags(cfgFile, profile, dryRun, interactive, explain)
    }

    constructor(f: Flags)
      ensures Current() == f
    {
      cfgFile := f.cfgFile;
      profile := f.profile;
      dryRun := f.dryRun;
      interactive := f.interactive;
      explain := f.explain;
    }

    /** runRoot from the positional arguments on. */
    method RunRoot(env: Env, h: Host, args: seq<string>) returns (outcome: Outcome)
      modifies this
      ensures outcome == RootOutcome(env, h, old(Current()), args)
      ensures Current() == FlagsAfter(env, old(Current()), args)
    {
      if |args| < 1 {
        return Help;
      }
      if env.isSubcommand(args) {
        return Subcommand(args);
      }
      var loaded := LoadConfig(env);
      if loaded.Err? {
        return Failed(loaded.error);
      }
      outcome := RouteArgs(h, loaded.value, Current(), env.history, args);
    }

    /** Profile and configuration-file resolution, logger start-up and loading. */
    method LoadConfig(env: Env) returns (loaded: Result<Config, Error>)
      modifies this
      ensures loaded == LoadFor(env, old(Current()))
      ensures Current() == old(Current()).(
        profile := ProfileFor(env, old(profile)),
        cfgFile := match ConfigPath(env, old(cfgFile), ProfileFor(env, old(profile)))
          case Ok(path) => path
          case Err(_) => old(cfgFile))
    {
      if profile == "" && env.entryProfile != "" {
        profile := env.entryProfile;
      }
      if cfgFile == "" && profile != "" {
        var resolved := env.profilePath(profile);
        if resolved.None? {
          return Err(ProfilePathError(profile));
        }
        cfgFile := resolved.value;
      }
      if !env.loggerStarts {
        return Err(LoggerInitError);
      }
      var result := env.loadConfig(cfgFile);
      if result.Err? {
        return Err(ErrorLoadingConfig(result.error));
      }
      return Ok(result.value);
    }
  }

  /** The routing tail of runRoot, with a fresh executor. */
  method RouteArgs(h: Host, cfg: Config, f: Flags, history: HistoryFile, args: seq<string>) returns (outcome: Outcome)
    requires |args| > 0
    ensures outcome == Route(h, cfg, f, Sink("", [], history), args)
  {
    var exec := new Executor(f.dryRun, history);

    if f.explain {
      if |args| == 1 {
        var report := Explain.HandleExplain(h, cfg, args[0]);
        return Explained(report);
      }
    }
    if |args| == 1 {
      var filename := args[0];
      if f.interactive {
        var err := HandleInteractiveExecution(exec, h, cfg, filename);
        return Executed(err, exec.State());
      }
      var err := HandleFileExecution(exec, h, cfg, filename);
      if err.None? {
        return Executed(None, exec.State());
      }
    }
    var err := HandleCommandExecution(exec, h, cfg, args);
    return Executed(err, exec.State());
  }

  // ---------------------------------------------------------------------
  // Properties

  /** With no positional argument the help is shown and nothing else happens. */
  lemma NoArgumentsShowHelp(env: Env, h: Host, f: Flags)
    ensures RootOutcome(env, h, f, []) == Help
    ensures FlagsAfter(env, f, []) == f
  {
  }

  /**
   * ENTRY_PROFILE counts only when --profile is empty; the profile's file counts
   * only when --config is empty, and a profile whose path cannot be resolved is
   * an error.
   */
  lemma ProfileAndConfigSources(env: Env, h: Host, f: Flags, args: seq<string>)
    requires |args| > 0 && !env.isSubcommand(args)
    ensures f.profile != "" ==> FlagsAfter(env, f, args).profile == f.profile
    ensures f.profile == "" ==> FlagsAfter(env, f, args).profile == env.entryProfile
    ensures f.cfgFile != "" ==> FlagsAfter(env, f, args).cfgFile == f.cfgFile
    ensures var p := FlagsAfter(env, f, args).profile;
      f.cfgFile == "" && p != "" ==>
        (env.profilePath(p).None? <==> RootOutcome(env, h, f, args) == Failed(ProfilePathError(p)))
    ensures var p := FlagsAfter(env, f, args).profile;
      f.cfgFile == "" && p != "" && env.profilePath(p).Some? ==> FlagsAfter(env, f, args).cfgFile == env.profilePath(p).value
  {
  }

  /** A configuration that does not load is reported, wrapped, before any execution. */
  lemma LoadFailureRunsNothing(env: Env, h: Host, f: Flags, args: seq<string>, e: Error)
    requires |args| > 0 && !env.isSubcommand(args) && env.loggerStarts
    requires ConfigPath(env, f.cfgFile, ProfileFor(env, f.profile)).Ok?
    requires env.loadConfig(ConfigPath(env, f.cfgFile, ProfileFor(env, f.profile)).value) == Err(e)
    ensures RootOutcome(env, h, f, args) == Failed(ErrorLoadingConfig(e))
  {
  }

  /** Explain mode with one argument only explains: no executor work is done. */
  lemma ExplainOnlyExplains(h: Host, cfg: Config, f: Flags, s: Sink, target: string)
    requires f.explain
    ensures Route(h, cfg, f, s, [target]) == Explained(Explain.ExplainReport(h, cfg, target))
  {
  }

  /** Interactive mode with one argument returns handleInteractive's result and nothing else. */
  lemma InteractiveOnlySelects(h: Host, cfg: Config, f: Flags, s: Sink, target: string)
    requires !f.explain && f.interactive
    ensures var st := HandleInteractive(h, cfg, f.dryRun, s, target);
      Route(h, cfg, f, s, [target]) == Executed(st.err, st.sink)
  {
  }

  /**
   * One argument is first tried as a file; any failure of that, including a
   * failed rule command, falls back to command execution on the executor as the
   * file attempt left it.
   */
  lemma FileFailureFallsBackToCommand(h: Host, cfg: Config, f: Flags, s: Sink, target: string)
    requires !f.explain && !f.interactive
    ensures var st := HandleFile(h, cfg, f.dryRun, s, target);
      && (st.err.None? ==> Route(h, cfg, f, s, [target]) == Executed(None, st.sink))
      && (st.err.Some? ==>
            var st2 := HandleCommand(h, cfg, f.dryRun, st.sink, [target]);
            Route(h, cfg, f, s, [target]) == Executed(st2.err, st2.sink))
  {
  }

  /** Two or more arguments go straight to command execution, whatever the mode flags. */
  lemma SeveralArgumentsRunCommand(h: Host, cfg: Config, f: Flags, s: Sink, args: seq<string>)
    requires |args| >= 2
    ensures var st := HandleCommand(h, cfg, f.dryRun, s, args);
      Route(h, cfg, f, s, args) == Executed(st.err, st.sink)
  {
  }

  /** With --dry-run, runRoot starts no process and leaves the history as it was. */
  lemma DryRunRootSpawnsNothing(env: Env, h: Host, f: Flags, args: seq<string>)
    requires f.dryRun
    ensures var o := RootOutcome(env, h, f, args);
      o.Executed? ==> o.sink.spawned == [] && o.sink.history == env.history
  {
    if |args| > 0 && !env.isSubcommand(args) && LoadFor(env, f).Ok? {
      var cfg := LoadFor(env, f).value;
      var s := Sink("", [], env.history);
      if f.explain && |args| == 1 {
      } else if |args| == 1 && f.interactive {
        DryRunInteractiveSpawnsNothing(h, cfg, s, args[0]);
      } else if |args| == 1 {
        DryRunFileSpawnsNothing(h, cfg, s, args[0]);
        var st := HandleFile(h, cfg, true, s, args[0]);
        DryRunCommandSpawnsNothing(h, cfg, st.sink, args);
      } else {
        DryRunCommandSpawnsNothing(h, cfg, s, args);
      }
    }
  }
}
