/**
 * Action resolution of the `entry` command (package internal/cli): running a
 * rule (its script gate and effective command), the fallthrough chain over
 * matched rules, the fallback to the default command or system opener, alias
 * and PATH resolution of a command line, the interactive option list, and the
 * `match` subcommand's decision.
 *
 * Each operation is a method driving the executor, proved equal to a function
 * of the executor's state before it; the lemmas are about those functions.
 */
module Pipeline {
  import opened Wrappers
  import opened Domain
  import opened Matcher
  import opened Executor

  const NoOptions := Options(false, false)

  /** executeWithDefault: the default command when set, else the system opener. */
  function WithDefault(h: Host, cfg: Config, dryRun: bool, s: Sink, filename: string): (r: Step)
    ensures cfg.defaultCommand == "" ==> r.sink.history == s.history
    ensures cfg.defaultCommand == "" && !dryRun ==> r.sink.spawned == s.spawned + [SystemOpener(h.goos, filename)]
    ensures cfg.defaultCommand != "" && CommandFor(h, cfg.defaultCommand, filename).Err? ==>
      r == Step(Some(CommandFor(h, cfg.defaultCommand, filename).error), s)
    ensures Extends(s, r.sink)
    ensures dryRun ==> Quiet(s, r.sink)
  {
    if cfg.defaultCommand != "" then RunExecute(h, dryRun, s, cfg.defaultCommand, filename, NoOptions)
    else RunOpener(h, dryRun, s, filename)
  }

  /** How executeRule resolves a rule before running anything. */
  datatype Resolution =
    | ScriptError(error: Error)   // the script failed
    | Skipped                     // the script did not match
    | NothingToRun                // matched, but no command
    | Run(command: string)        // matched, with this command

  function Effective(command: string): Resolution {
    if command == "" then NothingToRun else Run(command)
  }

  /**
   * The script gate and the effective command for a script that returned `v`:
   * a non-empty string supplies the command, an empty string or `true` keeps
   * the rule's, an error is reported, and anything else skips the rule.
   */
  function Gate(command: string, v: ScriptValue): (r: Resolution)
    ensures r.ScriptError? <==> v.Threw?
    ensures r.ScriptError? ==> r.error == ScriptFailed
    ensures r.Run? ==> r.command != ""
    ensures v.Str? && v.s != "" ==> r == Run(v.s)
    ensures v == Str("") || v == Boolean(true) ==> r == Effective(command)
    ensures v.Null? || v.Undefined? || v == Boolean(false) || v.OtherValue? ==> r == Skipped
  {
    match ScriptResult(v)
    case Err(e) => ScriptError(e)
    case Ok(o) =>
      if !o.matched then Skipped
      else Effective(if o.command != "" then o.command else command)
  }

  /** How executeRule resolves a rule: without a script, by its own command. */
  function Resolve(h: Host, rule: Rule, filename: string): (r: Resolution)
    ensures rule.script == "" ==> r == Effective(rule.command)
    ensures rule.script != "" ==> r == Gate(rule.command, h.script(rule.script, ScriptBindings(h, filename)))
  {
    if rule.script != "" then Gate(rule.command, h.script(rule.script, ScriptBindings(h, filename)))
    else Effective(rule.command)
  }

  /** The outcome of executeRule: whether the rule counted as executed, its error, and the sink. */
  datatype RuleRun = RuleRun(executed: bool, err: Option<Error>, sink: Sink)

  /** executeRule. */
  function RunRule(h: Host, dryRun: bool, s: Sink, rule: Rule, filename: string): (r: RuleRun)
    ensures var res := Resolve(h, rule, filename);
      && (r.executed <==> res.NothingToRun? || res.Run?)
      && (res.ScriptError? ==> r == RuleRun(false, Some(RuleScriptFailed(res.error)), s))
      && (res.Skipped? || res.NothingToRun? ==> r.err.None? && r.sink == s)
    ensures Extends(s, r.sink)
    ensures dryRun ==> Quiet(s, r.sink)
  {
    match Resolve(h, rule, filename)
    case ScriptError(e) => RuleRun(false, Some(RuleScriptFailed(e)), s)
    case Skipped => RuleRun(false, None, s)
    case NothingToRun => RuleRun(true, None, s)
    case Run(command) =>
      var st := RunExecute(h, dryRun, s, command, filename, Options(rule.background, rule.terminal));
      RuleRun(true, st.err, st.sink)
  }

  /** Where executeRules is after some rules: stopped (by an error or a terminal rule) or not. */
  datatype Chain = Chain(stopped: bool, err: Option<Error>, sink: Sink)

  /** A rule run stops the chain when it fails, or when it executed a rule that does not fall through. */
  predicate StopsChain(r: RuleRun, rule: Rule) {
    r.err.Some? || (r.executed && !rule.fallthrough)
  }

  /** executeRules over `rules`, starting from sink `s`. */
  function RunRules(h: Host, dryRun: bool, s: Sink, rules: seq<Rule>, filename: string): (r: Chain)
    ensures rules == [] ==> r == Chain(false, None, s)
    ensures r.err.Some? ==> r.stopped
    ensures Extends(s, r.sink)
    ensures dryRun ==> Quiet(s, r.sink)
    decreases |rules|
  {
    if rules == [] then Chain(false, None, s)
    else
      var r := RunRule(h, dryRun, s, rules[0], filename);
      if StopsChain(r, rules[0]) then Chain(true, r.err, r.sink)
      else RunRules(h, dryRun, r.sink, rules[1..], filename)
  }

  /** The rules at the given positions. */
  function Pick(rules: seq<Rule>, ks: seq<nat>): (picked: seq<Rule>)
    requires forall j :: 0 <= j < |ks| ==> ks[j] < |rules|
    ensures |picked| == |ks| && forall j :: 0 <= j < |ks| ==> picked[j] == rules[ks[j]]
  {
    seq(|ks|, j requires 0 <= j < |ks| => rules[ks[j]])
  }

  /** handleFileExecution. */
  function HandleFile(h: Host, cfg: Config, dryRun: bool, s: Sink, filename: string): (r: Step)
    ensures MatchFrom(h, cfg.rules, filename, 0).Err? ==>
      r == Step(Some(ErrorMatchingRule(MatchFrom(h, cfg.rules, filename, 0).error)), s)
    ensures MatchFrom(h, cfg.rules, filename, 0) == Ok([]) && !IsFileOrUrl(h, filename) ==>
      r == Step(Some(FileNotFoundNoRule), s)
    ensures Extends(s, r.sink)
    ensures dryRun ==> Quiet(s, r.sink)
  {
    MatchSound(h, cfg.rules, filename, 0);
    match MatchFrom(h, cfg.rules, filename, 0)
    case Err(e) => Step(Some(ErrorMatchingRule(e)), s)
    case Ok(ks) =>
      if |ks| > 0 then
        var c := RunRules(h, dryRun, s, Pick(cfg.rules, ks), filename);
        Step(c.err, c.sink)
      else if IsFileOrUrl(h, filename) then WithDefault(h, cfg, dryRun, s, filename)
      else Step(Some(FileNotFoundNoRule), s)
  }

  /** handleCommandExecution; the caller always passes at least the command. */
  function HandleCommand(h: Host, cfg: Config, dryRun: bool, s: Sink, args: seq<string>): (r: Step)
    requires |args| > 0
    ensures !dryRun && args[0] in cfg.aliases ==>
      r.sink.spawned == s.spawned + [Direct(cfg.aliases[args[0]], args[1..])]
    ensures !dryRun && args[0] !in cfg.aliases && (h.onPath(args[0]) || |args| > 1 || cfg.defaultCommand == "") ==>
      r.sink.spawned == s.spawned + [Direct(args[0], args[1..])]
    ensures Extends(s, r.sink)
    ensures dryRun ==> Quiet(s, r.sink)
  {
    var command := args[0];
    if command in cfg.aliases then RunCommand(h, dryRun, s, cfg.aliases[command], args[1..])
    else if !h.onPath(command) && |args| == 1 && cfg.defaultCommand != "" then
      RunExecute(h, dryRun, s, cfg.defaultCommand, args[0], NoOptions)
    else RunCommand(h, dryRun, s, command, args[1..])
  }

  /** An entry of the interactive selection; `rule` is absent for the system default. */
  datatype Choice = Choice(caption: string, rule: Option<Rule>, isSystem: bool)

  const SystemChoice := Choice("System Default", None, true)

  /** buildOptionLabel: the rule's name, or its command when it has none. */
  function OptionLabel(rule: Rule): (caption: string)
    ensures caption != ""
    ensures rule.name != "" ==> caption == rule.name
    ensures rule.name == "" ==> caption == "Command: " + rule.command
  {
    if rule.name != "" then rule.name else "Command: " + rule.command
  }

  function RuleChoice(rule: Rule): Choice {
    Choice(OptionLabel(rule), Some(rule), false)
  }

  /** What buildInteractiveOptions returns: a matcher error wrapped, or the options. */
  function InteractiveOptions(h: Host, cfg: Config, filename: string): Result<seq<Choice>, Error> {
    MatchAllExact(h, cfg.rules, filename, 0);
    match MatchAllFrom(h, cfg.rules, filename, 0)
    case Err(e) => Err(ErrorMatchingRules(e))
    case Ok(ks) =>
      Ok(seq(|ks|, j requires 0 <= j < |ks| => RuleChoice(cfg.rules[ks[j]]))
        + (if IsFileOrUrl(h, filename) then [SystemChoice] else []))
  }

  /** buildInteractiveOptions: appends one option per match, then the system default. */
  method BuildInteractiveOptions(h: Host, cfg: Config, filename: string) returns (r: Result<seq<Choice>, Error>)
    ensures r == InteractiveOptions(h, cfg, filename)
  {
    var matches := MatchAll(h, cfg.rules, filename);
    if matches.Err? {
      return Err(ErrorMatchingRules(matches.error));
    }
    MatchAllExact(h, cfg.rules, filename, 0);
    var ks := matches.value;
    var options: seq<Choice> := [];
    for j := 0 to |ks|
      invariant |options| == j
      invariant forall i :: 0 <= i < j ==> options[i] == RuleChoice(cfg.rules[ks[i]])
    {
      options := options + [RuleChoice(cfg.rules[ks[j]])];
    }
    assert options == seq(|ks|, j requires 0 <= j < |ks| => RuleChoice(cfg.rules[ks[j]]));
    var system: seq<Choice> := [];
    if IsFileOrUrl(h, filename) {
      system := [SystemChoice];
    }
    return Ok(options + system);
  }

  /**
   * The options are one per rule `MatchAll` returns, in its order, then the
   * system default exactly once, last, iff the target is a URL or an existing
   * file; a matcher error is wrapped and yields no options.
   */
  lemma InteractiveOptionsShape(h: Host, cfg: Config, filename: string)
    ensures var r := InteractiveOptions(h, cfg, filename);
      && (r.Err? <==> MatchAllFrom(h, cfg.rules, filename, 0).Err?)
      && (r.Err? ==> r.error == ErrorMatchingRules(MatchAllFrom(h, cfg.rules, filename, 0).error))
      && (r.Ok? ==>
        var ks := MatchAllFrom(h, cfg.rules, filename, 0).value;
        && |r.value| == |ks| + (if IsFileOrUrl(h, filename) then 1 else 0)
        && (forall j :: 0 <= j < |ks| ==> ks[j] < |cfg.rules| && r.value[j] == RuleChoice(cfg.rules[ks[j]]))
        && (forall j :: 0 <= j < |r.value| ==> (r.value[j].isSystem <==> IsFileOrUrl(h, filename) && j == |ks|))
        && (IsFileOrUrl(h, filename) ==> r.value[|ks|] == SystemChoice))
  {
    MatchAllExact(h, cfg.rules, filename, 0);
  }

  /** executeSelectedOption: the system option opens by default, any other runs its rule. */
  function RunSelected(h: Host, cfg: Config, dryRun: bool, s: Sink, choice: Choice, filename: string): Step
    requires !choice.isSystem ==> choice.rule.Some?
  {
    if choice.isSystem then WithDefault(h, cfg, dryRun, s, filename)
    else
      var r := RunRule(h, dryRun, s, choice.rule.value, filename);
      Step(r.err, r.sink)
  }

  function Labels(options: seq<Choice>): (labels: seq<string>)
    ensures |labels| == |options| && forall j :: 0 <= j < |options| ==> labels[j] == options[j].caption
  {
    seq(|options|, j requires 0 <= j < |options| => options[j].caption)
  }

  /** handleInteractive: no options is an error before any prompt; an aborted prompt is an error. */
  function HandleInteractive(h: Host, cfg: Config, dryRun: bool, s: Sink, filename: string): (r: Step)
    ensures InteractiveOptions(h, cfg, filename).Err? ==> r == Step(Some(InteractiveOptions(h, cfg, filename).error), s)
    ensures InteractiveOptions(h, cfg, filename) == Ok([]) ==> r == Step(Some(NoMatchingRulesFor(filename)), s)
    ensures var o := InteractiveOptions(h, cfg, filename);
      o.Ok? && |o.value| > 0 && h.select(Labels(o.value)).None? ==> r == Step(Some(SelectionAborted), s)
    ensures Extends(s, r.sink)
    ensures dryRun ==> Quiet(s, r.sink)
  {
    match InteractiveOptions(h, cfg, filename)
    case Err(e) => Step(Some(e), s)
    case Ok(options) =>
      if |options| == 0 then Step(Some(NoMatchingRulesFor(filename)), s)
      else
        match h.select(Labels(options))
        case None => Step(Some(SelectionAborted), s)
        case Some(j) =>
          if j < |options| && (!options[j].isSystem ==> options[j].rule.Some?) then
            RunSelected(h, cfg, dryRun, s, options[j], filename)
          else Step(Some(SelectionAborted), s)
  }

  /** runMatch: the first matched rule's name, or its command when unnamed. */
  function RunMatch(h: Host, loaded: Result<Config, Error>, filename: string): (r: Result<string, Error>)
    ensures loaded.Err? ==> r == Err(loaded.error)
    ensures loaded.Ok? && MatchFrom(h, loaded.value.rules, filename, 0).Err? ==>
      r == Err(MatchFrom(h, loaded.value.rules, filename, 0).error)
    ensures loaded.Ok? && MatchFrom(h, loaded.value.rules, filename, 0) == Ok([]) ==> r == Err(NoMatchFound)
    ensures r.Ok? <==>
      && loaded.Ok?
      && MatchFrom(h, loaded.value.rules, filename, 0).Ok?
      && |MatchFrom(h, loaded.value.rules, filename, 0).value| > 0
  {
    match loaded
    case Err(e) => Err(e)
    case Ok(cfg) =>
      MatchSound(h, cfg.rules, filename, 0);
      match MatchFrom(h, cfg.rules, filename, 0)
      case Err(e) => Err(e)
      case Ok(ks) =>
        if |ks| > 0 then
          var rule := cfg.rules[ks[0]];
          Ok(if rule.name != "" then rule.name else rule.command)
        else Err(NoMatchFound)
  }

  /** The operations above, driving an executor. */
  method ExecuteWithDefault(exec: Executor, h: Host, cfg: Config, filename: string) returns (err: Option<Error>)
    modifies exec
    ensures Step(err, exec.State()) == WithDefault(h, cfg, exec.dryRun, old(exec.State()), filename)
  {
    if cfg.defaultCommand != "" {
      err := exec.Execute(h, cfg.defaultCommand, filename, NoOptions);
      return;
    }
    err := exec.OpenSystem(h, filename);
  }

  method ExecuteRule(exec: Executor, h: Host, rule: Rule, filename: string) returns (executed: bool, err: Option<Error>)
    modifies exec
    ensures RuleRun(executed, err, exec.State()) == RunRule(h, exec.dryRun, old(exec.State()), rule, filename)
  {
    var resolution := ResolveRule(h, rule, filename);
    match resolution
    case ScriptError(e) =>
      return false, Some(RuleScriptFailed(e));
    case Skipped =>
      return false, None;
    case NothingToRun =>
      return true, None;
    case Run(command) =>
      RunsCommand(h, exec.dryRun, exec.State(), rule, filename, command);
      err := exec.Execute(h, command, filename, Options(rule.background, rule.terminal));
      return true, err;
  }

  /** The first half of executeRule: the script gate, then the command it leaves, if any. */
  method ResolveRule(h: Host, rule: Rule, filename: string) returns (r: Resolution)
    ensures r == Resolve(h, rule, filename)
  {
    var command := rule.command;
    if rule.script != "" {
      ScriptResolves(h, rule, filename);
      var outcome := ExecuteScript(h, rule.script, filename);
      if outcome.Err? {
        return ScriptError(outcome.error);
      }
      if !outcome.value.matched {
        return Skipped;
      }
      if outcome.value.command != "" {
        command := outcome.value.command;
      }
    }
    return Effective(command);
  }

  /** A rule resolved to a non-empty command runs it with the rule's options. */
  lemma RunsCommand(h: Host, dryRun: bool, s: Sink, rule: Rule, filename: string, command: string)
    requires command != "" && Resolve(h, rule, filename) == Effective(command)
    ensures var st := RunExecute(h, dryRun, s, command, filename, Options(rule.background, rule.terminal));
      RunRule(h, dryRun, s, rule, filename) == RuleRun(true, st.err, st.sink)
  {
  }

  /** executeRule's resolution, by what the rule's script gave. */
  lemma ScriptResolves(h: Host, rule: Rule, filename: string)
    requires rule.script != ""
    ensures var o := ExecuteScript(h, rule.script, filename);
      && (o.Err? ==> Resolve(h, rule, filename) == ScriptError(o.error))
      && (o.Ok? && !o.value.matched ==> Resolve(h, rule, filename) == Skipped)
      && (o.Ok? && o.value.matched ==>
            Resolve(h, rule, filename) == Effective(if o.value.command != "" then o.value.command else rule.command))
  {
  }

  method ExecuteRules(exec: Executor, h: Host, rules: seq<Rule>, filename: string) returns (err: Option<Error>)
    modifies exec
    ensures Step(err, exec.State()) == var c := RunRules(h, exec.dryRun, old(exec.State()), rules, filename); Step(c.err, c.sink)
  {
    for i := 0 to |rules|
      invariant RunRules(h, exec.dryRun, old(exec.State()), rules, filename)
             == RunRules(h, exec.dryRun, exec.State(), rules[i..], filename)
    {
      assert rules[i..][1..] == rules[i + 1..];
      var executed, e := ExecuteRule(exec, h, rules[i], filename);
      if e.Some? {
        return e;
      }
      if executed && !rules[i].fallthrough {
        return None;
      }
    }
    return None;
  }

  method HandleFileExecution(exec: Executor, h: Host, cfg: Config, filename: string) returns (err: Option<Error>)
    modifies exec
    ensures Step(err, exec.State()) == HandleFile(h, cfg, exec.dryRun, old(exec.State()), filename)
  {
    var matched := Match(h, cfg.rules, filename);
    if matched.Err? {
      return Some(ErrorMatchingRule(matched.error));
    }
    MatchSound(h, cfg.rules, filename, 0);
    if |matched.value| > 0 {
      err := ExecuteRules(exec, h, Pick(cfg.rules, matched.value), filename);
      return;
    }
    if IsFileOrUrl(h, filename) {
      err := ExecuteWithDefault(exec, h, cfg, filename);
      return;
    }
    return Some(FileNotFoundNoRule);
  }

  method ExecuteSelectedOption(exec: Executor, h: Host, cfg: Config, choice: Choice, filename: string) returns (err: Option<Error>)
    requires !choice.isSystem ==> choice.rule.Some?
    modifies exec
    ensures Step(err, exec.State()) == RunSelected(h, cfg, exec.dryRun, old(exec.State()), choice, filename)
  {
    if choice.isSystem {
      err := ExecuteWithDefault(exec, h, cfg, filename);
      return;
    }
    var _, e := ExecuteRule(exec, h, choice.rule.value, filename);
    return e;
  }

  method HandleInteractiveExecution(exec: Executor, h: Host, cfg: Config, filename: string) returns (err: Option<Error>)
    modifies exec
    ensures Step(err, exec.State()) == HandleInteractive(h, cfg, exec.dryRun, old(exec.State()), filename)
  {
    var options := BuildInteractiveOptions(h, cfg, filename);
    if options.Err? {
      return Some(options.error);
    }
    if |options.value| == 0 {
      return Some(NoMatchingRulesFor(filename));
    }
    var selected := h.select(Labels(options.value));
    if selected.None? || selected.value >= |options.value| {
      return Some(SelectionAborted);
    }
    var choice := options.value[selected.value];
    if !choice.isSystem && choice.rule.None? {
      return Some(SelectionAborted);
    }
    err := ExecuteSelectedOption(exec, h, cfg, choice, filename);
  }

  method HandleCommandExecution(exec: Executor, h: Host, cfg: Config, commandArgs: seq<string>) returns (err: Option<Error>)
    requires |commandArgs| > 0
    modifies exec
    ensures Step(err, exec.State()) == HandleCommand(h, cfg, exec.dryRun, old(exec.State()), commandArgs)
  {
    var command := commandArgs[0];
    var cmdArgs := commandArgs[1..];
    if command in cfg.aliases {
      command := cfg.aliases[command];
      err := exec.ExecuteCommand(h, command, cmdArgs);
      return;
    }
    if !h.onPath(command) {
      if |commandArgs| == 1 && cfg.defaultCommand != "" {
        err := exec.Execute(h, cfg.defaultCommand, commandArgs[0], NoOptions);
        return;
      }
    }
    err := exec.ExecuteCommand(h, command, cmdArgs);
  }

  /** The default command, when set, runs with no options; otherwise the system opener opens the file. */
  lemma DefaultOrOpener(h: Host, cfg: Config, s: Sink, filename: string)
    ensures cfg.defaultCommand != "" ==>
      WithDefault(h, cfg, true, s, filename) == RunExecute(h, true, s, cfg.defaultCommand, filename, Options(false, false))
    ensures cfg.defaultCommand == "" ==>
      var st := WithDefault(h, cfg, true, s, filename);
      && st.err.None? && st.sink.spawned == s.spawned
      && st.sink.out == s.out + CommandLine(SystemOpener(h.goos, filename).program, SystemOpener(h.goos, filename).args)
  {
    DryRunOpener(h, s, filename);
  }

  /** A script that throws is an error, and nothing runs. */
  lemma ScriptErrorRunsNothing(h: Host, dryRun: bool, s: Sink, rule: Rule, filename: string)
    requires rule.script != "" && h.script(rule.script, ScriptBindings(h, filename)).Threw?
    ensures RunRule(h, dryRun, s, rule, filename) == RuleRun(false, Some(RuleScriptFailed(ScriptFailed)), s)
  {
  }

  /** A script that does not match leaves the rule unexecuted, without error, and nothing runs. */
  lemma ScriptMissRunsNothing(h: Host, dryRun: bool, s: Sink, rule: Rule, filename: string)
    requires rule.script != ""
    requires var v := h.script(rule.script, ScriptBindings(h, filename));
      v.Null? || v.Undefined? || v == Boolean(false) || v.OtherValue?
    ensures RunRule(h, dryRun, s, rule, filename) == RuleRun(false, None, s)
  {
  }

  /** A non-empty string from the script is the command that runs, with the rule's options. */
  lemma ScriptCommandOverrides(h: Host, dryRun: bool, s: Sink, rule: Rule, filename: string, c: string)
    requires rule.script != "" && h.script(rule.script, ScriptBindings(h, filename)) == Str(c) && c != ""
    ensures var st := RunExecute(h, dryRun, s, c, filename, Options(rule.background, rule.terminal));
      RunRule(h, dryRun, s, rule, filename) == RuleRun(true, st.err, st.sink)
  {
    assert Resolve(h, rule, filename) == Run(c);
  }

  /** An empty string or `true` from the script keeps the rule's own command. */
  lemma ScriptKeepsCommand(h: Host, dryRun: bool, s: Sink, rule: Rule, filename: string)
    requires rule.script != ""
    requires var v := h.script(rule.script, ScriptBindings(h, filename)); v == Str("") || v == Boolean(true)
    ensures RunRule(h, dryRun, s, rule, filename) == RunRule(h, dryRun, s, rule.(script := ""), filename)
  {
    assert Resolve(h, rule, filename) == Effective(rule.command) == Resolve(h, rule.(script := ""), filename);
  }

  /** With no effective command the rule counts as executed and nothing runs. */
  lemma EmptyCommandRunsNothing(h: Host, dryRun: bool, s: Sink, rule: Rule, filename: string)
    requires Resolve(h, rule, filename) == NothingToRun
    ensures RunRule(h, dryRun, s, rule, filename) == RuleRun(true, None, s)
  {
  }

  /** A chain that stopped carries its error; one that ran through carries none. */
  lemma {:induction false} ChainErrorStops(h: Host, dryRun: bool, s: Sink, rules: seq<Rule>, filename: string)
    ensures RunRules(h, dryRun, s, rules, filename).err.Some? ==> RunRules(h, dryRun, s, rules, filename).stopped
    decreases |rules|
  {
    if rules != [] {
      var r := RunRule(h, dryRun, s, rules[0], filename);
      if !StopsChain(r, rules[0]) {
        ChainErrorStops(h, dryRun, r.sink, rules[1..], filename);
      }
    }
  }

  /**
   * Running `a + b` is running `a`, then, unless `a` stopped the chain, running
   * `b` from where `a` left the sink: no rule after a stopping one runs.
   */
  lemma {:induction false} ChainAppend(h: Host, dryRun: bool, s: Sink, a: seq<Rule>, b: seq<Rule>, filename: string)
    ensures RunRules(h, dryRun, s, a + b, filename) ==
      var c := RunRules(h, dryRun, s, a, filename);
      if c.stopped then c else RunRules(h, dryRun, c.sink, b, filename)
    decreases |a|
  {
    if a == [] {
      assert a + b == b;
    } else {
      assert (a + b)[0] == a[0];
      assert (a + b)[1..] == a[1..] + b;
      var r := RunRule(h, dryRun, s, a[0], filename);
      if !StopsChain(r, a[0]) {
        ChainAppend(h, dryRun, r.sink, a[1..], b, filename);
      }
    }
  }

  /** A rule its script skips never stops the chain and changes nothing. */
  lemma SkippedRuleTransparent(h: Host, dryRun: bool, s: Sink, rule: Rule, rest: seq<Rule>, filename: string)
    requires Resolve(h, rule, filename) == Skipped
    ensures RunRules(h, dryRun, s, [rule] + rest, filename) == RunRules(h, dryRun, s, rest, filename)
  {
    assert ([rule] + rest)[1..] == rest;
  }

  /** An executed rule that does not fall through ends the chain, whatever follows. */
  lemma TerminalRuleEnds(h: Host, dryRun: bool, s: Sink, rule: Rule, rest: seq<Rule>, filename: string)
    requires RunRule(h, dryRun, s, rule, filename).executed && !rule.fallthrough
    ensures var r := RunRule(h, dryRun, s, rule, filename);
      RunRules(h, dryRun, s, [rule] + rest, filename) == Chain(true, r.err, r.sink)
  {
  }

  /** In dry-run mode a rule starts no process and records no history. */
  lemma DryRunRuleSpawnsNothing(h: Host, s: Sink, rule: Rule, filename: string)
    ensures RunRule(h, true, s, rule, filename).sink.spawned == s.spawned
    ensures RunRule(h, true, s, rule, filename).sink.history == s.history
  {
    var res := Resolve(h, rule, filename);
    if res.Run? {
      DryRunExecute(h, s, res.command, filename, Options(rule.background, rule.terminal));
    }
  }

  /** In dry-run mode no rule chain starts a process or records history. */
  lemma {:induction false} DryRunChainSpawnsNothing(h: Host, s: Sink, rules: seq<Rule>, filename: string)
    ensures RunRules(h, true, s, rules, filename).sink.spawned == s.spawned
    ensures RunRules(h, true, s, rules, filename).sink.history == s.history
    decreases |rules|
  {
    if rules != [] {
      var r := RunRule(h, true, s, rules[0], filename);
      DryRunRuleSpawnsNothing(h, s, rules[0], filename);
      if !StopsChain(r, rules[0]) {
        DryRunChainSpawnsNothing(h, r.sink, rules[1..], filename);
      }
    }
  }

  /** In dry-run mode the default command or the system opener starts nothing and records no history. */
  lemma DryRunDefaultSpawnsNothing(h: Host, cfg: Config, s: Sink, filename: string)
    ensures WithDefault(h, cfg, true, s, filename).sink.spawned == s.spawned
    ensures WithDefault(h, cfg, true, s, filename).sink.history == s.history
  {
    if cfg.defaultCommand != "" {
      DryRunExecute(h, s, cfg.defaultCommand, filename, NoOptions);
    }
  }

  /** In dry-run mode handleFileExecution starts nothing and records no history. */
  lemma DryRunFileSpawnsNothing(h: Host, cfg: Config, s: Sink, filename: string)
    ensures HandleFile(h, cfg, true, s, filename).sink.spawned == s.spawned
    ensures HandleFile(h, cfg, true, s, filename).sink.history == s.history
  {
    MatchSound(h, cfg.rules, filename, 0);
    match MatchFrom(h, cfg.rules, filename, 0)
    case Err(_) =>
    case Ok(ks) =>
      if |ks| > 0 {
        DryRunChainSpawnsNothing(h, s, Pick(cfg.rules, ks), filename);
      } else {
        DryRunDefaultSpawnsNothing(h, cfg, s, filename);
      }
  }

  /** In dry-run mode handleCommandExecution starts nothing and records no history. */
  lemma DryRunCommandSpawnsNothing(h: Host, cfg: Config, s: Sink, args: seq<string>)
    requires |args| > 0
    ensures HandleCommand(h, cfg, true, s, args).sink.spawned == s.spawned
    ensures HandleCommand(h, cfg, true, s, args).sink.history == s.history
  {
    if args[0] !in cfg.aliases && !h.onPath(args[0]) && |args| == 1 && cfg.defaultCommand != "" {
      DryRunExecute(h, s, cfg.defaultCommand, args[0], NoOptions);
    }
  }

  /** In dry-run mode handleInteractive starts nothing and records no history. */
  lemma DryRunInteractiveSpawnsNothing(h: Host, cfg: Config, s: Sink, filename: string)
    ensures HandleInteractive(h, cfg, true, s, filename).sink.spawned == s.spawned
    ensures HandleInteractive(h, cfg, true, s, filename).sink.history == s.history
  {
    match InteractiveOptions(h, cfg, filename)
    case Err(_) =>
    case Ok(options) =>
      if |options| > 0 && h.select(Labels(options)).Some? {
        var j := h.select(Labels(options)).value;
        if j < |options| && (!options[j].isSystem ==> options[j].rule.Some?) {
          if options[j].isSystem {
            DryRunDefaultSpawnsNothing(h, cfg, s, filename);
          } else {
            DryRunRuleSpawnsNothing(h, s, options[j].rule.value, filename);
          }
        }
      }
  }

  /** A matcher error, or no match for a target that is neither a URL nor a file, runs nothing. */
  lemma HandleFileFailsCleanly(h: Host, cfg: Config, dryRun: bool, s: Sink, filename: string)
    requires MatchFrom(h, cfg.rules, filename, 0).Err?
      || (MatchFrom(h, cfg.rules, filename, 0) == Ok([]) && !IsFileOrUrl(h, filename))
    ensures var st := HandleFile(h, cfg, dryRun, s, filename);
      && st.sink == s
      && (MatchFrom(h, cfg.rules, filename, 0).Err? ==>
            st.err == Some(ErrorMatchingRule(MatchFrom(h, cfg.rules, filename, 0).error)))
      && (MatchFrom(h, cfg.rules, filename, 0).Ok? ==> st.err == Some(FileNotFoundNoRule))
  {
  }

  /** With no matching rule, a URL or existing file goes to the default command or opener. */
  lemma HandleFileFallsBack(h: Host, cfg: Config, dryRun: bool, s: Sink, filename: string)
    requires MatchFrom(h, cfg.rules, filename, 0) == Ok([]) && IsFileOrUrl(h, filename)
    ensures HandleFile(h, cfg, dryRun, s, filename) == WithDefault(h, cfg, dryRun, s, filename)
  {
  }

  /**
   * With matching rules, the first one the chain reaches is the first rule of
   * the configuration that matches.
   */
  lemma HandleFileRunsFirstMatch(h: Host, cfg: Config, dryRun: bool, s: Sink, filename: string)
    requires MatchFrom(h, cfg.rules, filename, 0).Ok? && |MatchFrom(h, cfg.rules, filename, 0).value| > 0
    ensures var ks := MatchFrom(h, cfg.rules, filename, 0).value;
      && (forall j :: 0 <= j < |ks| ==> ks[j] < |cfg.rules|)
      && ks[0] < |cfg.rules|
      && RuleHit(h, cfg.rules[ks[0]], filename) == Ok(true)
      && (forall j :: 0 <= j < ks[0] ==> RuleHit(h, cfg.rules[j], filename) == Ok(false))
      && var c := RunRules(h, dryRun, s, Pick(cfg.rules, ks), filename);
         HandleFile(h, cfg, dryRun, s, filename) == Step(c.err, c.sink)
  {
    MatchFirst(h, cfg.rules, filename);
    MatchSound(h, cfg.rules, filename, 0);
  }

  /** An alias is used whatever PATH and the default command say. */
  lemma AliasWins(h: Host, cfg: Config, dryRun: bool, s: Sink, args: seq<string>, onPath: string -> bool, default: string)
    requires |args| > 0 && args[0] in cfg.aliases
    ensures HandleCommand(h.(onPath := onPath), cfg.(defaultCommand := default), dryRun, s, args)
         == RunCommand(h, dryRun, s, cfg.aliases[args[0]], args[1..])
  {
    assert h.(onPath := onPath).runs == h.runs;
  }

  /** A single word that is neither an alias nor on PATH is a file for the default command. */
  lemma UnknownWordUsesDefault(h: Host, cfg: Config, dryRun: bool, s: Sink, word: string)
    requires word !in cfg.aliases && !h.onPath(word) && cfg.defaultCommand != ""
    ensures HandleCommand(h, cfg, dryRun, s, [word]) == RunExecute(h, dryRun, s, cfg.defaultCommand, word, Options(false, false))
  {
  }

  /** A command on PATH, or any command with arguments, runs as given. */
  lemma KnownCommandRunsAsGiven(h: Host, cfg: Config, dryRun: bool, s: Sink, args: seq<string>)
    requires |args| > 0 && args[0] !in cfg.aliases && (h.onPath(args[0]) || |args| > 1 || cfg.defaultCommand == "")
    ensures HandleCommand(h, cfg, dryRun, s, args) == RunCommand(h, dryRun, s, args[0], args[1..])
  {
  }

  /** With no options there is an error before any prompt, and nothing changes. */
  lemma NoOptionsNoPrompt(h: Host, cfg: Config, dryRun: bool, s: Sink, filename: string, select: seq<string> -> Option<nat>)
    requires MatchAllFrom(h, cfg.rules, filename, 0) == Ok([]) && !IsFileOrUrl(h, filename)
    ensures HandleInteractive(h.(select := select), cfg, dryRun, s, filename) == Step(Some(NoMatchingRulesFor(filename)), s)
  {
    var h' := h.(select := select);
    assert h'.parseUrl == h.parseUrl && h'.fileExists == h.fileExists;
    assert VerdictsAll(h', cfg.rules, filename) == VerdictsAll(h, cfg.rules, filename);
  }

  /** Choosing the system default opens by default; choosing a rule's option runs that rule. */
  lemma SelectedOptionRoutes(h: Host, cfg: Config, dryRun: bool, s: Sink, filename: string, j: nat)
    requires InteractiveOptions(h, cfg, filename).Ok?
    requires j < |InteractiveOptions(h, cfg, filename).value| && h.select(Labels(InteractiveOptions(h, cfg, filename).value)) == Some(j)
    ensures var options := InteractiveOptions(h, cfg, filename).value;
      && (options[j].isSystem ==> HandleInteractive(h, cfg, dryRun, s, filename) == WithDefault(h, cfg, dryRun, s, filename))
      && (!options[j].isSystem ==> options[j].rule.Some?)
      && (!options[j].isSystem ==>
            var r := RunRule(h, dryRun, s, options[j].rule.value, filename);
            HandleInteractive(h, cfg, dryRun, s, filename) == Step(r.err, r.sink))
  {
    InteractiveOptionsShape(h, cfg, filename);
  }

  /**
   * runMatch reports the first matching rule (its name, or its command when it
   * has none), "no match found" when no rule matches, and a matcher error as is.
   */
  lemma RunMatchReportsFirst(h: Host, cfg: Config, filename: string)
    ensures var r := RunMatch(h, Ok(cfg), filename);
      && (MatchFrom(h, cfg.rules, filename, 0).Err? ==> r == Err(MatchFrom(h, cfg.rules, filename, 0).error))
      && (MatchFrom(h, cfg.rules, filename, 0) == Ok([]) ==> r == Err(NoMatchFound))
      && (MatchFrom(h, cfg.rules, filename, 0).Ok? && |MatchFrom(h, cfg.rules, filename, 0).value| > 0 ==> r.Ok?)
      && (r.Ok? ==> exists k :: (0 <= k < |cfg.rules|
            && RuleHit(h, cfg.rules[k], filename) == Ok(true)
            && (forall j :: 0 <= j < k ==> RuleHit(h, cfg.rules[j], filename) == Ok(false))
            && r.value == (if cfg.rules[k].name != "" then cfg.rules[k].name else cfg.rules[k].command)))
  {
    MatchFirst(h, cfg.rules, filename);
  }

  /** A configuration that fails to load is reported before anything is matched. */
  lemma RunMatchLoadError(h: Host, e: Error, filename: string)
    ensures RunMatch(h, Err(e), filename) == Err(e)
  {
  }
}
