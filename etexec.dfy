/**
 * The execution helpers of the older `et` binary (package cmd/et, files
 * execute.go and helpers.go). Unlike the `entry` command they run a rule's
 * command as written, with no script gate, and run every rule they are given
 * in order, stopping only at the first error: there is no fallthrough check.
 *
 * executeWithDefault, buildOptionLabel, buildInteractiveOptions, isFileOrURL
 * and handleCommandExecution are the same code as in the `entry` command and
 * are the ones of module Pipeline.
 */
module Et {
  import opened Wrappers
  import opened Domain
  import opened Matcher
  import opened Executor
  import opened Pipeline

  /** executeRule: the rule's command, with its background and terminal options. */
  function RuleStep(h: Host, dryRun: bool, s: Sink, rule: Rule, filename: string): Step {
    RunExecute(h, dryRun, s, rule.command, filename, Options(rule.background, rule.terminal))
  }

  /** executeRules: every rule in order, until one fails. */
  function RunAll(h: Host, dryRun: bool, s: Sink, rules: seq<Rule>, filename: string): (r: Step)
    ensures rules == [] ==> r == Step(None, s)
    ensures !dryRun && r.err.None? ==> |r.sink.spawned| == |s.spawned| + |rules|
    ensures Extends(s, r.sink)
    ensures dryRun ==> Quiet(s, r.sink)
    decreases |rules|
  {
    if rules == [] then Step(None, s)
    else
      var st := RuleStep(h, dryRun, s, rules[0], filename);
      if st.err.Some? then st else RunAll(h, dryRun, st.sink, rules[1..], filename)
  }

  /** handleFileExecution: the matched rules, else the default for a URL or file, else an error. */
  function HandleFile(h: Host, cfg: Config, dryRun: bool, s: Sink, filename: string): (r: Step)
    ensures MatchFrom(h, cfg.rules, filename, 0).Err? ==>
      r == Step(Some(ErrorMatchingRule(MatchFrom(h, cfg.rules, filename, 0).error)), s)
    ensures MatchFrom(h, cfg.rules, filename, 0) == Ok([]) && !IsFileOrUrl(h, filename) ==>
      r == Step(Some(FileNotFoundNoRule), s)
    ensures var m := MatchFrom(h, cfg.rules, filename, 0);
      m.Ok? && |m.value| > 0 && !dryRun && r.err.None? ==> |r.sink.spawned| == |s.spawned| + |m.value|
    ensures Extends(s, r.sink)
    ensures dryRun ==> Quiet(s, r.sink)
  {
    MatchSound(h, cfg.rules, filename, 0);
    match MatchFrom(h, cfg.rules, filename, 0)
    case Err(e) => Step(Some(ErrorMatchingRule(e)), s)
    case Ok(ks) =>
      if |ks| > 0 then RunAll(h, dryRun, s, Pick(cfg.rules, ks), filename)
      else if IsFileOrUrl(h, filename) then WithDefault(h, cfg, dryRun, s, filename)
      else Step(Some(FileNotFoundNoRule), s)
  }

  /** executeSelectedOption: the system option opens by default, any other runs its rule. */
  function Selected(h: Host, cfg: Config, dryRun: bool, s: Sink, choice: Choice, filename: string): Step
    requires !choice.isSystem ==> choice.rule.Some?
  {
    if choice.isSystem then WithDefault(h, cfg, dryRun, s, filename)
    else RuleStep(h, dryRun, s, choice.rule.value, filename)
  }

  // ---------------------------------------------------------------------
  // The helpers, driving an executor

  method ExecuteRule(exec: Executor, h: Host, rule: Rule, filename: string) returns (err: Option<Error>)
    modifies exec
    ensures Step(err, exec.State()) == RuleStep(h, exec.dryRun, old(exec.State()), rule, filename)
  {
    var opts := Options(rule.background, rule.terminal);
    err := exec.Execute(h, rule.command, filename, opts);
  }

  method ExecuteRules(exec: Executor, h: Host, rules: seq<Rule>, filename: string) returns (err: Option<Error>)
    modifies exec
    ensures Step(err, exec.State()) == RunAll(h, exec.dryRun, old(exec.State()), rules, filename)
  {
    for i := 0 to |rules|
      invariant RunAll(h, exec.dryRun, old(exec.State()), rules, filename)
             == RunAll(h, exec.dryRun, exec.State(), rules[i..], filename)
    {
      assert rules[i..][1..] == rules[i + 1..];
      var e := ExecuteRule(exec, h, rules[i], filename);
      if e.Some? {
        return e;
      }
    }
    return None;
  }

  method HandleFileExecution(exec: Executor, h: Host, cfg: Config, filename: string) returns (err: Option<Error>)
    modifies exec
    ensures Step(err, exec.State()) == HandleFile(h, cfg, exec.dryRun, old(exec.State()), filename)
  {
    var rules := Match(h, cfg.rules, filename);
    if rules.Err? {
      return Some(ErrorMatchingRule(rules.error));
    }
    MatchSound(h, cfg.rules, filename, 0);
    if |rules.value| > 0 {
      err := ExecuteRules(exec, h, Pick(cfg.rules, rules.value), filename);
      return;
    }
    if IsFileOrUrl(h, filename) {
      err := ExecuteWithDefault(exec, h, cfg, filename);
      return;
    }
    return Some(FileNotFoundNoRule);
  }

  method ExecuteSelectedOption(exec: Executor, h: Host, cfg: Config, choice: Choice, filename: string) returns (err: Option<Error>)
    requires !choice.isSystem ==> choice.rule.Some?
    modifies exec
    ensures Step(err, exec.State()) == Selected(h, cfg, exec.dryRun, old(exec.State()), choice, filename)
  {
    if choice.isSystem {
      err := ExecuteWithDefault(exec, h, cfg, filename);
      return;
    }
    err := ExecuteRule(exec, h, choice.rule.value, filename);
  }

  // ---------------------------------------------------------------------
  // Properties

  /**
   * Running `a + b` runs `a` in order and, unless one of its rules failed,
   * then `b` from where `a` left the executor: the first error ends the run.
   */
  lemma {:induction false} RunAllAppend(h: Host, dryRun: bool, s: Sink, a: seq<Rule>, b: seq<Rule>, filename: string)
    ensures RunAll(h, dryRun, s, a + b, filename)
         == (var st := RunAll(h, dryRun, s, a, filename);
             if st.err.Some? then st else RunAll(h, dryRun, st.sink, b, filename))
    decreases |a|
  {
    if a == [] {
      assert a + b == b;
    } else {
      assert (a + b)[0] == a[0];
      assert (a + b)[1..] == a[1..] + b;
      var st := RuleStep(h, dryRun, s, a[0], filename);
      if st.err.None? {
        RunAllAppend(h, dryRun, st.sink, a[1..], b, filename);
      }
    }
  }

  /** A rule with no script and a non-empty command: the two binaries run it the same way. */
  predicate Plain(rule: Rule) {
    rule.script == "" && rule.command != ""
  }

  /**
   * On rules without scripts or empty commands where every rule but the last
   * falls through — the shape `Match` returns — running every rule is what
   * the `entry` command's fallthrough chain does.
   */
  lemma {:induction false} RunAllIsChain(h: Host, dryRun: bool, s: Sink, rules: seq<Rule>, filename: string)
    requires forall k :: 0 <= k < |rules| ==> Plain(rules[k])
    requires forall k :: 0 <= k < |rules| - 1 ==> rules[k].fallthrough
    ensures var c := RunRules(h, dryRun, s, rules, filename);
      RunAll(h, dryRun, s, rules, filename) == Step(c.err, c.sink)
    decreases |rules|
  {
    if rules != [] {
      var st := RuleStep(h, dryRun, s, rules[0], filename);
      assert RunRule(h, dryRun, s, rules[0], filename) == RuleRun(true, st.err, st.sink);
      if st.err.None? {
        if |rules| == 1 {
          assert rules[1..] == [];
        } else {
          assert rules[0].fallthrough;
          RunAllIsChain(h, dryRun, st.sink, rules[1..], filename);
        }
      }
    }
  }

  /** A fallthrough-free rule that succeeds does not stop the run: the next rule runs too. */
  lemma NoFallthroughCheck(h: Host, dryRun: bool, s: Sink, rule: Rule, rest: seq<Rule>, filename: string)
    requires !rule.fallthrough && RuleStep(h, dryRun, s, rule, filename).err.None?
    ensures RunAll(h, dryRun, s, [rule] + rest, filename)
         == RunAll(h, dryRun, RuleStep(h, dryRun, s, rule, filename).sink, rest, filename)
  {
    assert ([rule] + rest)[1..] == rest;
  }

  /** The rule's script is never consulted: a rule runs its own command whatever script it carries. */
  lemma ScriptIgnored(h: Host, dryRun: bool, s: Sink, rule: Rule, script: string, filename: string)
    ensures RuleStep(h, dryRun, s, rule.(script := script), filename) == RuleStep(h, dryRun, s, rule, filename)
    ensures rule.script == "" && rule.command != "" ==>
      var st := RuleStep(h, dryRun, s, rule, filename);
      RunRule(h, dryRun, s, rule, filename) == RuleRun(true, st.err, st.sink)
  {
  }

  /** In dry-run mode running the rules starts no process and records no history. */
  lemma {:induction false} DryRunAllSpawnsNothing(h: Host, s: Sink, rules: seq<Rule>, filename: string)
    ensures RunAll(h, true, s, rules, filename).sink.spawned == s.spawned
    ensures RunAll(h, true, s, rules, filename).sink.history == s.history
    decreases |rules|
  {
    if rules != [] {
      var rule := rules[0];
      var st := RuleStep(h, true, s, rule, filename);
      DryRunExecute(h, s, rule.command, filename, Options(rule.background, rule.terminal));
      if st.err.None? {
        DryRunAllSpawnsNothing(h, st.sink, rules[1..], filename);
      }
    }
  }

  /** In dry-run mode handleFileExecution starts no process and records no history. */
  lemma DryRunFileSpawnsNothing(h: Host, cfg: Config, s: Sink, filename: string)
    ensures HandleFile(h, cfg, true, s, filename).sink.spawned == s.spawned
    ensures HandleFile(h, cfg, true, s, filename).sink.history == s.history
  {
    MatchSound(h, cfg.rules, filename, 0);
    match MatchFrom(h, cfg.rules, filename, 0)
    case Err(_) =>
    case Ok(ks) =>
      if |ks| > 0 {
        DryRunAllSpawnsNothing(h, s, Pick(cfg.rules, ks), filename);
      } else {
        DryRunDefaultSpawnsNothing(h, cfg, s, filename);
      }
  }

  /**
   * With no scripts and no empty commands in the configuration, the older
   * handleFileExecution does exactly what the `entry` command's does.
   */
  lemma HandleFileAgrees(h: Host, cfg: Config, dryRun: bool, s: Sink, filename: string)
    requires forall k :: 0 <= k < |cfg.rules| ==> Plain(cfg.rules[k])
    ensures HandleFile(h, cfg, dryRun, s, filename) == Pipeline.HandleFile(h, cfg, dryRun, s, filename)
  {
    MatchSound(h, cfg.rules, filename, 0);
    match MatchFrom(h, cfg.rules, filename, 0)
    case Err(_) =>
    case Ok(ks) =>
      if |ks| > 0 {
        RunAllIsChain(h, dryRun, s, Pick(cfg.rules, ks), filename);
      }
  }

  /** The selected rule runs as written; the system option is the default command or the opener. */
  lemma SelectedAgrees(h: Host, cfg: Config, dryRun: bool, s: Sink, choice: Choice, filename: string)
    requires !choice.isSystem ==> choice.rule.Some? && Plain(choice.rule.value)
    ensures Selected(h, cfg, dryRun, s, choice, filename) == RunSelected(h, cfg, dryRun, s, choice, filename)
  {
  }
}
