# A Dafny model of `entry` / `et`

`entry` (with its older twin binary `et`) opens a file or URL by running a
shell command. The command is chosen by walking an ordered list of
user-configured rules: each rule can require an operating system and a URL
scheme, and matches on file extensions, a regular expression, a MIME type or
an embedded script. Rules with `fallthrough` let the next matching rule run
too. When nothing matches, the program falls back to a configured default
command or the system opener. A target that is neither a file nor a URL is
run as a command, possibly through an alias. Beside that core the programs
offer:

- a dry-run mode that prints the command lines instead of running them;
- an interactive chooser over every matching rule;
- an explain mode that reports why each rule did or did not match;
- a history of launched commands;
- configuration editing commands and shell completion of profile names;
- a terminal dashboard for reordering, adding, editing and deleting rules.

The model is split into one module per source component:

| module | file | models |
|---|---|---|
| `Wrappers` | wrappers.dfy | `Option` and `Result` |
| `Text` | text.dfy | the `strings` and `path/filepath` functions the core relies on |
| `Domain` | domain.dfy | rules, configurations, URLs, script values, errors and the `Host` |
| `Matcher` | matcher.dfy | `internal/matcher`: Match and MatchAll |
| `Template` | template.dfy | the `{{.Field}}` subset of `text/template` that commands use |
| `History` | history.dfy | `internal/history` |
| `Executor` | executor.dfy | `internal/executor`: a class over its output, its launched processes and its history file |
| `Pipeline` | pipeline.dfy | `internal/cli`: execute.go, interactive.go and cmd_match.go |
| `CliRoot` | cliroot.dfy | `internal/cli/root.go` |
| `ConfigCommand` | configcmd.dfy | `internal/cli/config.go`: the config subcommands and their string helpers |
| `Completion` | completion.dfy | `internal/cli/completion.go` |
| `Dashboard` | dashboard.dfy | `internal/tui/dashboard.go` |
| `Explain` | explain.dfy | `cmd/et/explain.go` |
| `Et` | etexec.dfy | `cmd/et/execute.go` and `cmd/et/helpers.go` |
| `EtRoot` | etroot.dfy | `cmd/et/root.go` |

`Host` stands for everything outside the program. Each external service is a
field of oracle functions:

- URL parsing;
- regular-expression compilation and matching;
- MIME sniffing;
- `filepath.Abs`;
- file existence;
- `PATH` lookup;
- the JavaScript interpreter's result for a script;
- the operating system name;
- the clock;
- whether the history file can be written;
- the answer of the interactive selector.

An `Executor` records three things instead of acting on the world:

- the bytes it would write to its output;
- the processes it would launch;
- the state of the history file.

The executor's methods are each proved equal to a step function on that
record. The command-line handlers of `entry` and `et` are specified by
functions built from those steps, and the properties are lemmas about those
functions.

## Model

| member | source | states |
|---|---|---|
| Text.TrimPrefix | internal/matcher/matcher.go:57 | when `s` starts with `p` the result is what follows `p` in `s`; otherwise `s` unchanged |
| Text.TrimSuffix | internal/executor/executor.go:58 | when `s` ends with `p` the result followed by `p` is `s`; otherwise `s` unchanged |
| Text.LowerChar | internal/matcher/matcher.go:29 | ASCII upper-case letters map to lower-case letters, every other character to itself |
| Text.ToLower | internal/matcher/matcher.go:29 | same length as the input, each character lowered by LowerChar |
| Text.JoinLength | internal/tui/dashboard.go:388 | `strings.Join` of n strings is their total length plus n-1 separators long |
| Text.TrimLeftBy | internal/tui/dashboard.go:451-453 | the result is a suffix of the input that does not start with a trimmed character, and every dropped character is one (the left half of `strings.TrimSpace`) |
| Text.TrimRightBy | internal/tui/dashboard.go:451-453 | the result is a prefix of the input that does not end with a trimmed character, and every dropped character is one (the right half of `strings.TrimSpace`) |
| Text.PathExt | internal/executor/executor.go:57 | `filepath.Ext`: a suffix of the path that is empty or a dot followed by no dot and no slash |
| Text.StripTrailingSlashes | internal/executor/executor.go:56 | a prefix of the path with no trailing slash; only slashes are dropped |
| Text.AfterLastSlash | internal/executor/executor.go:56 | a suffix of the path with no slash, preceded in the path by a slash when shorter than it |
| Text.PathBase | internal/executor/executor.go:56 | `filepath.Base` of the empty path is `.`, of a path of slashes `/`; otherwise the result is slash-free, ends the path once trailing slashes are dropped, and is preceded there by a slash when shorter |
| Text.PathDir | internal/executor/executor.go:55 | `filepath.Dir` of a path without a slash is `.`; otherwise it is `/` or a prefix of the path not ending in a slash |
| Text.LastElement | internal/executor/executor.go:56 | the part after the last slash of `d + "/" + b` is `b` when `b` has no slash |
| Text.DirAndBase | internal/executor/executor.go:55-56 | for a slash-free non-empty `b` and a `d` not ending in a slash, `Base(d/b)` is `b`, `Dir(d/b)` is `d` (or `/` for an empty `d`), and `Dir + "/" + Base` gives the path back |
| Text.ExtIsSuffixOfBase | internal/executor/executor.go:56-58 | the extension is a suffix of the base name, so trimming it leaves the name |
| Text.ExtWithinLastElement | internal/executor/executor.go:56-58 | the extension lies within the last path element |
| Matcher.Verdicts | internal/matcher/matcher.go:21-95 | one verdict per rule, the per-rule predicate of Match applied to that rule |
| Matcher.VerdictsAll | internal/matcher/matcher.go:108-175 | one verdict per rule, the per-rule predicate of MatchAll applied to that rule |
| Matcher.ContainsFolded | internal/matcher/matcher.go:26-36 | true exactly when some OS entry lower-cased equals the running OS |
| Matcher.RuleHit | internal/matcher/matcher.go:26-88 | a rule barred by the OS list misses; a scheme decides alone; otherwise an extension hit matches, and an error arises exactly when no extension hits and the regex does not compile, naming that regex; a hit without a scheme comes from the extension, the regex or the MIME type |
| Matcher.EvaluateRule | internal/matcher/matcher.go:22-88 | the imperative per-rule check equals RuleHit: OS gate, scheme gate, then extensions, regex and MIME in that order |
| Matcher.Match | internal/matcher/matcher.go:14-98 | the loop returns what the stop-at-first policy returns on the verdicts |
| Matcher.EvaluateRuleAll | internal/matcher/matcher.go:109-174 | the imperative per-rule check of MatchAll equals RuleHitAll |
| Matcher.MatchAll | internal/matcher/matcher.go:101-178 | the loop returns what the collect-all policy returns on the verdicts |
| Matcher.FirstSound | internal/matcher/matcher.go:89-94 | the stop-at-first policy returns increasing indices of matching rules, all but the last of which fall through |
| Matcher.MatchSound | internal/matcher/matcher.go:14-98 | Match returns increasing indices of matching rules, and every one but the last falls through |
| Matcher.FirstComplete | internal/matcher/matcher.go:89-94 | every matching rule is returned unless it comes after the last returned rule, which then does not fall through |
| Matcher.MatchComplete | internal/matcher/matcher.go:14-98 | no matching rule is left out of Match's result except after a terminal (non-fallthrough) match |
| Matcher.FirstErrorIff | internal/matcher/matcher.go:68-72 | the policy fails with `e` exactly when some rule's verdict is `e` and every earlier verdict let the loop continue |
| Matcher.MatchErrorIff | internal/matcher/matcher.go:68-72 | Match fails with `e` if and only if a rule reached by the loop has a regex error `e` |
| Matcher.OnlyRegexErrs | internal/matcher/matcher.go:69-71 | the only error a rule yields is the pattern error of its own invalid regex; a MIME test never applies to a URL |
| Matcher.AllExact | internal/matcher/matcher.go:108-175 | the collect-all policy returns, in increasing order, exactly the indices whose verdict is a match |
| Matcher.MatchAllExact | internal/matcher/matcher.go:101-178 | MatchAll returns, in order, exactly the rules whose per-rule check matches |
| Matcher.AllErrorIff | internal/matcher/matcher.go:152-155 | the collect-all policy fails if and only if some verdict is an error |
| Matcher.MatchAllErrorIff | internal/matcher/matcher.go:152-155 | MatchAll fails if and only if some rule's regex fails to compile on the path to it |
| Matcher.HitImpliesHitAll | internal/matcher/matcher.go:40-47 | a rule that Match's check accepts is accepted by MatchAll's check too |
| Matcher.MatchWithinMatchAll | internal/matcher/matcher.go:14-178 | when both succeed, every rule Match returns is also returned by MatchAll |
| Matcher.OsExcluded | internal/matcher/matcher.go:26-37 | a rule whose OS list excludes the running OS is returned by neither Match nor MatchAll |
| Matcher.SchemeGate | internal/matcher/matcher.go:40-47 | every rule with a scheme that Match returns has a scheme equal, ignoring case, to the target URL's |
| Matcher.SchemeMismatchDiffers | internal/matcher/matcher.go:124-148 | a scheme mismatch excludes a rule from Match, yet MatchAll still accepts it on its extension |
| Matcher.FirstFirst | internal/matcher/matcher.go:21-95 | the first returned index is the first matching rule, and all rules before it did not match |
| Matcher.MatchFirst | internal/matcher/matcher.go:14-98 | the first rule Match returns is the first rule that matches |
| Template.FindPair | internal/executor/executor.go:45 | the position of the first `{{` (or `}}`) at or after `i`, or none when there is none |
| Template.SplitAction | internal/executor/executor.go:45 | an action that parses names an identifier and leaves a shorter rest |
| Template.DataFor | internal/executor/executor.go:55-66 | the template data keeps the file as given, and the name followed by the extension is the base |
| Template.LitWithoutAction | internal/executor/executor.go:45-70 | text with no action renders as itself, followed by the rest |
| Template.LitThenRender | internal/executor/executor.go:45-70 | brace-free text before a template renders as itself; the template parses the same way |
| Template.SplitField | internal/executor/executor.go:45 | `.Name}}` followed by more text splits into the field name and that text |
| Template.FieldThenRender | internal/executor/executor.go:45-70 | `{{.Name}}` renders as that field's value followed by the rest; an unknown field fails |
| Template.RenderPrint | internal/executor/executor.go:45-70 | printing well-formed pieces and parsing them back renders the same text as executing the pieces |
| Template.UnclosedIsParseError | internal/executor/executor.go:45-48 | an action that is never closed is a template parse error |
| Template.UnknownFieldIsExecError | internal/executor/executor.go:68-70 | a field other than File, Dir, Base, Name and Ext parses but fails at execution |
| Executor.ExecuteLine | internal/executor/executor.go:74-80 | the dry-run line is the command, then " (background)" exactly for background runs, then a newline |
| Executor.CommandLine | internal/executor/executor.go:119-121 | the dry-run line is the program, one space, the joined arguments and a newline |
| Executor.SystemOpener | internal/executor/executor.go:140-150 | the opener ends with the path; it is `cmd` exactly on Windows, otherwise one argument, the path |
| Executor.ScriptResult | internal/executor/executor.go:207-227 | a thrown script is an error; a string matches with that command; only `true` matches otherwise |
| Executor.ScriptBindings | internal/executor/executor.go:177-189 | the script sees the file as given, and `name` followed by `ext` is `base` |
| Executor.Executor.constructor | internal/executor/executor.go:36-41 | a new executor has the given dry-run flag, has written nothing and launched nothing |
| Executor.Executor.Execute | internal/executor/executor.go:43-116 | the new state and the error are those of RunExecute on the old state |
| Executor.RunExecute | internal/executor/executor.go:43-116 | a render error changes nothing; a dry run appends exactly the execute line; a real run writes no dry-run line and launches the command detached or through the shell; history changes only after a successful foreground run; output and launches only grow |
| Executor.Executor.ExecuteCommand | internal/executor/executor.go:118-134 | the new state and the error are those of RunCommand on the old state |
| Executor.Executor.OpenSystem | internal/executor/executor.go:136-166 | the new state and the error are those of RunOpener on the old state |
| Executor.CommandIsRender | internal/executor/executor.go:45-70 | for a template that parses, the command is the template rendered on the data of the absolute path, or the path error |
| Executor.DryRunExecute | internal/executor/executor.go:74-81 | a dry run launches nothing, keeps the history, and on success appends exactly the dry-run line; on failure nothing changes |
| Executor.ParseErrorFirst | internal/executor/executor.go:45-48 | a template that does not parse fails before anything else, leaving the state unchanged |
| Executor.TerminalIgnored | internal/executor/executor.go:43-116 | the terminal option changes nothing |
| Executor.HistoryOnlyAfterForegroundRun | internal/executor/executor.go:106-113 | history changes only after a successful foreground real run, and then by adding the file with no rule name |
| Executor.HistoryFailureIgnored | internal/executor/executor.go:112 | whether saving history works does not change the error Execute returns |
| Executor.RunWritesNothing | internal/executor/executor.go:83-115 | a real run writes no dry-run line and launches at most one process |
| Executor.DryRunOpener | internal/executor/executor.go:152-155 | the opener's dry run succeeds, launches nothing and writes a line ending with the path |
| History.LoadHistory | internal/history/history.go:39-59 | a missing file loads as no entries, a stored one as its entries; no home directory or an unreadable file is an error |
| History.Save | internal/history/history.go:85-103 | saving succeeds exactly when there is a home directory and the write works; it then stores the entries, otherwise changes nothing |
| History.Push | internal/history/history.go:74-80 | the new entry comes first, followed by the older entries, capped at 100 |
| History.AddEntry | internal/history/history.go:61-83 | saving succeeds exactly when a home directory exists and the file is writable; a failure leaves the file as it was; success stores at most 100 entries with the new one first |
| History.ClearHistory | internal/history/history.go:105-113 | clearing succeeds exactly when a home directory exists and the file is writable, and then leaves an empty history; a failure leaves the file as it was |
| History.AddThenLoad | internal/history/history.go:61-83 | after a successful add, loading yields the new entry followed by the prior entries (none if they were unreadable), at most 100 |
| History.AddToUnreadable | internal/history/history.go:62-66 | an unreadable history is replaced by one holding only the new entry |
| History.FailedAddChangesNothing | internal/history/history.go:82 | when the write fails the history file is unchanged and the error is reported |
| History.ClearThenLoad | internal/history/history.go:105-113 | after a successful clear, loading yields no entries |
| History.AddAllKeepsNewest | internal/history/history.go:61-83 | adding entries one by one to a missing file leaves a loadable history holding exactly the newest 100 (or all), most recent first |
| History.PushKeepsNewest | internal/history/history.go:74-80 | pushing the next entry onto a newest-first history of the earlier entries gives a newest-first history of all of them |
| Pipeline.Gate | internal/cli/execute.go:31-50 | a thrown script is a script error; a non-empty string runs that string; an empty string or `true` keeps the rule's command; anything else skips the rule; a command that runs is never empty |
| Pipeline.Resolve | internal/cli/execute.go:28-50 | a rule without a script runs its own command (or nothing when it is empty); a rule with one goes through the script gate |
| Pipeline.Pick | internal/cli/execute.go:83-89 | the rules at the matched indices, in the order Match returned them |
| Pipeline.OptionLabel | internal/cli/interactive.go:20-25 | the rule's name when it has one, otherwise "Command: " and its command; never empty; `et`'s buildOptionLabel (cmd/et/helpers.go:72-77) is the same code |
| Pipeline.BuildInteractiveOptions | internal/cli/interactive.go:28-56 | the loop builds the option list InteractiveOptions describes; `et`'s buildInteractiveOptions (cmd/et/helpers.go:80-103) is the same code |
| Pipeline.InteractiveOptionsShape | internal/cli/interactive.go:28-56 | fails exactly when MatchAll fails; otherwise one option per MatchAll rule in order, followed by the single system option exactly when the target is a file or URL |
| Pipeline.Labels | internal/cli/interactive.go:62-65 | one label per option, each that option's caption |
| Pipeline.WithDefault | internal/cli/execute.go:14-21 | without a default command the system opener is launched and history is untouched; a default command that fails to render changes nothing; output and launches only grow, and a dry run launches nothing |
| Pipeline.ResolveRule | internal/cli/execute.go:28-50 | the method returns the resolution of the rule's script gate and command: script error, skipped, nothing to run, or the command to run |
| Pipeline.RunRule | internal/cli/execute.go:25-61 | a rule counts as executed exactly when its script lets it through; a script error is reported and changes nothing; a skipped rule or an empty command changes nothing; a dry run launches nothing |
| Pipeline.RunRules | internal/cli/execute.go:64-78 | no rules do nothing; an error always stops the chain; output and launches only grow, and a dry run launches nothing |
| Pipeline.HandleFile | internal/cli/execute.go:92-111 | a matching error is reported and changes nothing; no match on a target that is neither file nor URL fails with no rule found; a dry run launches nothing |
| Pipeline.HandleCommand | internal/cli/execute.go:113-134 | an alias launches its target with the remaining arguments; a command on the path, with arguments, or without a default launches as given; a dry run launches nothing |
| Pipeline.HandleInteractive | internal/cli/interactive.go:91-110 | a matching error is reported, no options fail with no matching rules, an aborted selection fails, each changing nothing; a dry run launches nothing |
| Pipeline.ExecuteWithDefault | internal/cli/execute.go:14-21 | the new executor state and error are WithDefault's: the default command without options, or the system opener; `et`'s executeWithDefault (cmd/et/helpers.go:38-43) is the same code |
| Pipeline.ExecuteRule | internal/cli/execute.go:25-61 | whether the rule ran, the error and the new state are RunRule's |
| Pipeline.ExecuteRules | internal/cli/execute.go:64-78 | the loop leaves the error and state of the fallthrough chain RunRules |
| Pipeline.HandleFileExecution | internal/cli/execute.go:92-111 | the error and new state are those of HandleFile |
| Pipeline.ExecuteSelectedOption | internal/cli/interactive.go:84-89 | the system option opens by default, any other option runs its rule |
| Pipeline.HandleInteractiveExecution | internal/cli/interactive.go:91-110 | the error and new state are those of HandleInteractive |
| Pipeline.HandleCommandExecution | internal/cli/execute.go:113-134 | the error and new state are those of HandleCommand; `et`'s handleCommandExecution (cmd/et/execute.go:32-53) is the same code |
| Pipeline.DefaultOrOpener | internal/cli/execute.go:14-21 | with a default command it runs that command with no options; without one the system opener's dry-run line is written and nothing is launched |
| Pipeline.ScriptErrorRunsNothing | internal/cli/execute.go:32-35 | a script that throws runs nothing, changes nothing and reports the script failure |
| Pipeline.ScriptMissRunsNothing | internal/cli/execute.go:36-39 | a script returning false, null, undefined or another value skips the rule without error and changes nothing |
| Pipeline.ScriptCommandOverrides | internal/cli/execute.go:40-42 | a script returning a non-empty string runs that string with the rule's options |
| Pipeline.ScriptKeepsCommand | internal/cli/execute.go:40-45 | a script returning true or the empty string behaves as if the rule had no script |
| Pipeline.EmptyCommandRunsNothing | internal/cli/execute.go:45-50 | a matched rule with nothing to run counts as executed, with no error and no change |
| Pipeline.ChainErrorStops | internal/cli/execute.go:67-70 | an error always ends the chain |
| Pipeline.ChainAppend | internal/cli/execute.go:64-78 | running `a + b` runs `a`, and then `b` from where `a` left off unless `a` stopped |
| Pipeline.SkippedRuleTransparent | internal/cli/execute.go:36-39 | a rule its script skips can be removed without changing the chain |
| Pipeline.TerminalRuleEnds | internal/cli/execute.go:71-75 | an executed rule without fallthrough ends the chain with its own result |
| Pipeline.DryRunRuleSpawnsNothing | internal/cli/execute.go:25-61 | in dry-run mode a rule launches no process and records no history |
| Pipeline.DryRunChainSpawnsNothing | internal/cli/execute.go:64-78 | in dry-run mode the chain launches no process and records no history |
| Pipeline.DryRunDefaultSpawnsNothing | internal/cli/execute.go:14-21 | in dry-run mode the default action launches no process and records no history |
| Pipeline.DryRunFileSpawnsNothing | internal/cli/execute.go:92-111 | in dry-run mode the file handler launches no process and records no history |
| Pipeline.DryRunCommandSpawnsNothing | internal/cli/execute.go:113-134 | in dry-run mode the command handler launches no process and records no history |
| Pipeline.DryRunInteractiveSpawnsNothing | internal/cli/interactive.go:91-110 | in dry-run mode the interactive handler launches no process and records no history |
| Pipeline.HandleFileFailsCleanly | internal/cli/execute.go:94-97 | a match error is wrapped as "error matching rule"; no match on a target that is neither file nor URL is "file not found"; nothing changes in either case |
| Pipeline.HandleFileFallsBack | internal/cli/execute.go:104-107 | with no match on a file or URL the file handler is the default action |
| Pipeline.HandleFileRunsFirstMatch | internal/cli/execute.go:99-102 | with matches, the chain starts at the first matching rule, and every earlier rule did not match |
| Pipeline.AliasWins | internal/cli/execute.go:117-121 | an alias runs directly with the remaining arguments, whatever PATH and the default command say |
| Pipeline.UnknownWordUsesDefault | internal/cli/execute.go:125-131 | one word that is neither an alias nor on PATH, with a default command, is opened as a new file with that command |
| Pipeline.KnownCommandRunsAsGiven | internal/cli/execute.go:123-133 | a non-alias that is on PATH, or has arguments, or has no default to fall back to, runs as given |
| Pipeline.NoOptionsNoPrompt | internal/cli/interactive.go:98-100 | with no candidates and no system option the selector is never shown and "no matching rules found" is reported |
| Pipeline.SelectedOptionRoutes | internal/cli/interactive.go:102-109 | the chosen system option is the default action; any other chosen option runs its rule once, ignoring fallthrough |
| Pipeline.RunMatch | internal/cli/cmd_match.go:20-43 | a load error and then a match error are returned as they are; no match is "no match found"; the command succeeds exactly when the configuration loads and some rule matches |
| Pipeline.RunMatchReportsFirst | internal/cli/cmd_match.go:26-42 | a match error is returned; no match is "no match found"; a non-empty match always yields a result, and any result is the name (or command) of the first rule that hits, every earlier rule missing |
| Pipeline.RunMatchLoadError | internal/cli/cmd_match.go:21-24 | a configuration that fails to load is reported as is |
| CliRoot.Route | internal/cli/root.go:177-204 | explain happens exactly when asked for with one argument, otherwise the arguments are executed; output and launches only grow, and a dry run launches nothing |
| CliRoot.RootOutcome | internal/cli/root.go:74-205 | no arguments show help, a subcommand is handed over, a failure is the configuration load error, and a dry run launches nothing and keeps the history |
| CliRoot.Root.constructor | internal/cli/root.go:14-21 | a new root holds the given flag values |
| CliRoot.Root.RunRoot | internal/cli/root.go:74-205 | the outcome is RootOutcome on the flags before the call, and the profile and config-path globals are left as FlagsAfter says |
| CliRoot.Root.LoadConfig | internal/cli/root.go:148-175 | the loaded configuration is LoadFor's; the profile falls back to ENTRY_PROFILE and the config path to the profile's |
| CliRoot.RouteArgs | internal/cli/root.go:177-204 | the outcome of the imperative routing equals Route on a fresh executor |
| CliRoot.NoArgumentsShowHelp | internal/cli/root.go:119-123 | no positional argument shows help and leaves the globals unchanged |
| CliRoot.ProfileAndConfigSources | internal/cli/root.go:148-161 | an explicit profile wins over ENTRY_PROFILE; an explicit config file wins over the profile; a profile whose path cannot be resolved fails if and only if no config file was given; otherwise the config path becomes the profile's |
| CliRoot.LoadFailureRunsNothing | internal/cli/root.go:172-175 | a configuration that fails to load is reported as "error loading config" and nothing runs |
| CliRoot.ExplainOnlyExplains | internal/cli/root.go:180-185 | explain mode with one argument only reports, and runs nothing |
| CliRoot.InteractiveOnlySelects | internal/cli/root.go:191-194 | interactive mode with one argument is exactly the interactive handler |
| CliRoot.FileFailureFallsBackToCommand | internal/cli/root.go:196-204 | a file handler that succeeds ends the run; one that fails is followed by the command handler on the same argument, after whatever the file attempt wrote |
| CliRoot.SeveralArgumentsRunCommand | internal/cli/root.go:202-204 | two or more arguments go straight to the command handler |
| CliRoot.DryRunRootSpawnsNothing | internal/cli/root.go:177-204 | with --dry-run any run launches no process and leaves the history as it was |
| ConfigCommand.JoinStrings | internal/cli/config.go:418-432 | the loop builds the strings joined by commas: nothing for none, the first followed by ",s" for each later one |
| ConfigCommand.JoinSnoc | internal/cli/config.go:426-430 | joining one more string appends the separator and that string |
| ConfigCommand.Fields | internal/cli/config.go:449-467 | splitting at the separator yields at least one field |
| ConfigCommand.SplitString | internal/cli/config.go:449-467 | the loop returns Split: nothing for the empty string, otherwise the fields between separators, keeping empty ones |
| ConfigCommand.FieldsCount | internal/cli/config.go:455-465 | a non-empty input has one more field than separators |
| ConfigCommand.FieldsFree | internal/cli/config.go:455-465 | no field contains the separator |
| ConfigCommand.JoinFields | internal/cli/config.go:449-467 | joining the fields with the separator gives the input back |
| ConfigCommand.FieldsOfPlain | internal/cli/config.go:455-465 | a string without the separator is one field |
| ConfigCommand.FieldsOfPrefix | internal/cli/config.go:455-465 | a separator-free prefix followed by the separator becomes the first field, the rest is split on its own |
| ConfigCommand.FieldsOfJoin | internal/cli/config.go:449-467 | splitting separator-free strings after joining them gives them back |
| ConfigCommand.TrimLeading | internal/cli/config.go:472-474 | the leading trim never lengthens its input |
| ConfigCommand.TrimTrailing | internal/cli/config.go:475-477 | the trailing trim never lengthens its input |
| ConfigCommand.TrimSpace | internal/cli/config.go:469-479 | the loops return Trim of the input |
| ConfigCommand.LeadingDropped | internal/cli/config.go:472-474 | the leading trim is a suffix of the input; every dropped byte is a space, tab, newline or carriage return and the first kept one is not |
| ConfigCommand.TrailingDropped | internal/cli/config.go:475-477 | the trailing trim is a prefix of the input; every dropped byte is one of the four and the last kept one is not |
| ConfigCommand.TrimIsInnerSlice | internal/cli/config.go:469-479 | the trimmed string is a slice of the input with only trimmed bytes on either side, and does not begin or end with one |
| ConfigCommand.TrimIdempotent | internal/cli/config.go:469-479 | trimming twice is trimming once |
| ConfigCommand.KeepTrimmed | internal/cli/config.go:439-446 | every kept piece is non-empty and already trimmed, and none are added |
| ConfigCommand.SplitAndTrim | internal/cli/config.go:435-447 | the loop returns SplitTrimmed: nothing for the empty string, otherwise the trimmed non-empty comma-separated pieces |
| ConfigCommand.KeepTrimmedClean | internal/cli/config.go:439-446 | pieces that are already non-empty and trimmed are all kept, in order |
| ConfigCommand.JoinThenSplit | internal/cli/config.go:418-447 | splitAndTrim undoes joinStrings on non-empty, trimmed, comma-free strings |
| ConfigCommand.RuleLabel | internal/cli/config.go:404-415 | the rule's name, else its comma-joined extensions, else its regex, else its command, with the matching prefix |
| ConfigCommand.LeadingDigits | internal/cli/config.go:213 | the length of the run of decimal digits at the start of the input |
| ConfigCommand.SkipScanSpace | internal/cli/config.go:213 | the input after the spaces `%d` skips: a suffix that does not start with a space; none when a newline ends the scan |
| ConfigCommand.ScanIndex | internal/cli/config.go:212-215 | a scanned index fits in a 64-bit int; a scan failure is "invalid index" naming the text |
| ConfigCommand.Decimal | internal/cli/config.go:213 | a natural number written in decimal is a non-empty run of digits |
| ConfigCommand.DecimalValue | internal/cli/config.go:213 | reading the decimal digits back gives the number |
| ConfigCommand.ScanDecimal | internal/cli/config.go:212-215 | the index printed by `config list` scans back to itself |
| ConfigCommand.NotANumber | internal/cli/config.go:213-215 | text starting with something other than a space, sign or digit is an invalid index |
| ConfigCommand.RemoveAt | internal/cli/config.go:222-227 | an index below 1 or above the rule count is out of range; otherwise exactly the rule at that 1-based position is removed and the others keep their order |
| ConfigCommand.RemoveRule | internal/cli/config.go:211-235 | a bad index is reported before the configuration is loaded; a load error comes next; success removes the indexed rule and changes nothing else |
| ConfigCommand.RemoveListed | internal/cli/config.go:211-235 | removing rule k+1 (as the user types it) removes the k-th rule of the list |
| ConfigCommand.NewRule | internal/cli/config.go:140-154 | the new rule is exactly the flags given (name, regex, MIME, scheme, OS, command, background, terminal, fallthrough) with the extensions split at commas and trimmed, no extensions for an empty list, and no script |
| ConfigCommand.AddRule | internal/cli/config.go:106-164 | a missing command and then an invalid regex or MIME pattern are rejected, an invalid MIME pattern with its own error; the command succeeds exactly when the command is given and both patterns are empty or compile, and then the rule is appended to the loaded configuration, or to a fresh one when loading fails |
| ConfigCommand.AddedRuleIsLast | internal/cli/config.go:156 | the added rule is last, the earlier rules are unchanged, and removing it by its listed index restores the configuration |
| ConfigCommand.SetDefault | internal/cli/config.go:237-264 | a failure to find the configuration path is reported first; a missing file starts a fresh configuration; a load error is reported; success sets the default command, clears the default alias, and keeps rules, aliases and version |
| Completion.Offered | internal/cli/completion.go:91 | the profile name followed by ".yml" is the file name |
| Completion.Profiles | internal/cli/completion.go:87-96 | at most one profile name per directory entry |
| Completion.CompleteProfiles | internal/cli/completion.go:72-99 | a missing profiles directory offers nothing and disables file completion; no home directory or an unreadable directory is the error directive; a listing always disables file completion |
| Completion.OfferedIff | internal/cli/completion.go:87-96 | a name is offered if and only if some non-directory entry ending in ".yml" has it as its stem and the stem starts with the word being completed |
| Completion.OfferedShape | internal/cli/completion.go:87-96 | every offered name starts with the word and names a ".yml" file in the directory |
| Completion.ProfilesAppend | internal/cli/completion.go:87-96 | the filter keeps directory order: filtering two listings is filtering each in turn |
| Completion.EmptyWordKeepsAll | internal/cli/completion.go:92 | with nothing typed yet every ".yml" file is offered |
| Completion.LongerWordNarrows | internal/cli/completion.go:92 | typing more never adds candidates |
| Dashboard.Title | internal/tui/dashboard.go:81-86 | a rule's list title is its name, or its command when it has none |
| Dashboard.Description | internal/tui/dashboard.go:88-105 | a rule with no extensions, regex or script is described by its command; otherwise the description ends in "-> command" after the bracketed extensions or the regex |
| Dashboard.ParseExtensions | internal/tui/dashboard.go:450-454 | the edited extensions string is empty exactly when no extensions result |
| Dashboard.KeyStep | internal/tui/dashboard.go:268-428 | quitting happens exactly on `q`/ctrl-c while global keys are live; outside an unfiltered rules tab the rules and list are unchanged; on the form tab the key changes nothing |
| Dashboard.Finish | internal/tui/dashboard.go:446-487 | submitting returns to the rules tab with the form closed; an add grows the rules by one whose name and command are the form's, an edit keeps the length and puts the form's name and command at the edited position |
| Dashboard.Model.constructor | internal/tui/dashboard.go:212-244 | a new model shows the rules tab over the configuration's rules, with no form open and a valid state |
| Dashboard.Model.HandleKey | internal/tui/dashboard.go:268-428 | the new state and the quit signal are KeyStep's on the old state |
| Dashboard.Model.HandleRuleKey | internal/tui/dashboard.go:297-427 | the new state is RuleKey's on the old state |
| Dashboard.Model.MoveSelectedUp | internal/tui/dashboard.go:315-330 | the new state is MoveUpStep's on the old state |
| Dashboard.Model.MoveSelectedDown | internal/tui/dashboard.go:331-346 | the new state is MoveDownStep's on the old state |
| Dashboard.Model.FinishEdit | internal/tui/dashboard.go:446-487 | the new state is Finish's on the old state and the submitted form |
| Dashboard.Model.AppendNewRule | internal/tui/dashboard.go:447-463 | appending the new rule yields Finish's state for an add |
| Dashboard.Model.ReplaceEditedRule | internal/tui/dashboard.go:464-483 | replacing the edited rule yields Finish's state for an edit |
| Dashboard.Model.AbortEdit | internal/tui/dashboard.go:488-492 | the new state is Close's on the old state |
| Dashboard.KeyStepKeepsValid | internal/tui/dashboard.go:268-428 | every key keeps the list equal to the rules, the tab in range and the edit form tied to the edit tab |
| Dashboard.FinishKeepsValid | internal/tui/dashboard.go:446-487 | submitting the form keeps the state valid |
| Dashboard.AbortKeepsValid | internal/tui/dashboard.go:488-492 | aborting the form keeps the state valid |
| Dashboard.TabCycles | internal/tui/dashboard.go:283-292 | Tab moves to the next of the three main tabs, wrapping around; Shift+Tab undoes it; three presses of Tab return to the start; rules are untouched |
| Dashboard.EditingSwallowsKeys | internal/tui/dashboard.go:278-297 | on the edit tab no key changes the model or quits |
| Dashboard.FilteringKeepsTab | internal/tui/dashboard.go:279 | while a list is filtering, Quit and the tab keys neither quit nor change tab |
| Dashboard.DeleteRemovesSelected | internal/tui/dashboard.go:299-314 | Delete removes exactly the selected rule, keeping the others in order; with no valid selection nothing changes |
| Dashboard.MoveUpSwaps | internal/tui/dashboard.go:315-330 | moving up swaps the selected rule with the one above and follows it with the cursor; the rules are a permutation of the old ones; at the top nothing changes |
| Dashboard.MoveDownSwaps | internal/tui/dashboard.go:331-346 | moving down swaps the selected rule with the one below and follows it with the cursor; the rules are a permutation of the old ones |
| Dashboard.MoveDownAtBottom | internal/tui/dashboard.go:333 | at the bottom, or with no valid selection, moving down changes nothing |
| Dashboard.MoveUpThenDown | internal/tui/dashboard.go:315-346 | moving a rule up and then down restores the state |
| Dashboard.AddThenFinishAppends | internal/tui/dashboard.go:347-378 | Add opens the form on a blank rule, and submitting it appends the new rule and returns to the rules tab |
| Dashboard.EditThenFinishReplaces | internal/tui/dashboard.go:379-417 | Edit followed by submitting replaces only the selected rule, with the form's values |
| Dashboard.AbortKeepsRules | internal/tui/dashboard.go:488-492 | aborting keeps the rules, returns to the rules tab and clears the extensions text |
| Dashboard.FinishAdds | internal/tui/dashboard.go:447-463 | an add's submission appends the form's rule, with the parsed extensions when any were typed, to both the rules and the list |
| Dashboard.FinishReplaces | internal/tui/dashboard.go:464-483 | an edit's submission puts the form's rule, with the parsed typed extensions, at the edited position of both the rules and the list |
| Dashboard.TypedAsWritten | internal/tui/dashboard.go:347-417 | typing into the form as bound: an add leaves the state unchanged, an edit writes the typed fields into the edited rule and nothing else |
| Dashboard.CompleteAsWritten | internal/tui/dashboard.go:446-487 | completion as written closes the form and either appends the model's new rule or keeps the length |
| Dashboard.AddAsWrittenAppendsBlank | internal/tui/dashboard.go:347-378 | as written, Add then submit appends a blank rule whatever was typed |
| Dashboard.AddAsWrittenLosesForm | internal/tui/dashboard.go:347-378 | on an empty list, typing name `x`, command `vim`, extension `md` appends a blank rule as written, unlike the intended result |
| Dashboard.EditAsWrittenKeepsExtensions | internal/tui/dashboard.go:379-417 | as written, Edit then submit stores the typed fields but the pre-filled extensions |
| Dashboard.EditAbortAsWrittenDesyncs | internal/tui/dashboard.go:379-417 | as written, an aborted edit keeps a typed name in the rules while the list shows the old rule, so the state is no longer valid |
| Dashboard.ParseExtensionsShape | internal/tui/dashboard.go:450-454 | one extension per comma-separated piece, each piece trimmed of white space |
| Dashboard.EditedExtensionsRoundTrip | internal/tui/dashboard.go:388 | extensions joined with ", " for editing and submitted unchanged come back as they were, for comma-free trimmed extensions other than the single empty one |
| Explain.ExplainRow | cmd/et/explain.go:109-227 | the row is numbered from one, named `-` when unnamed, skipped exactly when the OS or script gate skips it (with an OS mismatch alone for the OS), matched exactly on a Matched verdict that carries the fallthrough flag, and matched whenever its scheme hits |
| Explain.ExplainReport | cmd/et/explain.go:26-266 | the outcome is a matched rule exactly when some row matched, otherwise the default command or the system default; URL details are shown exactly for URLs |
| Explain.AllRows | cmd/et/explain.go:109-228 | one evaluated row per rule, row k being rule k's |
| Explain.Decide | cmd/et/explain.go:250-261 | the report says a rule matched if and only if one did; otherwise it names the default command, or the system default when there is none |
| Explain.OpenRow | cmd/et/explain.go:123-156 | the imperative OS and scheme checks open the row as Open does: an OS mismatch or a scheme mismatch skips the rule, and a scheme hit matches it |
| Explain.ExtCheck | cmd/et/explain.go:158-182 | the extension check extends the row as ExtStage does |
| Explain.RegexCheck | cmd/et/explain.go:184-194 | the regex check extends the row as RegexStage does |
| Explain.MimeCheck | cmd/et/explain.go:196-211 | the MIME check extends the row as MimeStage does |
| Explain.EvaluateRow | cmd/et/explain.go:110-227 | the row built step by step is ExplainRow |
| Explain.HandleExplain | cmd/et/explain.go:26-266 | the report is ExplainReport: the target's description, the rows, and the outcome |
| Explain.ExplainRules | cmd/et/explain.go:106-228 | the loop produces the rows up to and including the first matched rule that does not fall through, and reports whether any row matched |
| Explain.CutShape | cmd/et/explain.go:213-227 | the rows kept are a prefix of all rows that stops exactly after the first matched rule without fallthrough |
| Explain.RowsNumbered | cmd/et/explain.go:110-117 | row k belongs to rule k, is numbered k+1 in decimal, and shows the rule's name or "-" |
| Explain.RowsStop | cmd/et/explain.go:213-223 | only the last row may be a matched rule without fallthrough, and rules after it get no row |
| Explain.SkipRows | cmd/et/explain.go:135-155 | an OS mismatch shows only "OS mismatch"; an OS or scheme mismatch is a SKIP that is not a match |
| Explain.StageHits | cmd/et/explain.go:158-211 | each check keeps the invariant that a row is matched exactly when its last condition is a success, and no earlier one is |
| Explain.FirstSuccessEnds | cmd/et/explain.go:119-211 | a row is matched exactly when its last condition is a success, and no earlier condition is |
| Explain.RegexErrorIsMiss | cmd/et/explain.go:186 | an invalid regex is never a regex success in explain mode |
| Explain.MimeOnlyForFiles | cmd/et/explain.go:197-198 | the MIME check never succeeds for a URL or a missing file |
| Explain.RowAgreesWithMatcher | cmd/et/explain.go:119-211 | for an existing file or URL and a rule the matcher evaluates without error, the row is matched exactly when the matcher accepts the rule |
| Explain.CutAgrees | cmd/et/explain.go:213-227 | the matched rows kept are at the positions the stop-at-first policy returns |
| Explain.ExplainAgreesWithMatch | cmd/et/explain.go:106-228 | for an existing file or URL and rules without regex errors, the rows marked matched are exactly the rules Match returns |
| Explain.NoMatchOutcome | cmd/et/explain.go:250-258 | with no matching rule the report names the default command, or the system default |
| Et.RunAll | cmd/et/helpers.go:55-62 | no rules do nothing; a successful real run launches one process per rule; output and launches only grow, and a dry run launches nothing |
| Et.HandleFile | cmd/et/execute.go:11-30 | a matching error is reported and changes nothing; no match on a target that is neither file nor URL fails; a successful real run launches one process per matched rule; a dry run launches nothing |
| Et.ExecuteRule | cmd/et/helpers.go:46-52 | the error and new state are RuleStep's: the rule's own command with its background and terminal options, never its script |
| Et.ExecuteRules | cmd/et/helpers.go:55-62 | the loop leaves the error and state of RunAll: every rule in order until the first error |
| Et.HandleFileExecution | cmd/et/execute.go:11-30 | the error and new state are those of the older HandleFile |
| Et.ExecuteSelectedOption | cmd/et/helpers.go:131-136 | the system option opens by default, any other runs its rule |
| Et.RunAllAppend | cmd/et/helpers.go:55-62 | running `a + b` runs `a`, then `b` from where `a` left off unless one of `a` failed |
| Et.RunAllIsChain | cmd/et/helpers.go:55-62 | on script-free rules with commands where all but the last fall through (the shape Match returns), running all is the `entry` fallthrough chain |
| Et.NoFallthroughCheck | cmd/et/helpers.go:55-62 | a successful rule without fallthrough does not stop the run: the next rule runs too |
| Et.ScriptIgnored | cmd/et/helpers.go:46-52 | a rule's script is never consulted; on a plain rule the step is the `entry` rule step |
| Et.DryRunAllSpawnsNothing | cmd/et/helpers.go:55-62 | in dry-run mode running the rules launches no process and records no history |
| Et.DryRunFileSpawnsNothing | cmd/et/execute.go:11-30 | in dry-run mode the file handler launches no process and records no history |
| Et.HandleFileAgrees | cmd/et/execute.go:11-30 | on configurations of plain rules the older file handler does exactly what `entry`'s does |
| Et.SelectedAgrees | cmd/et/helpers.go:131-136 | on a plain rule the older selection step does what `entry`'s does |
| EtRoot.ScanArgs | cmd/et/root.go:45-95 | a scan that stops leaves no command arguments, and a dry run already chosen stays chosen |
| EtRoot.Dispatch | cmd/et/root.go:111-531 | explain happens exactly when `--explain` is among the arguments with one command argument, otherwise they are executed; a dry run launches nothing |
| EtRoot.RunOutcome | cmd/et/root.go:43-532 | no arguments fail with the argument requirement; `--version`/`-v` and `--help`/`-h` first win; a dry run launches nothing and keeps the history |
| EtRoot.Root.constructor | cmd/et/root.go:23-26 | a new root holds the given package-level flags |
| EtRoot.Root.RunE | cmd/et/root.go:43-532 | the outcome is RunOutcome on the flags before the call, and the flags are left as the scan set them |
| EtRoot.Root.ScanFlags | cmd/et/root.go:45-95 | the loop stops, sets `cfgFile` and `dryRun`, and finds the command arguments as ScanArgs says |
| EtRoot.FindModes | cmd/et/root.go:114-124 | interactive mode is on exactly when "--select" is among the arguments, explain mode exactly when "--explain" is |
| EtRoot.DispatchArgs | cmd/et/root.go:111-531 | after loading, RunE on a fresh executor ends as Dispatch says |
| EtRoot.SingleArgument | cmd/et/root.go:466-504 | the single-argument flow leaves the error and state Single describes |
| EtRoot.InteractiveSelection | cmd/et/root.go:388-464 | the interactive flow leaves the error and state Interactive describes |
| EtRoot.PassedFlagsFacts | cmd/et/root.go:55-76 | after consumed flags, dry-run is on if and only if it was already or "--dry-run" was among them; the last "--config=" among them names the configuration file, and with none the file is unchanged |
| EtRoot.SkipsPassedFlags | cmd/et/root.go:55-76 | the scan moves past consumed flags, setting what they set |
| EtRoot.WhereCommandBegins | cmd/et/root.go:77-94 | after consumed flags, "--" makes what follows it the command arguments, and any other argument (a word or an unknown flag) begins them itself |
| EtRoot.ConfigTakesNext | cmd/et/root.go:58-62 | "--config" takes the next argument as the configuration file, whatever it looks like, and the scan goes on after it |
| EtRoot.TrailingConfigFails | cmd/et/root.go:63-65 | a trailing "--config" ends RunE with "flag needs an argument" |
| EtRoot.MissingValueFails | cmd/et/root.go:58-65 | a scan that stops for a missing `--config` value fails with the flag-needs-argument error |
| EtRoot.CommandArgsSuffix | cmd/et/root.go:45-95 | the command arguments are always a suffix of the arguments, and empty when the scan stops for version, help or a missing value |
| EtRoot.DryRunOnlyByFlag | cmd/et/root.go:55-57 | the dry-run flag is never switched off, and is only switched on by "--dry-run" |
| EtRoot.NoCommandFails | cmd/et/root.go:97-99 | consumed flags alone, or followed only by "--", end with "requires at least 1 argument" |
| EtRoot.ConfigSubcommand | cmd/et/root.go:101-104 | a first command argument "config" goes to the config handler with the rest, before any configuration is read |
| EtRoot.ScannedSingle | cmd/et/root.go:106-504 | once the scan finds one command argument other than "config", with neither "--select" nor "--explain" present, RunE loads the configuration the scan named and its outcome is the single-argument flow on that argument, from a fresh executor with the scanned dry-run flag |
| EtRoot.WordAfterFlags | cmd/et/root.go:45-95 | a word after consumed flags is the one command argument, with the flags those flags set; "-s" alone does not turn on interactive mode |
| EtRoot.FlagsAfterWordAreArguments | cmd/et/root.go:80-531 | everything after the first word belongs to the command, flags included: with more than one command argument, "--explain" and "--select" change nothing and the arguments go to command handling |
| EtRoot.SingleIsFileThenCommand | cmd/et/root.go:466-531 | the single-argument flow is the file handler, except that no rule on a target that is neither URL nor file goes on to command handling instead of failing |
| EtRoot.InteractiveAgrees | cmd/et/root.go:388-464 | on configurations of plain rules the inline interactive flow is `entry`'s |
| EtRoot.DryRunSingleSpawnsNothing | cmd/et/root.go:466-531 | in dry-run mode the single-argument flow launches no process and records no history |
| EtRoot.DryRunInteractiveSpawnsNothing | cmd/et/root.go:388-464 | in dry-run mode the interactive flow launches no process and records no history |
| EtRoot.DryRunRunSpawnsNothing | cmd/et/root.go:43-532 | once the scan has set dry-run, any executed outcome of RunE launched no process and left the history as it was |

## Left out

- Launching processes: the `sh -c` spawn, its standard streams, `Start`, `Release` and `Run` are I/O. A launch is recorded as an invocation in the executor's `spawned` log, and its result comes from the `Host`.
- The JavaScript interpreter and its environment snapshot are foreign code. A script's result is a `Host` oracle giving a tagged value, and only the mapping of that value is modelled.
- Foreign library calls are `Host` oracles whose results the model does not constrain: `url.Parse`, `regexp` compilation and matching, `mimetype.DetectFile`, `filepath.Abs`, `os.Stat`, `exec.LookPath`, `runtime.GOOS`, the clock and the selection form.
- The configuration, history and profile files are not read or written. YAML and JSON are left out. Loading is an oracle on the configuration path. The history file is a value in the executor, with its writability decided by the `Host`.
- Text.ToLower folds only the ASCII letters, because the rule and OS names it is applied to are ASCII. Go's `strings.ToLower` also folds the rest of Unicode.
- Text.PathDir and Text.PathBase assume a path that is already clean and absolute, as `filepath.Abs` returns it. `filepath.Clean`'s handling of `.` and `..` is not modelled.
- Template.RenderPrint covers only the `{{.File}}`, `{{.Dir}}`, `{{.Base}}`, `{{.Name}}` and `{{.Ext}}` actions that commands use. Other `text/template` actions (pipelines, functions, conditionals) are outside the model: an unknown field is an execution error and an unclosed action a parse error.
- Strings are sequences of characters and not of UTF-8 bytes. `trimSpace`, `splitString` and the dashboard's `strings.TrimSpace` therefore work per character. They agree with Go on ASCII text.
- Go's distinction between a nil slice and an empty slice does not exist in Dafny. Both are `[]`.
- The selection form's answer is a position in the list of labels. A position outside that list is treated like an aborted form.
- Pipeline.RunSelected models `internal/cli/interactive.go:88` as returning the error part of `executeRule`'s two results, since the line as written returns both and does not compile.
- Logging, sync, styling, table rendering and the dashboard's `View`, `renderDetail` and `renderSync` are presentation or network code. Error values are tags, not the formatted message texts.
- Explain.HandleExplain builds the rows and the final decision of `cmd/et/explain.go`. Their lipgloss styling and printing are presentation.
- The cobra wiring of `internal/cli/root.go` (flag definitions at lines 78-91, subcommand lookup, help and version printing) is library code. The root command receives its parsed flags and positional arguments as inputs.
- cobra's `MinimumNArgs(1)` check at `cmd/et/root.go:41` runs before `RunE` in the library and is not modelled. The model's `RunE` handles empty argument lists through its own "requires at least 1 argument" branch.
- The second `--version`/`--help` test at `cmd/et/root.go:69-73` can never be reached, because lines 48-54 already return for those arguments. The model keeps only the first.
- `cmd/et/root.go:535-538` declares `fileExists` a second time in package `main`, beside `cmd/et/helpers.go:25-28`. The two bodies are the same, and both are the `Host`'s file-existence oracle.
- `handleConfigCommand` and the config subcommands of `cmd/et` (list, open, init, check, edit) are file and editor I/O. EtRoot records only that the arguments were handed to the config handler.
- cmd/et/interactive.go is not part of this model: `cmd/et/root.go:385-464` inlines its logic, and that inline copy is what EtRoot.Interactive models.
- The profile commands, `runConfigList`, `runConfigOpen`, `runConfigInit`, `runConfigCheck` and `runConfigEdit` copy files, print or open forms, and are not modelled.
- ConfigCommand.AddRule checks regular expressions through the `Host`'s compile oracle, which stands for `regexp.Compile`. MIME patterns are checked the same way.
- `internal/cli/root.go:181-185` calls `handleExplain`, which is declared only in `cmd/et/explain.go`. CliRoot uses Explain.HandleExplain for it.
- Dashboard.EditedExtensionsRoundTrip excludes the list holding one empty extension (`[""]`). Joined, that list is the empty string, which completion turns into the empty list.
- The dashboard's list component (cursor movement, filtering), the form widget itself, `SaveConfig` and window sizing belong to the UI libraries. Only the model's own fields and their updates are modelled. Typing into the form is one step that hands over all field values at once.
- `internal/tui/dashboard.go` does not compile as given: the `keyMap` struct at lines 120-128 has no `Add`, `Edit`, `MoveUp` or `MoveDown` field, yet the `keys` value at lines 142-187 sets them and lines 131-138, 315, 331, 347 and 379 read them. The model assumes the four fields exist, bound to the keys that value gives.
- Dashboard.Finish, Dashboard.Model.FinishEdit, Dashboard.Model.AppendNewRule, Dashboard.Model.ReplaceEditedRule, Dashboard.FinishAdds, Dashboard.FinishReplaces and Dashboard.FinishKeepsValid model the intended submission: the form's values reach the rule. The submission as written is Dashboard.TypedAsWritten followed by Dashboard.CompleteAsWritten (see Findings).
- Dashboard.Model.AbortEdit models the intended abort, which only closes the form. As written, an aborted edit keeps the typed fields in the edited rule, as Dashboard.TypedAsWritten and Dashboard.EditAbortAsWrittenDesyncs state (see Findings).
- Dashboard.AddThenFinishAppends states the intended binding of the add form, where the typed values reach the appended rule. As written, `Update` has a value receiver, so the form writes into a discarded copy of the model; Dashboard.AddAsWrittenAppendsBlank and Dashboard.AddAsWrittenLosesForm state that behaviour (see Findings).
- Dashboard.EditThenFinishReplaces states the intended binding of the edit form, where the typed extensions are stored. As written, the extensions text is bound in a discarded copy, so the pre-filled text is stored; Dashboard.EditAsWrittenKeepsExtensions states that behaviour (see Findings).
- Dashboard.AbortKeepsRules states the intended abort, which leaves the rules untouched. As written, the edit form is bound to the rule inside the shared configuration, so typed values stay after an abort; Dashboard.EditAbortAsWrittenDesyncs states that behaviour (see Findings).
- Dashboard.AbortKeepsValid states that the intended abort keeps the rules and the list in step. As written, an aborted edit breaks that; Dashboard.EditAbortAsWrittenDesyncs shows the state it leaves is not valid (see Findings).
- History entries are not decoded from and encoded to JSON. Timestamps come from the `Host` clock.

## Findings

| source | as written | input that shows it | evidently intended | confidence | as-written member | corrected member |
|---|---|---|---|---|---|---|
| internal/tui/dashboard.go:347-378 | `Update` has a value receiver, so Add binds the form to the `NewRule` of a copy that is thrown away; submitting appends the empty `config.Rule{}` | empty rule list, press `a`, type name `x`, command `vim`, extensions `md`, submit | the typed rule is appended | not executed | Dashboard.AddAsWrittenLosesForm | Dashboard.AddThenFinishAppends |
| internal/tui/dashboard.go:379-417 | Edit binds the fields to the rule inside the shared configuration, so an aborted edit keeps what was typed while the list still shows the old rule | one rule named `a`, press `e`, change the name to `b`, abort | an abort leaves the rules as they were | not executed | Dashboard.EditAbortAsWrittenDesyncs | Dashboard.AbortKeepsValid |
| internal/tui/dashboard.go:388 | the extensions text is bound in the discarded copy, so completion parses the pre-filled text and ignores typed extensions | a rule with extensions `md`, press `e`, change the extensions to `txt`, submit | the typed extensions are stored | not executed | Dashboard.EditAsWrittenKeepsExtensions | Dashboard.EditThenFinishReplaces |
