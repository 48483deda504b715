/**
 * The entities every component shares: rules and the configuration that owns
 * them, the errors the program reports, and the host: the operating system,
 * URL parser, regular-expression engine, MIME sniffer, file system, PATH
 * lookup, JavaScript interpreter and process spawner, which this model takes
 * as given oracle functions rather than reimplementing them.
 */
module Domain {
  import opened Wrappers

  /**
   * One entry of the ordered rule list, with the fields the matcher and the
   * execution pipeline read.
   */
  datatype Rule = Rule(
    name: string,
    extensions: seq<string>,
    regex: string,
    mime: string,
    scheme: string,
    os: seq<string>,
    script: string,
    command: string,
    background: bool,
    terminal: bool,
    fallthrough: bool)

  /** The zero value of a rule (`config.Rule{}`). */
  const BlankRule := Rule("", [], "", "", "", [], "", "", false, false, false)

  /** `Default` is the alias-style default that `config set-default` clears. */
  datatype Config = Config(
    version: string,
    defaultCommand: string,
    default: string,
    aliases: map<string, string>,
    rules: seq<Rule>)

  /** A configuration with only a version, as created when none exists. */
  const FreshConfig := Config("1", "", "", map[], [])

  /** What url.Parse extracts that the program reads. */
  datatype Url = Url(scheme: string, path: string)

  /** The value a script returns, as goja exports it. */
  datatype ScriptValue =
    | Threw                 // the interpreter reported an error
    | Null | Undefined
    | Str(s: string)
    | Boolean(b: bool)
    | OtherValue            // numbers, objects, arrays, ...

  /** The read-only variables a script sees (the environment map is part of the oracle). */
  datatype Bindings = Bindings(file: string, absFile: string, dir: string, base: string, ext: string, name: string)

  /** A process the executor starts. */
  datatype Invocation =
    | Shell(command: string)                       // sh -c <command>, foreground
    | Detached(command: string)                    // sh -c <command>, started and released
    | Direct(program: string, args: seq<string>)   // exec of a program, foreground

  datatype Host = Host(
    goos: string,                          // runtime.GOOS
    parseUrl: string -> Option<Url>,       // url.Parse; None when it fails
    compiles: string -> bool,              // the pattern is a valid regular expression
    matches: (string, string) -> bool,     // regexp.MatchString(pattern, s) for a valid pattern
    detectMime: string -> Option<string>,  // mimetype.DetectFile; None when it fails
    fileExists: string -> bool,             // os.Stat succeeds
    onPath: string -> bool,                // exec.LookPath succeeds
    abs: string -> Option<string>,         // filepath.Abs; None when it fails
    runs: Invocation -> bool,              // the process starts and (foreground) exits with status 0
    releases: string -> bool,              // Process.Release of a detached command succeeds
    script: (string, Bindings) -> ScriptValue,  // goja RunString of a fresh VM
    select: seq<string> -> Option<nat>,    // the selection form: the chosen label's position, None if aborted
    now: int,                              // time.Now() for history entries
    historySaves: bool)                    // writing the history file succeeds

  /** isURL: url.Parse succeeds and yields a non-empty scheme. */
  predicate IsUrl(h: Host, target: string) {
    h.parseUrl(target).Some? && h.parseUrl(target).value.scheme != ""
  }

  /** isFileOrURL. */
  predicate IsFileOrUrl(h: Host, target: string) {
    IsUrl(h, target) || h.fileExists(target)
  }

  /** The errors the core returns; wrapping (`%w`) is kept as nesting. */
  datatype Error =
    | PatternError(pattern: string)          // invalid regular expression in a rule
    | TemplateParseError                     // "failed to parse command template"
    | AbsPathError                           // "failed to get absolute path"
    | TemplateExecError                      // "failed to execute command template"
    | BackgroundStartError                   // "failed to start background command"
    | ReleaseError                           // "failed to release process"
    | CommandFailed                          // "command execution failed"
    | OpenSystemFailed                       // "failed to open system default"
    | ScriptFailed                           // "script execution failed" (ExecuteScript)
    | RuleScriptFailed(cause: Error)         // "script execution failed: ..." (executeRule)
    | ErrorMatchingRule(cause: Error)        // "error matching rule: ..."
    | ErrorMatchingRules(cause: Error)       // "error matching rules: ..."
    | FileNotFoundNoRule                     // "file not found and no matching rule"
    | NoMatchingRulesFor(file: string)       // "no matching rules found for <file>"
    | NoMatchFound                           // "no match found"
    | SelectionAborted                       // the selection form returned an error
    | ConfigUnavailable(path: string)        // config.LoadConfig failed
    | ErrorLoadingConfig(cause: Error)       // "error loading config: ..."
    | ProfilePathError(profile: string)      // "failed to resolve profile config path"
    | LoggerInitError                        // "failed to initialize logger"
    | FlagNeedsArgument                      // "flag needs an argument: --config"
    | RequiresArgument                       // "requires at least 1 argument"
    | InvalidIndex(text: string)             // "invalid index: <s>"
    | IndexOutOfRange(index: int)            // "index out of range: <n>"
    | CmdRequired                            // "--cmd is required"
    | InvalidRegex(pattern: string)          // "invalid regex: ..."
    | InvalidMime(pattern: string)           // "invalid MIME pattern: ..."
}
