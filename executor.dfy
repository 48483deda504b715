/**
 * The executor: renders a rule's command template against the command data
 * of a file and runs it through the shell, or, in dry-run mode, writes the
 * command line it would run. It also runs a program with arguments, opens a
 * path with the system opener, and maps a rule script's result.
 *
 * The executor's state is its dry-run flag, what it has written to its output,
 * the processes it has tried to start, and the history file.
 */
module Executor {
  import opened Wrappers
  import opened Text
  import opened Domain
  import opened Template
  import opened History

  datatype Options = Options(background: bool, terminal: bool)

  /** What the executor has produced so far. */
  datatype Sink = Sink(out: string, spawned: seq<Invocation>, history: HistoryFile)

  /** The error an operation returned, if any, and the sink after it. */
  datatype Step = Step(err: Option<Error>, sink: Sink)

  /** The executor's logs only grow: what was written and started before stays, in order. */
  predicate Extends(s: Sink, t: Sink) {
    s.out <= t.out && s.spawned <= t.spawned
  }

  /** No process was started and no history was recorded between `s` and `t`. */
  predicate Quiet(s: Sink, t: Sink) {
    t.spawned == s.spawned && t.history == s.history
  }

  const BackgroundSuffix := " (background)"

  /** The dry-run line of Execute. */
  function ExecuteLine(command: string, background: bool): (line: string)
    ensures |line| > |command| && HasPrefix(line, command) && line[|line| - 1] == '\n'
    ensures background <==> line == command + BackgroundSuffix + "\n"
    ensures !background <==> line == command + "\n"
  {
    command + (if background then BackgroundSuffix else "") + "\n"
  }

  /** The dry-run line of ExecuteCommand and OpenSystem: always one space after the program. */
  function CommandLine(program: string, args: seq<string>): (line: string)
    ensures |line| > |program| + 1 && HasPrefix(line, program + " ") && line[|line| - 1] == '\n'
    ensures args == [] ==> line == program + " \n"
    ensures |args| == 1 ==> line == program + " " + args[0] + "\n"
  {
    program + " " + Join(args, " ") + "\n"
  }

  /** The system opener of each OS; the path is always its last argument. */
  function SystemOpener(goos: string, path: string): (inv: Invocation)
    ensures inv.Direct? && |inv.args| > 0 && inv.args[|inv.args| - 1] == path
    ensures goos == "windows" <==> inv.program == "cmd"
    ensures goos != "windows" ==> inv.args == [path]
  {
    if goos == "darwin" then Direct("open", [path])
    else if goos == "windows" then Direct("cmd", ["/c", "start", "", path])
    else Direct("xdg-open", [path])
  }

  /** The command line Execute renders for `file`: parse, resolve the path, execute the template. */
  function CommandFor(h: Host, tmpl: string, file: string): Result<string, Error> {
    match Parse(tmpl)
    case Err(e) => Err(e)
    case Ok(ps) =>
      match h.abs(file)
      case None => Err(AbsPathError)
      case Some(absFile) => Exec(ps, DataFor(file, absFile))
  }

  /** What Execute does with a rendered command. */
  function Launch(h: Host, dryRun: bool, s: Sink, command: string, file: string, opts: Options): Step {
    if dryRun then Step(None, s.(out := s.out + ExecuteLine(command, opts.background)))
    else if opts.background then
      var started := s.(spawned := s.spawned + [Detached(command)]);
      if !h.runs(Detached(command)) then Step(Some(BackgroundStartError), started)
      else if !h.releases(command) then Step(Some(ReleaseError), started)
      else Step(None, started)
    else
      var ran := s.(spawned := s.spawned + [Shell(command)]);
      if !h.runs(Shell(command)) then Step(Some(CommandFailed), ran)
      else Step(None, ran.(history := AddEntry(s.history, h.now, file, "", h.historySaves).file))
  }

  /** Execute, as a function of the state before it. */
  function RunExecute(h: Host, dryRun: bool, s: Sink, tmpl: string, file: string, opts: Options): (r: Step)
    ensures CommandFor(h, tmpl, file).Err? ==> r == Step(Some(CommandFor(h, tmpl, file).error), s)
    ensures dryRun && CommandFor(h, tmpl, file).Ok? ==>
      r == Step(None, s.(out := s.out + ExecuteLine(CommandFor(h, tmpl, file).value, opts.background)))
    ensures !dryRun ==> r.sink.out == s.out
    ensures !dryRun && CommandFor(h, tmpl, file).Ok? ==>
      var command := CommandFor(h, tmpl, file).value;
      r.sink.spawned == s.spawned + [if opts.background then Detached(command) else Shell(command)]
    ensures r.sink.history != s.history ==> !dryRun && !opts.background && r.err.None?
    ensures Extends(s, r.sink)
    ensures dryRun ==> Quiet(s, r.sink)
  {
    match CommandFor(h, tmpl, file)
    case Err(e) => Step(Some(e), s)
    case Ok(command) => Launch(h, dryRun, s, command, file, opts)
  }

  /** ExecuteCommand, as a function of the state before it. */
  function RunCommand(h: Host, dryRun: bool, s: Sink, program: string, args: seq<string>): Step {
    if dryRun then Step(None, s.(out := s.out + CommandLine(program, args)))
    else
      var ran := s.(spawned := s.spawned + [Direct(program, args)]);
      if h.runs(Direct(program, args)) then Step(None, ran) else Step(Some(CommandFailed), ran)
  }

  /** OpenSystem, as a function of the state before it. */
  function RunOpener(h: Host, dryRun: bool, s: Sink, path: string): Step {
    var inv := SystemOpener(h.goos, path);
    if dryRun then Step(None, s.(out := s.out + CommandLine(inv.program, inv.args)))
    else
      var ran := s.(spawned := s.spawned + [inv]);
      if h.runs(inv) then Step(None, ran) else Step(Some(OpenSystemFailed), ran)
  }

  /** The result of a rule script: the command it supplies and whether the rule matched. */
  datatype ScriptOutcome = ScriptOutcome(command: string, matched: bool)

  /** ExecuteScript's mapping of the script's value. */
  function ScriptResult(v: ScriptValue): (r: Result<ScriptOutcome, Error>)
    ensures r.Err? <==> v.Threw?
    ensures r.Err? ==> r.error == ScriptFailed
    ensures r.Ok? ==> (r.value.matched <==> v.Str? || v == Boolean(true))
    ensures r.Ok? ==> (r.value.command != "" ==> v.Str?)
    ensures v.Str? ==> r == Ok(ScriptOutcome(v.s, true))
  {
    match v
    case Threw => Err(ScriptFailed)
    case Null => Ok(ScriptOutcome("", false))
    case Undefined => Ok(ScriptOutcome("", false))
    case Str(s) => Ok(ScriptOutcome(s, true))
    case Boolean(b) => Ok(ScriptOutcome("", b))
    case OtherValue => Ok(ScriptOutcome("", false))
  }

  /** The variables a script sees; a failed absolute-path lookup leaves `absFile` empty. */
  function ScriptBindings(h: Host, file: string): (b: Bindings)
    ensures b.file == file
    ensures b.name + b.ext == b.base
  {
    DataFor(file, match h.abs(file) case Some(a) => a case None => "")
  }

  /** ExecuteScript: the script runs in a fresh interpreter, so the executor's state plays no part. */
  function ExecuteScript(h: Host, script: string, file: string): Result<ScriptOutcome, Error> {
    ScriptResult(h.script(script, ScriptBindings(h, file)))
  }

  class Executor {
    const dryRun: bool
    var out: string
    var spawned: seq<Invocation>
    var history: HistoryFile

    function State(): Sink
      reads this
    {
      Sink(out, spawned, history)
    }

    constructor(dryRun: bool, history: HistoryFile)
      ensures this.dryRun == dryRun
      ensures State() == Sink("", [], history)
    {
      this.dryRun := dryRun;
      out := "";
      spawned := [];
      this.history := history;
    }

    /** Render the template for `file` and run it, or write it in dry-run mode. */
    method Execute(h: Host, commandTmpl: string, file: string, opts: Options) returns (err: Option<Error>)
      modifies this
      ensures Step(err, State()) == RunExecute(h, dryRun, old(State()), commandTmpl, file, opts)
    {
      var rendered := RenderCommand(h, commandTmpl, file);
      if rendered.Err? {
        return Some(rendered.error);
      }
      var cmdStr := rendered.value;

      if dryRun {
        var bg := "";
        if opts.background {
          bg := BackgroundSuffix;
        }
        out := out + (cmdStr + bg + "\n");
        return None;
      }

      if opts.background {
        spawned := spawned + [Detached(cmdStr)];
        if !h.runs(Detached(cmdStr)) {
          return Some(BackgroundStartError);
        }
        if !h.releases(cmdStr) {
          return Some(ReleaseError);
        }
        return None;
      }

      spawned := spawned + [Shell(cmdStr)];
      if !h.runs(Shell(cmdStr)) {
        return Some(CommandFailed);
      }
      history := AddEntry(history, h.now, file, "", h.historySaves).file;
      return None;
    }

    /** The template steps of Execute: parse, resolve the path, derive the data, execute. */
    static method RenderCommand(h: Host, commandTmpl: string, file: string) returns (r: Result<string, Error>)
      ensures r == CommandFor(h, commandTmpl, file)
    {
      var tmpl := Parse(commandTmpl);
      if tmpl.Err? {
        return Err(tmpl.error);
      }
      var absFile := h.abs(file);
      if absFile.None? {
        return Err(AbsPathError);
      }
      var data := DataFor(file, absFile.value);
      r := Exec(tmpl.value, data);
    }

    /** Run a program with arguments, or write the command line in dry-run mode. */
    method ExecuteCommand(h: Host, command: string, args: seq<string>) returns (err: Option<Error>)
      modifies this
      ensures Step(err, State()) == RunCommand(h, dryRun, old(State()), command, args)
    {
      if dryRun {
        out := out + (command + " " + Join(args, " ") + "\n");
        return None;
      }
      spawned := spawned + [Direct(command, args)];
      if !h.runs(Direct(command, args)) {
        return Some(CommandFailed);
      }
      return None;
    }

    /** Open `path` with the operating system's opener. */
    method OpenSystem(h: Host, path: string) returns (err: Option<Error>)
      modifies this
      ensures Step(err, State()) == RunOpener(h, dryRun, old(State()), path)
    {
      var cmdName: string;
      var args: seq<string>;
      if h.goos == "darwin" {
        cmdName, args := "open", [path];
      } else if h.goos == "windows" {
        cmdName, args := "cmd", ["/c", "start", "", path];
      } else {
        cmdName, args := "xdg-open", [path];
      }

      if dryRun {
        out := out + (cmdName + " " + Join(args, " ") + "\n");
        return None;
      }
      spawned := spawned + [Direct(cmdName, args)];
      if !h.runs(Direct(cmdName, args)) {
        return Some(OpenSystemFailed);
      }
      return None;
    }
  }

  /** With a parsable template, the command is the template rendered against the file's data. */
  lemma CommandIsRender(h: Host, tmpl: string, file: string)
    requires Parse(tmpl).Ok?
    ensures CommandFor(h, tmpl, file) == (match h.abs(file)
      case None => Err(AbsPathError)
      case Some(a) => Render(tmpl, DataFor(file, a)))
  {
  }

  /**
   * In dry-run mode Execute starts nothing and leaves the history alone; it
   * writes exactly the rendered command, the background marker iff requested,
   * and a newline, or, on any error, nothing.
   */
  lemma DryRunExecute(h: Host, s: Sink, tmpl: string, file: string, opts: Options)
    ensures var st := RunExecute(h, true, s, tmpl, file, opts);
      && st.sink.spawned == s.spawned
      && st.sink.history == s.history
      && (st.err.None? <==> CommandFor(h, tmpl, file).Ok?)
      && (st.err.None? ==> st.sink.out == s.out + ExecuteLine(CommandFor(h, tmpl, file).value, opts.background))
      && (st.err.Some? ==> st.sink == s && st.err == Some(CommandFor(h, tmpl, file).error))
  {
  }

  /** A malformed template fails before the file is resolved, anything is written or anything runs. */
  lemma ParseErrorFirst(h: Host, dryRun: bool, s: Sink, tmpl: string, file: string, opts: Options)
    requires Parse(tmpl).Err?
    ensures RunExecute(h, dryRun, s, tmpl, file, opts) == Step(Some(Parse(tmpl).error), s)
  {
  }

  /** Execute never consults the terminal option. */
  lemma TerminalIgnored(h: Host, dryRun: bool, s: Sink, tmpl: string, file: string, background: bool)
    ensures RunExecute(h, dryRun, s, tmpl, file, Options(background, true))
         == RunExecute(h, dryRun, s, tmpl, file, Options(background, false))
  {
  }

  /**
   * The history changes only through a successful foreground run, and then
   * records the file (not the command) with no rule name; a failure to save
   * it does not make Execute fail.
   */
  lemma HistoryOnlyAfterForegroundRun(h: Host, dryRun: bool, s: Sink, tmpl: string, file: string, opts: Options)
    ensures var st := RunExecute(h, dryRun, s, tmpl, file, opts);
      st.sink.history != s.history ==>
        && !dryRun && !opts.background && st.err.None?
        && st.sink.history == AddEntry(s.history, h.now, file, "", h.historySaves).file
  {
    match CommandFor(h, tmpl, file)
    case Err(_) =>
    case Ok(command) =>
      var st := Launch(h, dryRun, s, command, file, opts);
      if dryRun || opts.background {
        assert st.sink.history == s.history;
      }
  }

  /** Whether the history file can be written never changes Execute's result. */
  lemma HistoryFailureIgnored(h: Host, dryRun: bool, s: Sink, tmpl: string, file: string, opts: Options)
    ensures RunExecute(h.(historySaves := false), dryRun, s, tmpl, file, opts).err
         == RunExecute(h.(historySaves := true), dryRun, s, tmpl, file, opts).err
  {
    var h1, h2 := h.(historySaves := false), h.(historySaves := true);
    assert h1.abs == h2.abs && h1.runs == h2.runs && h1.releases == h2.releases;
    assert CommandFor(h1, tmpl, file) == CommandFor(h2, tmpl, file);
  }

  /** Outside dry-run mode, Execute writes nothing itself and starts at most one process. */
  lemma RunWritesNothing(h: Host, s: Sink, tmpl: string, file: string, opts: Options)
    ensures var st := RunExecute(h, false, s, tmpl, file, opts);
      && st.sink.out == s.out
      && (st.sink.spawned == s.spawned || |st.sink.spawned| == |s.spawned| + 1)
  {
  }

  /** The dry-run line of the opener names the OS's opener program and ends with the path. */
  lemma DryRunOpener(h: Host, s: Sink, path: string)
    ensures var st := RunOpener(h, true, s, path);
      && st.err.None? && st.sink.spawned == s.spawned
      && st.sink.out == s.out + CommandLine(SystemOpener(h.goos, path).program, SystemOpener(h.goos, path).args)
      && HasSuffix(st.sink.out, path + "\n")
  {
    var inv := SystemOpener(h.goos, path);
    var joined := Join(inv.args, " ");
    JoinEndsWithLast(inv.args, " ");
    assert s.out + CommandLine(inv.program, inv.args) == (s.out + (inv.program + " ")) + joined + "\n";
    SuffixThenNewline(s.out + (inv.program + " "), joined, path);
  }

  lemma {:induction false} JoinEndsWithLast(xs: seq<string>, sep: string)
    requires |xs| > 0
    ensures HasSuffix(Join(xs, sep), xs[|xs| - 1])
    decreases |xs|
  {
    if |xs| > 1 {
      JoinEndsWithLast(xs[1..], sep);
      assert xs[1..][|xs[1..]| - 1] == xs[|xs| - 1];
      var j := Join(xs[1..], sep);
      assert Join(xs, sep) == (xs[0] + sep) + j;
      var k := |xs[|xs| - 1]|;
      assert (xs[0] + sep + j)[|xs[0] + sep + j| - k..] == j[|j| - k..];
    }
  }

  lemma SuffixThenNewline(a: string, b: string, p: string)
    requires HasSuffix(b, p)
    ensures HasSuffix(a + b + "\n", p + "\n")
  {
    assert (a + b + "\n")[|a + b + "\n"| - |p + "\n"|..] == b[|b| - |p|..] + "\n";
  }
}
