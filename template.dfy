/**
 * The command template of a rule: literal text with `{{.Field}}` actions over
 * the command data (File, Dir, Base, Name, Ext). Parsing and execution are the
 * two failure points of the executor; this module keeps them apart.
 */
module Template {
  import opened Wrappers
  import opened Text
  import opened Domain

  datatype Piece = Lit(text: string) | Field(name: string)

  /** The template lexer's notion of space inside an action. */
  predicate IsActionSpace(c: char) {
    c == ' ' || c == '\t' || c == '\r' || c == '\n'
  }

  predicate IsIdentStart(c: char) {
    ('a' <= c <= 'z') || ('A' <= c <= 'Z') || c == '_'
  }

  predicate IsIdentChar(c: char) {
    IsIdentStart(c) || ('0' <= c <= '9')
  }

  predicate IsIdent(s: string) {
    |s| > 0 && IsIdentStart(s[0]) && forall i :: 0 <= i < |s| ==> IsIdentChar(s[i])
  }

  /** The first position at or after `i` where the two-character delimiter `a b` starts. */
  function FindPair(s: string, a: char, b: char, i: nat): (r: Option<nat>)
    requires i <= |s|
    ensures r.Some? ==> i <= r.value && r.value + 1 < |s| && s[r.value] == a && s[r.value + 1] == b
    ensures r.Some? ==> forall k :: i <= k < r.value ==> !(s[k] == a && s[k + 1] == b)
    ensures r.None? ==> forall k :: i <= k < |s| - 1 ==> !(s[k] == a && s[k + 1] == b)
    decreases |s| - i
  {
    if i + 1 >= |s| then None
    else if s[i] == a && s[i + 1] == b then Some(i)
    else FindPair(s, a, b, i + 1)
  }

  function LitPieces(s: string): seq<Piece> {
    if s == "" then [] else [Lit(s)]
  }

  /**
   * The text after an opening `{{`: the field the action names and the text
   * after its closing `}}`. An unclosed action, or one that is not
   * `.Identifier` between optional spaces, is a parse error.
   */
  function SplitAction(rest: string): (r: Result<(string, string), Error>)
    ensures r.Ok? ==> IsIdent(r.value.0) && |r.value.1| < |rest|
  {
    match FindPair(rest, '}', '}', 0)
    case None => Err(TemplateParseError)
    case Some(q) =>
      var inner := TrimLeftBy(TrimRightBy(rest[..q], IsActionSpace), IsActionSpace);
      if |inner| < 2 || inner[0] != '.' || !IsIdent(inner[1..]) then Err(TemplateParseError)
      else Ok((inner[1..], rest[q + 2..]))
  }

  function Cons(lits: seq<Piece>, n: string, r: Result<seq<Piece>, Error>): Result<seq<Piece>, Error> {
    match r
    case Err(e) => Err(e)
    case Ok(ps) => Ok(lits + [Field(n)] + ps)
  }

  /** text/template's Parse, restricted to literal text and field actions. */
  function Parse(t: string): Result<seq<Piece>, Error>
    decreases |t|
  {
    match FindPair(t, '{', '{', 0)
    case None => Ok(LitPieces(t))
    case Some(p) =>
      match SplitAction(t[p + 2..])
      case Err(e) => Err(e)
      case Ok((n, after)) => Cons(LitPieces(t[..p]), n, Parse(after))
  }

  /** A field of the command data; a name the data does not have is an execution error. */
  function FieldValue(name: string, d: Bindings): Result<string, Error> {
    if name == "File" then Ok(d.file)
    else if name == "Dir" then Ok(d.dir)
    else if name == "Base" then Ok(d.base)
    else if name == "Name" then Ok(d.name)
    else if name == "Ext" then Ok(d.ext)
    else Err(TemplateExecError)
  }

  function Exec(ps: seq<Piece>, d: Bindings): Result<string, Error> {
    if ps == [] then Ok("")
    else
      var head := match ps[0] case Lit(s) => Ok(s) case Field(n) => FieldValue(n, d);
      match head
      case Err(e) => Err(e)
      case Ok(s) => Prefix(s, Exec(ps[1..], d))
  }

  function Prefix(s: string, r: Result<string, Error>): Result<string, Error> {
    match r
    case Ok(x) => Ok(s + x)
    case Err(e) => Err(e)
  }

  /** Execute parsed pieces, passing a parse error through. */
  function ExecParsed(r: Result<seq<Piece>, Error>, d: Bindings): Result<string, Error> {
    match r
    case Err(e) => Err(e)
    case Ok(ps) => Exec(ps, d)
  }

  /** Parse, then execute against the data. */
  function Render(t: string, d: Bindings): Result<string, Error> {
    ExecParsed(Parse(t), d)
  }

  /** A field's value before the rendering of what follows it. */
  function FieldThen(field: Result<string, Error>, rest: Result<string, Error>): Result<string, Error> {
    match field
    case Err(e) => Err(e)
    case Ok(v) => Prefix(v, rest)
  }

  /** The command data of Execute: the file as given, the rest from its absolute path. */
  function DataFor(file: string, absFile: string): (d: Bindings)
    ensures d.file == file && d.absFile == absFile
    ensures d.name + d.ext == d.base
    ensures d.ext != "" ==> d.ext[0] == '.' && '/' !in d.ext
  {
    var base := PathBase(absFile);
    var ext := PathExt(absFile);
    ExtIsSuffixOfBase(absFile);
    Bindings(file, absFile, PathDir(absFile), base, ext, TrimSuffix(base, ext))
  }

  /** The template text of a piece sequence. */
  function Print(ps: seq<Piece>): string {
    if ps == [] then ""
    else
      (match ps[0] case Lit(s) => s case Field(n) => "{{." + n + "}}") + Print(ps[1..])
  }

  /** Literal text without `{` and fields with identifier names: what `Print` renders faithfully. */
  predicate WellFormed(ps: seq<Piece>) {
    forall i :: 0 <= i < |ps| ==>
      match ps[i]
      case Lit(s) => '{' !in s
      case Field(n) => IsIdent(n)
  }

  function Shift(n: nat, r: Option<nat>): Option<nat> {
    match r
    case None => None
    case Some(k) => Some(n + k)
  }

  lemma {:induction false} FindShift(s: string, t: string, a: char, b: char, j: nat)
    requires j <= |t|
    ensures FindPair(s + t, a, b, |s| + j) == Shift(|s|, FindPair(t, a, b, j))
    decreases |t| - j
  {
    if j + 1 < |t| {
      assert (s + t)[|s| + j] == t[j];
      assert (s + t)[|s| + j + 1] == t[j + 1];
      FindShift(s, t, a, b, j + 1);
    }
  }

  lemma {:induction false} FindSkip(s: string, t: string, a: char, b: char, i: nat)
    requires i <= |s| && a !in s
    ensures FindPair(s + t, a, b, i) == FindPair(s + t, a, b, |s|)
    decreases |s| - i
  {
    if i < |s| {
      assert (s + t)[i] == s[i];
      FindSkip(s, t, a, b, i + 1);
    }
  }

  /** A delimiter whose first character does not occur in `s` is found after `s`. */
  lemma FindAfter(s: string, t: string, a: char, b: char)
    requires a !in s
    ensures FindPair(s + t, a, b, 0) == Shift(|s|, FindPair(t, a, b, 0))
  {
    FindSkip(s, t, a, b, 0);
    FindShift(s, t, a, b, 0);
  }

  lemma ExecLits(s: string, ps: seq<Piece>, d: Bindings)
    ensures Exec(LitPieces(s) + ps, d) == Prefix(s, Exec(ps, d))
  {
    if s == "" {
      assert LitPieces(s) + ps == ps;
      match Exec(ps, d)
      case Ok(x) => assert s + x == x;
      case Err(_) =>
    } else {
      assert (LitPieces(s) + ps)[1..] == ps;
    }
  }

  lemma ExecField(n: string, ps: seq<Piece>, d: Bindings)
    ensures Exec([Field(n)] + ps, d) == FieldThen(FieldValue(n, d), Exec(ps, d))
  {
    assert ([Field(n)] + ps)[1..] == ps;
  }

  /** Any parse error comes before execution: it is the result whatever execution would give. */
  function ParsedThen(parsed: Result<seq<Piece>, Error>, r: Result<string, Error>): Result<string, Error> {
    if parsed.Err? then Err(parsed.error) else r
  }

  /** Rendering the pieces `Parse` builds from a text prefix, a field and the parsed rest. */
  lemma RenderCons(s: string, n: string, after: string, d: Bindings)
    ensures ExecParsed(Cons(LitPieces(s), n, Parse(after)), d) ==
      ParsedThen(Parse(after), Prefix(s, FieldThen(FieldValue(n, d), Render(after, d))))
  {
    match Parse(after)
    case Err(e) =>
    case Ok(ps) =>
      assert LitPieces(s) + [Field(n)] + ps == LitPieces(s) + ([Field(n)] + ps);
      ExecLits(s, [Field(n)] + ps, d);
      ExecField(n, ps, d);
      match FieldValue(n, d)
      case Err(e) =>
      case Ok(v) =>
        match Exec(ps, d)
        case Err(e) =>
        case Ok(x) => assert s + (v + x) == s + v + x;
  }

  lemma LitWithoutAction(s: string, t: string, d: Bindings)
    requires FindPair(s + t, '{', '{', 0).None? && FindPair(t, '{', '{', 0).None?
    ensures Parse(s + t).Ok? && Parse(t).Ok?
    ensures Render(s + t, d) == Prefix(s, Render(t, d))
  {
    ExecLits(s + t, [], d);
    ExecLits(t, [], d);
    assert LitPieces(s + t) + [] == LitPieces(s + t);
    assert LitPieces(t) + [] == LitPieces(t);
    assert s + t + "" == s + (t + "");
  }

  /** How a template whose first action starts after `pre` renders, `rest` being the text after `{{`. */
  function RenderAction(pre: string, rest: string, d: Bindings): Result<string, Error> {
    match SplitAction(rest)
    case Err(e) => Err(e)
    case Ok((n, after)) => ParsedThen(Parse(after), Prefix(pre, FieldThen(FieldValue(n, d), Render(after, d))))
  }

  predicate ActionParses(rest: string) {
    SplitAction(rest).Ok? && Parse(SplitAction(rest).value.1).Ok?
  }

  lemma RenderAt(t: string, p: nat, d: Bindings)
    requires FindPair(t, '{', '{', 0) == Some(p)
    ensures Parse(t).Ok? == ActionParses(t[p + 2..])
    ensures Render(t, d) == RenderAction(t[..p], t[p + 2..], d)
  {
    match SplitAction(t[p + 2..])
    case Err(e) =>
    case Ok((n, after)) => RenderCons(t[..p], n, after, d);
  }

  lemma RenderActionPrefix(s: string, pre: string, rest: string, d: Bindings)
    ensures RenderAction(s + pre, rest, d) == Prefix(s, RenderAction(pre, rest, d))
  {
    match SplitAction(rest)
    case Err(e) =>
    case Ok((n, after)) =>
      var tail := FieldThen(FieldValue(n, d), Render(after, d));
      if tail.Ok? { assert s + pre + tail.value == s + (pre + tail.value); }
  }

  lemma SliceAfterPrefix(s: string, t: string, p: nat)
    requires p + 2 <= |t|
    ensures (s + t)[|s| + p + 2..] == t[p + 2..]
    ensures (s + t)[..|s| + p] == s + t[..p]
  {
  }

  lemma LitBeforeAction(s: string, t: string, p: nat, d: Bindings)
    requires FindPair(t, '{', '{', 0) == Some(p) && FindPair(s + t, '{', '{', 0) == Some(|s| + p)
    ensures Parse(s + t).Ok? == Parse(t).Ok?
    ensures Render(s + t, d) == Prefix(s, Render(t, d))
  {
    SliceAfterPrefix(s, t, p);
    ShiftedAction(s + t, t, |s| + p, p, d);
    RenderActionPrefix(s, t[..p], t[p + 2..], d);
  }

  lemma ShiftedAction(u: string, t: string, k: nat, p: nat, d: Bindings)
    requires FindPair(t, '{', '{', 0) == Some(p) && FindPair(u, '{', '{', 0) == Some(k)
    requires u[k + 2..] == t[p + 2..]
    ensures Parse(u).Ok? == Parse(t).Ok?
    ensures Render(u, d) == RenderAction(u[..k], t[p + 2..], d)
    ensures Render(t, d) == RenderAction(t[..p], t[p + 2..], d)
  {
    RenderAt(u, k, d);
    RenderAt(t, p, d);
  }

  /** Literal text without `{` before a template renders as itself before the rest. */
  lemma LitThenRender(s: string, t: string, d: Bindings)
    requires '{' !in s
    ensures Parse(s + t).Ok? == Parse(t).Ok?
    ensures Render(s + t, d) == Prefix(s, Render(t, d))
  {
    FindAfter(s, t, '{', '{');
    match FindPair(t, '{', '{', 0)
    case None => LitWithoutAction(s, t, d);
    case Some(p) => LitBeforeAction(s, t, p, d);
  }

  lemma SplitField(n: string, t: string)
    requires IsIdent(n)
    ensures SplitAction("." + n + "}}" + t) == Ok((n, t))
  {
    var body := "." + n;
    var rest := body + ("}}" + t);
    assert "." + n + "}}" + t == rest;
    FieldFindsClose(n, t);
    assert rest[..|body|] == body;
    FieldUntrimmed(n);
    assert body[1..] == n;
    assert rest[|body| + 2..] == t;
  }

  /** The first `}}` after a field name is the one that closes it. */
  lemma FieldFindsClose(n: string, t: string)
    requires IsIdent(n)
    ensures FindPair(("." + n) + ("}}" + t), '}', '}', 0) == Some(|n| + 1)
  {
    var body := "." + n;
    assert '}' !in body by {
      forall i | 0 <= i < |body| ensures body[i] != '}' {
        if i > 0 { assert body[i] == n[i - 1]; assert IsIdentChar(n[i - 1]); }
      }
    }
    FindAfter(body, "}}" + t, '}', '}');
    assert FindPair("}}" + t, '}', '}', 0) == Some(0);
  }

  /** A field reference has no surrounding space to trim. */
  lemma FieldUntrimmed(n: string)
    requires IsIdent(n)
    ensures TrimLeftBy(TrimRightBy("." + n, IsActionSpace), IsActionSpace) == "." + n
  {
    var body := "." + n;
    assert body[|body| - 1] == n[|n| - 1] && IsIdentChar(n[|n| - 1]);
    assert TrimRightBy(body, IsActionSpace) == body;
  }

  /** A field action before a template renders as the field's value before the rest. */
  lemma FieldThenRender(n: string, t: string, d: Bindings)
    requires IsIdent(n)
    ensures Parse("{{." + n + "}}" + t).Ok? == Parse(t).Ok?
    ensures Render("{{." + n + "}}" + t, d) == ParsedThen(Parse(t), FieldThen(FieldValue(n, d), Render(t, d)))
  {
    var whole := "{{." + n + "}}" + t;
    assert whole[0] == '{' && whole[1] == '{';
    assert whole[2..] == "." + n + "}}" + t;
    SplitField(n, t);
    assert whole[..0] == "";
    RenderCons("", n, t, d);
    var tail := FieldThen(FieldValue(n, d), Render(t, d));
    if tail.Ok? { assert "" + tail.value == tail.value; }
  }

  /** Printing well-formed pieces and rendering the text gives what executing the pieces gives. */
  lemma {:induction false} RenderPrint(ps: seq<Piece>, d: Bindings)
    requires WellFormed(ps)
    ensures Parse(Print(ps)).Ok?
    ensures Render(Print(ps), d) == Exec(ps, d)
    decreases |ps|
  {
    if ps == [] {
      assert Parse("") == Ok([]);
    } else {
      assert WellFormed(ps[1..]) by {
        forall i | 0 <= i < |ps[1..]| ensures ps[1..][i] == ps[i + 1] { }
      }
      RenderPrint(ps[1..], d);
      match ps[0]
      case Lit(s) =>
        assert '{' !in s by { assert ps[0] == Lit(s); }
        LitThenRender(s, Print(ps[1..]), d);
      case Field(n) =>
        assert IsIdent(n) by { assert ps[0] == Field(n); }
        FieldThenRender(n, Print(ps[1..]), d);
    }
  }

  /** An action that is never closed is a parse error, whatever precedes it. */
  lemma UnclosedIsParseError(s: string, tail: string, d: Bindings)
    requires '{' !in s && '}' !in tail
    ensures Render(s + "{{" + tail, d) == Err(TemplateParseError)
  {
    var t := "{{" + tail;
    assert s + "{{" + tail == s + t;
    assert t[0] == '{' && t[1] == '{';
    FindAfter(s, t, '{', '{');
    assert (s + t)[|s| + 2..] == tail;
    assert FindPair(tail, '}', '}', 0) == None;
  }

  /** An action naming a field the command data lacks fails at execution, not at parsing. */
  lemma UnknownFieldIsExecError(n: string, d: Bindings)
    requires IsIdent(n) && n != "File" && n != "Dir" && n != "Base" && n != "Name" && n != "Ext"
    ensures Parse("{{." + n + "}}").Ok?
    ensures Render("{{." + n + "}}", d) == Err(TemplateExecError)
  {
    FieldThenRender(n, "", d);
    assert "{{." + n + "}}" + "" == "{{." + n + "}}";
  }
}
