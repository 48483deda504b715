/**
 * The list logic of the `config` subcommands (package internal/cli): the
 * comma-separated extension list (split, trim, join), the label a rule is
 * listed under, and the edits `config remove`, `config add` and
 * `config set-default` make to a loaded configuration before saving it.
 *
 * The string helpers are loops in the source; each is a method proved equal
 * to a recursive specification function, and the lemmas are about those
 * functions.
 */
module ConfigCommand {
  import opened Wrappers
  import opened Text
  import opened Domain

  /** The separator of the extension list. */
  const Comma := ','

  // ---------------------------------------------------------------------
  // joinStrings

  /** joinStrings: the elements separated by single commas, "" for none. */
  method JoinStrings(strs: seq<string>) returns (r: string)
    ensures r == Join(strs, [Comma])
  {
    if |strs| == 0 {
      return "";
    }
    var result := "";
    for i := 1 to |strs|
      invariant strs[0] + result == Join(strs[..i], [Comma])
    {
      JoinSnoc(strs[..i], strs[i], [Comma]);
      assert strs[..i + 1] == strs[..i] + [strs[i]];
      result := result + [Comma] + strs[i];
    }
    assert strs[..|strs|] == strs;
    return strs[0] + result;
  }

  /** Appending an element appends the separator and the element. */
  lemma {:induction false} JoinSnoc(xs: seq<string>, x: string, sep: string)
    requires |xs| > 0
    ensures Join(xs + [x], sep) == Join(xs, sep) + sep + x
    decreases |xs|
  {
    if |xs| == 1 {
      assert xs + [x] == [xs[0], x];
      assert [xs[0], x][1..] == [x];
    } else {
      assert (xs + [x])[1..] == xs[1..] + [x];
      JoinSnoc(xs[1..], x, sep);
    }
  }

  // ---------------------------------------------------------------------
  // splitString

  /** The number of occurrences of `c` in `s`. */
  function Occurrences(s: string, c: char): nat {
    if s == "" then 0 else (if s[0] == c then 1 else 0) + Occurrences(s[1..], c)
  }

  /** `current` stuck onto the front of the first field. */
  function Attach(current: string, fields: seq<string>): seq<string>
    requires |fields| > 0
  {
    [current + fields[0]] + fields[1..]
  }

  /**
   * The fields of `s` between occurrences of `sep` (always at least one; an
   * empty field where two separators meet or at either end).
   */
  function Fields(s: string, sep: char): (fs: seq<string>)
    ensures |fs| > 0
  {
    if s == "" then [""]
    else if s[0] == sep then [""] + Fields(s[1..], sep)
    else Attach([s[0]], Fields(s[1..], sep))
  }

  /** What splitString returns: nil for "", the fields otherwise. */
  function Split(s: string, sep: char): seq<string> {
    if s == "" then [] else Fields(s, sep)
  }

  /** splitString, for the one-character separators it is called with. */
  method SplitString(s: string, sep: char) returns (result: seq<string>)
    ensures result == Split(s, sep)
  {
    if s == "" {
      return [];
    }
    result := [];
    var current := "";
    AttachEmpty(Fields(s, sep));
    for i := 0 to |s|
      invariant result + Attach(current, Fields(s[i..], sep)) == Fields(s, sep)
      invariant i > 0 ==> current != "" || |result| > 0
    {
      FieldsAt(s, i, sep);
      if s[i] == sep {
        SepStep(result, current, Fields(s[i + 1..], sep));
        result := result + [current];
        current := "";
      } else {
        AttachStep(current, s[i], Fields(s[i + 1..], sep));
        current := current + [s[i]];
      }
    }
    assert s[|s|..] == "" && current + "" == current;
    if current != "" || |result| > 0 {
      result := result + [current];
    }
  }

  lemma AttachEmpty(fs: seq<string>)
    requires |fs| > 0
    ensures Attach("", fs) == fs
  {
    assert "" + fs[0] == fs[0];
  }

  /** The fields from position `i` on, by what is at `i`. */
  lemma FieldsAt(s: string, i: nat, sep: char)
    requires i < |s|
    ensures s[i] == sep ==> Fields(s[i..], sep) == [""] + Fields(s[i + 1..], sep)
    ensures s[i] != sep ==> Fields(s[i..], sep) == Attach([s[i]], Fields(s[i + 1..], sep))
  {
    assert s[i..][1..] == s[i + 1..];
  }

  /** Closing the current field at a separator. */
  lemma SepStep(result: seq<string>, current: string, fs: seq<string>)
    requires |fs| > 0
    ensures (result + [current]) + Attach("", fs) == result + Attach(current, [""] + fs)
  {
    AttachEmpty(fs);
    assert ([""] + fs)[1..] == fs;
    assert current + "" == current;
  }

  lemma AttachStep(current: string, c: char, fs: seq<string>)
    requires |fs| > 0
    ensures Attach(current, Attach([c], fs)) == Attach(current + [c], fs)
  {
    assert current + ([c] + fs[0]) == current + [c] + fs[0];
  }

  /** splitString on non-empty input yields one more piece than there are separators. */
  lemma {:induction false} FieldsCount(s: string, sep: char)
    ensures |Fields(s, sep)| == Occurrences(s, sep) + 1
  {
    if s != "" {
      FieldsCount(s[1..], sep);
    }
  }

  /** No field contains the separator. */
  lemma {:induction false} FieldsFree(s: string, sep: char)
    ensures forall k :: 0 <= k < |Fields(s, sep)| ==> sep !in Fields(s, sep)[k]
  {
    if s != "" {
      FieldsFree(s[1..], sep);
    }
  }

  lemma JoinAttach(c: char, fs: seq<string>, sep: string)
    requires |fs| > 0
    ensures Join(Attach([c], fs), sep) == [c] + Join(fs, sep)
  {
    if |fs| > 1 {
      assert Attach([c], fs)[1..] == fs[1..];
    }
  }

  /** Rejoining the pieces of splitString with the separator gives back the input. */
  lemma {:induction false} JoinFields(s: string, sep: char)
    ensures Join(Fields(s, sep), [sep]) == s
  {
    if s != "" {
      JoinFields(s[1..], sep);
      if s[0] == sep {
        assert ([""] + Fields(s[1..], sep))[1..] == Fields(s[1..], sep);
        assert s == [sep] + s[1..];
      } else {
        JoinAttach(s[0], Fields(s[1..], sep), [sep]);
        assert s == [s[0]] + s[1..];
      }
    }
  }

  /** A string without the separator is a single field. */
  lemma {:induction false} FieldsOfPlain(x: string, sep: char)
    requires sep !in x
    ensures Fields(x, sep) == [x]
  {
    if x != "" {
      FieldsOfPlain(x[1..], sep);
      assert [x[0]] + x[1..] == x;
    }
  }

  /** A field ended by the separator is split off whole. */
  lemma {:induction false} FieldsOfPrefix(x: string, sep: char, rest: string)
    requires sep !in x
    ensures Fields(x + [sep] + rest, sep) == [x] + Fields(rest, sep)
  {
    if x == "" {
      assert x + [sep] + rest == [sep] + rest;
      assert ([sep] + rest)[1..] == rest;
    } else {
      FieldsOfPrefix(x[1..], sep, rest);
      assert (x + [sep] + rest)[1..] == x[1..] + [sep] + rest;
      assert [x[0]] + x[1..] == x;
    }
  }

  /** Splitting a join of separator-free elements gives the elements back. */
  lemma {:induction false} FieldsOfJoin(xs: seq<string>, sep: char)
    requires |xs| > 0 && forall k :: 0 <= k < |xs| ==> sep !in xs[k]
    ensures Fields(Join(xs, [sep]), sep) == xs
    decreases |xs|
  {
    if |xs| == 1 {
      FieldsOfPlain(xs[0], sep);
    } else {
      FieldsOfJoin(xs[1..], sep);
      FieldsOfPrefix(xs[0], sep, Join(xs[1..], [sep]));
      assert [xs[0]] + xs[1..] == xs;
    }
  }

  // ---------------------------------------------------------------------
  // trimSpace

  /** The bytes trimSpace removes: space, tab, line feed and carriage return. */
  predicate IsTrimmed(c: char) {
    c == ' ' || c == '\t' || c == '\n' || c == '\r'
  }

  /** `s` without its leading whitespace. */
  function TrimLeading(s: string): (r: string)
    ensures |r| <= |s|
  {
    if s != [] && IsTrimmed(s[0]) then TrimLeading(s[1..]) else s
  }

  /** `s` without its trailing whitespace. */
  function TrimTrailing(s: string): (r: string)
    ensures |r| <= |s|
  {
    if s != [] && IsTrimmed(s[|s| - 1]) then TrimTrailing(s[..|s| - 1]) else s
  }

  /** What trimSpace returns. */
  function Trim(s: string): string {
    TrimTrailing(TrimLeading(s))
  }

  /** trimSpace: advance `start` past leading, pull `end` before trailing whitespace. */
  method TrimSpace(s: string) returns (r: string)
    ensures r == Trim(s)
  {
    var start := 0;
    var end := |s|;
    while start < end && IsTrimmed(s[start])
      invariant 0 <= start <= end == |s|
      invariant TrimLeading(s[start..]) == TrimLeading(s)
    {
      assert s[start..][1..] == s[start + 1..];
      start := start + 1;
    }
    assert s[start..end] == s[start..] == TrimLeading(s);
    while end > start && IsTrimmed(s[end - 1])
      invariant start <= end <= |s|
      invariant TrimTrailing(s[start..end]) == Trim(s)
    {
      assert s[start..end][..end - 1 - start] == s[start..end - 1];
      end := end - 1;
    }
    return s[start..end];
  }

  /** TrimLeading drops a run of whitespace from the front and stops at a non-space. */
  lemma {:induction false} LeadingDropped(s: string)
    ensures TrimLeading(s) == s[|s| - |TrimLeading(s)|..]
    ensures forall k :: 0 <= k < |s| - |TrimLeading(s)| ==> IsTrimmed(s[k])
    ensures TrimLeading(s) == [] || !IsTrimmed(TrimLeading(s)[0])
  {
    if s != [] && IsTrimmed(s[0]) {
      LeadingDropped(s[1..]);
      assert s[1..][|s| - 1 - |TrimLeading(s)|..] == s[|s| - |TrimLeading(s)|..];
      forall k | 1 <= k < |s| - |TrimLeading(s)| ensures IsTrimmed(s[k]) {
        assert s[k] == s[1..][k - 1];
      }
    }
  }

  /** TrimTrailing drops a run of whitespace from the back and stops at a non-space. */
  lemma {:induction false} TrailingDropped(s: string)
    ensures TrimTrailing(s) == s[..|TrimTrailing(s)|]
    ensures forall k :: |TrimTrailing(s)| <= k < |s| ==> IsTrimmed(s[k])
    ensures TrimTrailing(s) == [] || !IsTrimmed(TrimTrailing(s)[|TrimTrailing(s)| - 1])
  {
    if s != [] && IsTrimmed(s[|s| - 1]) {
      TrailingDropped(s[..|s| - 1]);
      assert s[..|s| - 1][..|TrimTrailing(s)|] == s[..|TrimTrailing(s)|];
      forall k | |TrimTrailing(s)| <= k < |s| - 1 ensures IsTrimmed(s[k]) {
        assert s[k] == s[..|s| - 1][k];
      }
    }
  }

  /**
   * trimSpace returns a contiguous substring of its input that neither starts
   * nor ends with whitespace, and everything it drops is whitespace.
   */
  lemma TrimIsInnerSlice(s: string)
    ensures exists i, j :: (0 <= i <= j <= |s| && Trim(s) == s[i..j]
      && (forall k :: 0 <= k < i ==> IsTrimmed(s[k]))
      && (forall k :: j <= k < |s| ==> IsTrimmed(s[k])))
    ensures Trim(s) == "" || (!IsTrimmed(Trim(s)[0]) && !IsTrimmed(Trim(s)[|Trim(s)| - 1]))
  {
    var l := TrimLeading(s);
    var t := Trim(s);
    LeadingDropped(s);
    TrailingDropped(l);
    var i := |s| - |l|;
    var j := i + |t|;
    assert t == s[i..j];
    forall k | j <= k < |s| ensures IsTrimmed(s[k]) {
      assert s[k] == l[k - i];
    }
    if t != "" {
      assert t[0] == l[0];
    }
    assert 0 <= i <= j <= |s| && Trim(s) == s[i..j];
  }

  /** Trimming twice is trimming once. */
  lemma TrimIdempotent(s: string)
    ensures Trim(Trim(s)) == Trim(s)
  {
    TrimIsInnerSlice(s);
  }

  // ---------------------------------------------------------------------
  // splitAndTrim

  /** The trimmed pieces that are not empty, in order. */
  function KeepTrimmed(pieces: seq<string>): (r: seq<string>)
    ensures |r| <= |pieces|
    ensures forall k :: 0 <= k < |r| ==> r[k] != "" && r[k] == Trim(r[k])
  {
    if pieces == [] then []
    else
      var t := Trim(pieces[0]);
      TrimIdempotent(pieces[0]);
      if t != "" then [t] + KeepTrimmed(pieces[1..]) else KeepTrimmed(pieces[1..])
  }

  /** What splitAndTrim returns: nil for "", otherwise the trimmed non-empty pieces. */
  function SplitTrimmed(s: string): seq<string> {
    if s == "" then [] else KeepTrimmed(Fields(s, Comma))
  }

  /** splitAndTrim. */
  method SplitAndTrim(s: string) returns (parts: seq<string>)
    ensures parts == SplitTrimmed(s)
  {
    if s == "" {
      return [];
    }
    parts := [];
    var pieces := SplitString(s, Comma);
    for i := 0 to |pieces|
      invariant parts + KeepTrimmed(pieces[i..]) == KeepTrimmed(pieces)
    {
      assert pieces[i..][1..] == pieces[i + 1..];
      var trimmed := TrimSpace(pieces[i]);
      if trimmed != "" {
        parts := parts + [trimmed];
      }
    }
  }

  lemma {:induction false} KeepTrimmedClean(xs: seq<string>)
    requires forall k :: 0 <= k < |xs| ==> xs[k] != "" && Trim(xs[k]) == xs[k]
    ensures KeepTrimmed(xs) == xs
  {
    if xs != [] {
      KeepTrimmedClean(xs[1..]);
    }
  }

  /**
   * Splitting a comma join of non-empty, already trimmed, comma-free entries
   * gives the entries back: the extension list survives a join and re-split.
   */
  lemma JoinThenSplit(xs: seq<string>)
    requires forall k :: 0 <= k < |xs| ==> xs[k] != "" && Trim(xs[k]) == xs[k] && Comma !in xs[k]
    ensures SplitTrimmed(Join(xs, [Comma])) == xs
  {
    if xs != [] {
      FieldsOfJoin(xs, Comma);
      KeepTrimmedClean(xs);
      assert Join(xs, [Comma]) != "" by {
        JoinLength(xs, [Comma]);
        assert |xs[0]| > 0;
        assert SumLengths(xs) >= |xs[0]|;
      }
    }
  }

  // ---------------------------------------------------------------------
  // buildRuleLabel

  /** buildRuleLabel: the name, else the extensions, else the regex, else the command. */
  function RuleLabel(rule: Rule): (caption: string)
    ensures rule.name != "" ==> caption == rule.name
    ensures rule.name == "" && |rule.extensions| > 0 ==> caption == "Extensions: " + Join(rule.extensions, [Comma])
    ensures rule.name == "" && rule.extensions == [] && rule.regex != "" ==> caption == "Regex: " + rule.regex
    ensures rule.name == "" && rule.extensions == [] && rule.regex == "" ==> caption == "Command: " + rule.command
  {
    if rule.name != "" then rule.name
    else if |rule.extensions| > 0 then "Extensions: " + Join(rule.extensions, [Comma])
    else if rule.regex != "" then "Regex: " + rule.regex
    else "Command: " + rule.command
  }

  // ---------------------------------------------------------------------
  // runConfigRemove

  const Int64Min := -0x8000_0000_0000_0000
  const Int64Max := 0x7fff_ffff_ffff_ffff

  predicate IsDigit(c: char) {
    '0' <= c <= '9'
  }

  function DigitOf(c: char): nat
    requires IsDigit(c)
  {
    c as int - '0' as int
  }

  /** The value of a string of decimal digits. */
  function DigitsValue(ds: string): nat
    requires forall k :: 0 <= k < |ds| ==> IsDigit(ds[k])
  {
    if ds == [] then 0 else DigitsValue(ds[..|ds| - 1]) * 10 + DigitOf(ds[|ds| - 1])
  }

  /** The length of the run of digits `s` starts with. */
  function LeadingDigits(s: string): (n: nat)
    ensures n <= |s| && (forall k :: 0 <= k < n ==> IsDigit(s[k])) && (n < |s| ==> !IsDigit(s[n]))
  {
    if s != [] && IsDigit(s[0]) then 1 + LeadingDigits(s[1..]) else 0
  }

  /**
   * The input after the space fmt skips before a number; a newline met while
   * skipping is an error (None).
   */
  function SkipScanSpace(s: string): (r: Option<string>)
    ensures r.Some? ==> HasSuffix(s, r.value) && (r.value == [] || !IsUnicodeSpace(r.value[0]))
  {
    if s == [] then Some(s)
    else if s[0] == '\n' then None
    else if IsUnicodeSpace(s[0]) then SkipScanSpace(s[1..])
    else Some(s)
  }

  /**
   * fmt.Sscanf(text, "%d", &index): optional leading space, an optional sign,
   * at least one decimal digit; what follows the digits is ignored, and a
   * value outside the 64-bit range is an error.
   */
  function ScanIndex(text: string): (r: Result<int, Error>)
    ensures r.Ok? ==> Int64Min <= r.value <= Int64Max
    ensures r.Err? ==> r.error == InvalidIndex(text)
  {
    match SkipScanSpace(text)
    case None => Err(InvalidIndex(text))
    case Some(t) =>
      var negative := |t| > 0 && t[0] == '-';
      var unsigned := if |t| > 0 && (t[0] == '+' || t[0] == '-') then t[1..] else t;
      var n := LeadingDigits(unsigned);
      if n == 0 then Err(InvalidIndex(text))
      else
        var magnitude: int := DigitsValue(unsigned[..n]);
        var value := if negative then -magnitude else magnitude;
        if value < Int64Min || value > Int64Max then Err(InvalidIndex(text))
        else Ok(value)
  }

  /** The decimal digits of `n`, as `config list` numbers rules. */
  function Decimal(n: nat): (ds: string)
    ensures |ds| > 0 && forall k :: 0 <= k < |ds| ==> IsDigit(ds[k])
  {
    if n < 10 then [('0' as int + n) as char] else Decimal(n / 10) + [('0' as int + n % 10) as char]
  }

  lemma {:induction false} DecimalValue(n: nat)
    ensures DigitsValue(Decimal(n)) == n
  {
    if n >= 10 {
      DecimalValue(n / 10);
      var ds := Decimal(n);
      assert ds[..|ds| - 1] == Decimal(n / 10);
    }
  }

  /** A printed rule number parses back to itself. */
  lemma ScanDecimal(n: nat)
    requires n <= Int64Max
    ensures ScanIndex(Decimal(n)) == Ok(n)
  {
    var ds := Decimal(n);
    DecimalValue(n);
    DigitsScan(ds);
    assert LeadingDigits(ds) == |ds|;
    assert ds[..|ds|] == ds;
  }

  /** A run of digits starts right away: no space to skip and no sign. */
  lemma DigitsScan(ds: string)
    requires |ds| > 0 && forall k :: 0 <= k < |ds| ==> IsDigit(ds[k])
    ensures SkipScanSpace(ds) == Some(ds)
    ensures ds[0] != '+' && ds[0] != '-'
  {
    assert IsDigit(ds[0]) && !IsUnicodeSpace(ds[0]);
  }

  /** Input that does not start with a sign or a digit is not an index. */
  lemma NotANumber(text: string)
    requires text != [] && !IsUnicodeSpace(text[0]) && !IsDigit(text[0]) && text[0] != '+' && text[0] != '-'
    ensures ScanIndex(text) == Err(InvalidIndex(text))
  {
  }

  /** What is left of the rules after removing the one at 1-based `index`. */
  function RemoveAt(rules: seq<Rule>, index: int): (r: Result<seq<Rule>, Error>)
    ensures r.Err? <==> index < 1 || index > |rules|
    ensures r.Err? ==> r.error == IndexOutOfRange(index)
    ensures r.Ok? ==> (|r.value| == |rules| - 1
      && (forall k :: 0 <= k < index - 1 ==> r.value[k] == rules[k])
      && (forall k :: index - 1 <= k < |r.value| ==> r.value[k] == rules[k + 1]))
  {
    if index < 1 || index > |rules| then Err(IndexOutOfRange(index))
    else Ok(rules[..index - 1] + rules[index..])
  }

  /**
   * runConfigRemove: the index is parsed first, then the configuration
   * loaded, then the range checked; the result is the configuration to save.
   */
  function RemoveRule(indexText: string, loaded: Result<Config, Error>): (r: Result<Config, Error>)
    ensures ScanIndex(indexText).Err? ==> r == Err(InvalidIndex(indexText))
    ensures ScanIndex(indexText).Ok? && loaded.Err? ==> r == Err(loaded.error)
    ensures r.Ok? ==> (loaded.Ok? && ScanIndex(indexText).Ok?
      && RemoveAt(loaded.value.rules, ScanIndex(indexText).value).Ok?
      && r.value == loaded.value.(rules := RemoveAt(loaded.value.rules, ScanIndex(indexText).value).value))
  {
    var index :- ScanIndex(indexText);
    var cfg :- loaded;
    var rules :- RemoveAt(cfg.rules, index);
    Ok(cfg.(rules := rules))
  }

  /** Removing a listed rule by its printed number drops exactly that rule. */
  lemma RemoveListed(cfg: Config, k: nat)
    requires k < |cfg.rules| && k < Int64Max
    ensures RemoveRule(Decimal(k + 1), Ok(cfg)) == Ok(cfg.(rules := cfg.rules[..k] + cfg.rules[k + 1..]))
  {
    ScanDecimal(k + 1);
  }

  // ---------------------------------------------------------------------
  // runConfigAdd

  /** The flags of `config add`. */
  datatype AddFlags = AddFlags(
    ext: string, command: string, name: string, regex: string, mime: string, scheme: string,
    terminal: bool, background: bool, fallthrough: bool, os: seq<string>)

  /** The rule `config add` builds from its flags. */
  function NewRule(f: AddFlags): (rule: Rule)
    ensures rule == Rule(f.name, SplitTrimmed(f.ext), f.regex, f.mime, f.scheme, f.os, "",
                         f.command, f.background, f.terminal, f.fallthrough)
    ensures f.ext == "" ==> rule.extensions == []
    ensures rule.script == ""
  {
    Rule(f.name, if f.ext != "" then SplitTrimmed(f.ext) else [], f.regex, f.mime, f.scheme, f.os, "",
         f.command, f.background, f.terminal, f.fallthrough)
  }

  /**
   * runConfigAdd: the command is required and the patterns must compile, all
   * before the configuration is read; an unreadable configuration is replaced
   * by a fresh one; the new rule goes last.
   */
  function AddRule(h: Host, f: AddFlags, loaded: Result<Config, Error>): (r: Result<Config, Error>)
    ensures f.command == "" ==> r == Err(CmdRequired)
    ensures f.command != "" && f.regex != "" && !h.compiles(f.regex) ==> r == Err(InvalidRegex(f.regex))
    ensures f.command != "" && (f.regex == "" || h.compiles(f.regex)) && f.mime != "" && !h.compiles(f.mime) ==>
      r == Err(InvalidMime(f.mime))
    ensures r.Ok? <==> f.command != "" && (f.regex == "" || h.compiles(f.regex)) && (f.mime == "" || h.compiles(f.mime))
    ensures r.Err? ==> r.error in {CmdRequired, InvalidRegex(f.regex), InvalidMime(f.mime)}
    ensures r.Ok? ==>
      var base := if loaded.Ok? then loaded.value else FreshConfig;
      r.value == base.(rules := base.rules + [NewRule(f)])
  {
    if f.command == "" then Err(CmdRequired)
    else if f.regex != "" && !h.compiles(f.regex) then Err(InvalidRegex(f.regex))
    else if f.mime != "" && !h.compiles(f.mime) then Err(InvalidMime(f.mime))
    else
      var cfg := if loaded.Ok? then loaded.value else FreshConfig;
      Ok(cfg.(rules := cfg.rules + [NewRule(f)]))
  }

  /** A rule added is the last listed, and every earlier rule keeps its number. */
  lemma AddedRuleIsLast(h: Host, f: AddFlags, cfg: Config)
    requires AddRule(h, f, Ok(cfg)).Ok? && |cfg.rules| < Int64Max
    ensures var rules := AddRule(h, f, Ok(cfg)).value.rules;
      && |rules| == |cfg.rules| + 1
      && rules[|cfg.rules|] == NewRule(f)
      && rules[..|cfg.rules|] == cfg.rules
      && RemoveRule(Decimal(|cfg.rules| + 1), Ok(AddRule(h, f, Ok(cfg)).value)) == Ok(cfg)
  {
    var added := AddRule(h, f, Ok(cfg)).value;
    var rules := cfg.rules + [NewRule(f)];
    assert added == cfg.(rules := rules);
    assert rules[..|cfg.rules|] + rules[|cfg.rules| + 1..] == cfg.rules;
    RemoveListed(added, |cfg.rules|);
  }

  // ---------------------------------------------------------------------
  // runConfigSetDefault

  /**
   * runConfigSetDefault: the configuration path must resolve first; a missing
   * file then starts from a fresh configuration, an unreadable one is an
   * error; the default command is set and the alias-style default cleared,
   * nothing else changes. `fileExists` is the answer for the resolved path.
   */
  function SetDefault(path: Result<string, Error>, fileExists: bool, loaded: Result<Config, Error>, command: string): (r: Result<Config, Error>)
    ensures path.Err? ==> r == Err(path.error)
    ensures path.Ok? && !fileExists ==> r == Ok(FreshConfig.(defaultCommand := command))
    ensures path.Ok? && fileExists && loaded.Err? ==> r == Err(loaded.error)
    ensures r.Ok? ==> path.Ok? && r.value.defaultCommand == command && r.value.default == ""
    ensures path.Ok? && fileExists && loaded.Ok? ==>
      r.Ok? && r.value.rules == loaded.value.rules && r.value.aliases == loaded.value.aliases
      && r.value.version == loaded.value.version
  {
    var _ :- path;
    var cfg :- if !fileExists then Ok(FreshConfig) else loaded;
    Ok(cfg.(defaultCommand := command, default := ""))
  }
}
