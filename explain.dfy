/**
 * Explain mode (cmd/et/explain.go): what the program knows about the target,
 * one row per rule it evaluates (with the conditions it checked, in order),
 * and the action it would take. Unlike the matcher, explain mode never fails:
 * an invalid pattern is a miss, and MIME is only tried for existing files.
 *
 * Styling (colours, the table layout) is not modelled; each row keeps its
 * number, name, the checked conditions and the verdict.
 */
module Explain {
  import opened Wrappers
  import opened Text
  import opened Domain
  import opened Matcher
  import ConfigCommand

  /** One checked condition, as the row lists it. */
  datatype Condition =
    | OsOk(goos: string)               // "✓ OS: <goos>"
    | OsMismatch                       // "✗ OS mismatch"
    | SchemeOk(scheme: string)         // "✓ Scheme: <scheme>"
    | SchemeMismatch(scheme: string)   // "✗ Scheme: <scheme>"
    | ExtOk(ext: string)               // "✓ Ext: .<ext>"
    | ExtMiss(exts: seq<string>)       // "○ Ext: [<exts>]"
    | RegexOk                          // "✓ Regex"
    | RegexMiss(regex: string)         // "○ Regex: <regex>"
    | MimeOk                           // "✓ MIME"
    | MimeMiss(mime: string)           // "○ MIME: <mime>"

  /** A condition that makes the rule match. */
  predicate IsHit(c: Condition) {
    c.SchemeOk? || c.ExtOk? || c.RegexOk? || c.MimeOk?
  }

  /** The result column: SKIP, [MATCH] (with an arrow when the rule falls through), or a dash. */
  datatype Verdict = Skip | Matched(arrow: bool) | Unmatched

  datatype Row = Row(num: string, name: string, conditions: seq<Condition>, verdict: Verdict, matched: bool)

  /** The conditions so far and whether one of them matched. */
  datatype Progress = Progress(conditions: seq<Condition>, matched: bool)

  /** The extension test, when nothing matched yet and the rule lists extensions. */
  function ExtStage(h: Host, rule: Rule, target: string, p: Progress): Progress {
    if p.matched || |rule.extensions| == 0 then p
    else if ExtHit(h, rule, target) then Progress(p.conditions + [ExtOk(TargetExt(h, target))], true)
    else Progress(p.conditions + [ExtMiss(rule.extensions)], false)
  }

  /** The regex test; a pattern that does not compile is a miss. */
  function RegexStage(h: Host, rule: Rule, target: string, p: Progress): Progress {
    if p.matched || rule.regex == "" then p
    else if h.compiles(rule.regex) && h.matches(rule.regex, target) then Progress(p.conditions + [RegexOk], true)
    else Progress(p.conditions + [RegexMiss(rule.regex)], false)
  }

  /** The MIME test: only for an existing file whose type is detected; nothing is listed otherwise. */
  function MimeStage(h: Host, rule: Rule, target: string, p: Progress): Progress {
    if p.matched || rule.mime == "" || IsUrl(h, target) || !h.fileExists(target) || h.detectMime(target).None? then p
    else if h.compiles(rule.mime) && h.matches(rule.mime, h.detectMime(target).value) then Progress(p.conditions + [MimeOk], true)
    else Progress(p.conditions + [MimeMiss(rule.mime)], false)
  }

  /** The OS and scheme checks: either the rule is skipped, or the content tests start from here. */
  datatype Opening = Skipped(conditions: seq<Condition>) | Start(progress: Progress)

  function Open(h: Host, rule: Rule, target: string): Opening {
    if !OsAllows(h.goos, rule.os) then Skipped([OsMismatch])
    else
      var osPart := if |rule.os| > 0 then [OsOk(h.goos)] else [];
      if rule.scheme == "" then Start(Progress(osPart, false))
      else if SchemeHit(h, rule, target) then Start(Progress(osPart + [SchemeOk(rule.scheme)], true))
      else Skipped(osPart + [SchemeMismatch(rule.scheme)])
  }

  /** The row of the rule at position `index`. */
  function ExplainRow(h: Host, rule: Rule, index: nat, target: string): (row: Row)
    ensures row.num == ConfigCommand.Decimal(index + 1)
    ensures row.name == if rule.name == "" then "-" else rule.name
    ensures row.verdict == Skip <==> Open(h, rule, target).Skipped?
    ensures !OsAllows(h.goos, rule.os) ==> row.verdict == Skip && row.conditions == [OsMismatch]
    ensures row.matched <==> row.verdict.Matched?
    ensures row.matched ==> row.verdict == Matched(rule.fallthrough)
    ensures OsAllows(h.goos, rule.os) && rule.scheme != "" && SchemeHit(h, rule, target) ==> row.matched
  {
    var num := ConfigCommand.Decimal(index + 1);
    var name := if rule.name == "" then "-" else rule.name;
    match Open(h, rule, target)
    case Skipped(conditions) => Row(num, name, conditions, Skip, false)
    case Start(start) =>
      var p := MimeStage(h, rule, target, RegexStage(h, rule, target, ExtStage(h, rule, target, start)));
      Row(num, name, p.conditions, if p.matched then Matched(rule.fallthrough) else Unmatched, p.matched)
  }

  /** The row of every rule, as if each were evaluated. */
  function AllRows(h: Host, rules: seq<Rule>, target: string): (rows: seq<Row>)
    ensures |rows| == |rules|
    ensures forall k :: 0 <= k < |rules| ==> rows[k] == ExplainRow(h, rules[k], k, target)
  {
    seq(|rules|, k requires 0 <= k < |rules| => ExplainRow(h, rules[k], k, target))
  }

  /** The rows from position `i` on, stopping after a matched rule that does not fall through. */
  function Cut(rows: seq<Row>, rules: seq<Rule>, i: nat): seq<Row>
    requires |rows| == |rules| && i <= |rules|
    decreases |rules| - i
  {
    if i == |rules| then []
    else if rows[i].matched && !rules[i].fallthrough then [rows[i]]
    else [rows[i]] + Cut(rows, rules, i + 1)
  }

  /** The rows handleExplain prints from rule `i` on. */
  function RowsFrom(h: Host, rules: seq<Rule>, target: string, i: nat): seq<Row>
    requires i <= |rules|
  {
    Cut(AllRows(h, rules, target), rules, i)
  }

  /** The file information section. */
  datatype Info =
    | UrlInfo(scheme: string, ext: Option<string>)
    | FileInfo(ext: Option<string>, mime: Option<string>, found: bool)

  /** The action of the result section. */
  datatype Outcome = RuleMatched | RunDefault(command: string) | SystemDefault

  datatype Report = Report(info: Info, rows: seq<Row>, outcome: Outcome)

  /** The extension shown for a path: without its dot, and only when there is one. */
  function ShownExt(path: string): Option<string> {
    var ext := PathExt(path);
    if ext == "" then None else Some(TrimPrefix(ext, "."))
  }

  function Describe(h: Host, target: string): Info {
    if IsUrl(h, target) then
      var u := h.parseUrl(target).value;
      UrlInfo(u.scheme, if u.path != "" then ShownExt(u.path) else None)
    else
      var found := h.fileExists(target);
      FileInfo(ShownExt(target), if found then h.detectMime(target) else None, found)
  }

  predicate AnyMatched(rows: seq<Row>) {
    exists k :: 0 <= k < |rows| && rows[k].matched
  }

  /** The result section: success when a rule matched, else the default command or the system default. */
  function Decide(cfg: Config, anyMatched: bool): (o: Outcome)
    ensures o == RuleMatched <==> anyMatched
    ensures !anyMatched && cfg.defaultCommand != "" ==> o == RunDefault(cfg.defaultCommand)
    ensures !anyMatched && cfg.defaultCommand == "" ==> o == SystemDefault
  {
    if !anyMatched then (if cfg.defaultCommand != "" then RunDefault(cfg.defaultCommand) else SystemDefault)
    else RuleMatched
  }

  /** handleExplain, as a function of the configuration and the host. */
  function ExplainReport(h: Host, cfg: Config, target: string): (report: Report)
    ensures report.outcome == RuleMatched <==> AnyMatched(report.rows)
    ensures !AnyMatched(report.rows) && cfg.defaultCommand != "" ==> report.outcome == RunDefault(cfg.defaultCommand)
    ensures !AnyMatched(report.rows) && cfg.defaultCommand == "" ==> report.outcome == SystemDefault
    ensures report.info.UrlInfo? <==> IsUrl(h, target)
  {
    var rows := RowsFrom(h, cfg.rules, target, 0);
    Report(Describe(h, target), rows, Decide(cfg, AnyMatched(rows)))
  }

  /** The OS and scheme checks of handleExplain's rule loop. */
  method OpenRow(h: Host, rule: Rule, target: string, isUrl: bool) returns (o: Opening)
    requires isUrl == IsUrl(h, target)
    ensures o == Open(h, rule, target)
  {
    var conditions: seq<Condition> := [];
    if |rule.os| > 0 {
      var osMatch := ContainsFolded(rule.os, h.goos);
      if osMatch {
        conditions := conditions + [OsOk(h.goos)];
      } else {
        conditions := conditions + [OsMismatch];
        return Skipped(conditions);
      }
    }
    if rule.scheme != "" {
      if isUrl && ToLower(h.parseUrl(target).value.scheme) == ToLower(rule.scheme) {
        conditions := conditions + [SchemeOk(rule.scheme)];
        return Start(Progress(conditions, true));
      } else {
        conditions := conditions + [SchemeMismatch(rule.scheme)];
        return Skipped(conditions);
      }
    }
    return Start(Progress(conditions, false));
  }

  /** The extension check of handleExplain's rule loop. */
  method ExtCheck(h: Host, rule: Rule, target: string, isUrl: bool, p: Progress) returns (q: Progress)
    requires isUrl == IsUrl(h, target)
    ensures q == ExtStage(h, rule, target, p)
  {
    q := p;
    if !p.matched && |rule.extensions| > 0 {
      var path := if isUrl then h.parseUrl(target).value.path else target;
      var pathExt := ToLower(TrimPrefix(PathExt(path), "."));
      var extMatched := ContainsFolded(rule.extensions, pathExt);
      if extMatched {
        q := Progress(p.conditions + [ExtOk(pathExt)], true);
      } else {
        q := Progress(p.conditions + [ExtMiss(rule.extensions)], false);
      }
    }
  }

  /** The regex check of handleExplain's rule loop: a pattern that does not compile is a miss. */
  method RegexCheck(h: Host, rule: Rule, target: string, p: Progress) returns (q: Progress)
    ensures q == RegexStage(h, rule, target, p)
  {
    q := p;
    if !p.matched && rule.regex != "" {
      if h.compiles(rule.regex) && h.matches(rule.regex, target) {
        q := Progress(p.conditions + [RegexOk], true);
      } else {
        q := Progress(p.conditions + [RegexMiss(rule.regex)], false);
      }
    }
  }

  /** The MIME check of handleExplain's rule loop: only for an existing file whose type is detected. */
  method MimeCheck(h: Host, rule: Rule, target: string, isUrl: bool, p: Progress) returns (q: Progress)
    requires isUrl == IsUrl(h, target)
    ensures q == MimeStage(h, rule, target, p)
  {
    q := p;
    if !p.matched && rule.mime != "" && !isUrl {
      if h.fileExists(target) {
        var mtype := h.detectMime(target);
        if mtype.Some? {
          if h.compiles(rule.mime) && h.matches(rule.mime, mtype.value) {
            q := Progress(p.conditions + [MimeOk], true);
          } else {
            q := Progress(p.conditions + [MimeMiss(rule.mime)], false);
          }
        }
      }
    }
  }

  /** One iteration of handleExplain's rule loop. */
  method EvaluateRow(h: Host, rule: Rule, i: nat, target: string, isUrl: bool) returns (row: Row)
    requires isUrl == IsUrl(h, target)
    ensures row == ExplainRow(h, rule, i, target)
  {
    var num := ConfigCommand.Decimal(i + 1);
    var name := rule.name;
    if name == "" {
      name := "-";
    }
    var opening := OpenRow(h, rule, target, isUrl);
    if opening.Skipped? {
      return Row(num, name, opening.conditions, Skip, false);
    }
    var p := ExtCheck(h, rule, target, isUrl, opening.progress);
    p := RegexCheck(h, rule, target, p);
    p := MimeCheck(h, rule, target, isUrl, p);
    var verdict := if p.matched then Matched(rule.fallthrough) else Unmatched;
    return Row(num, name, p.conditions, verdict, p.matched);
  }

  /** handleExplain: the file information, the rule rows, and the result. */
  method HandleExplain(h: Host, cfg: Config, target: string) returns (report: Report)
    ensures report == ExplainReport(h, cfg, target)
  {
    var isUrl := IsUrl(h, target);
    var info := Describe(h, target);
    var results, matched := ExplainRules(h, cfg.rules, target, isUrl);
    var outcome := Decide(cfg, matched);
    return Report(info, results, outcome);
  }

  /** handleExplain's rule loop: one row per evaluated rule, and whether any matched. */
  method ExplainRules(h: Host, rules: seq<Rule>, target: string, isUrl: bool) returns (results: seq<Row>, matched: bool)
    requires isUrl == IsUrl(h, target)
    ensures results == RowsFrom(h, rules, target, 0)
    ensures matched <==> AnyMatched(results)
  {
    ghost var all := AllRows(h, rules, target);
    results := [];
    matched := false;
    var i := 0;
    while i < |rules|
      invariant 0 <= i <= |rules|
      invariant results + Cut(all, rules, i) == Cut(all, rules, 0)
      invariant matched <==> AnyMatched(results)
    {
      var row := EvaluateRow(h, rules[i], i, target, isUrl);
      CutStep(all, rules, results, i);
      AnyMatchedSnoc(results, row);
      results := results + [row];
      if row.matched {
        matched := true;
        if !rules[i].fallthrough {
          return;
        }
      }
      i := i + 1;
    }
    assert results == Cut(all, rules, 0);
  }

  lemma CutStep(rows: seq<Row>, rules: seq<Rule>, done: seq<Row>, i: nat)
    requires |rows| == |rules| && i < |rules|
    requires done + Cut(rows, rules, i) == Cut(rows, rules, 0)
    ensures rows[i].matched && !rules[i].fallthrough ==> done + [rows[i]] == Cut(rows, rules, 0)
    ensures !(rows[i].matched && !rules[i].fallthrough) ==>
      (done + [rows[i]]) + Cut(rows, rules, i + 1) == Cut(rows, rules, 0)
  {
    if !(rows[i].matched && !rules[i].fallthrough) {
      assert Cut(rows, rules, i) == [rows[i]] + Cut(rows, rules, i + 1);
      assert (done + [rows[i]]) + Cut(rows, rules, i + 1) == done + ([rows[i]] + Cut(rows, rules, i + 1));
    }
  }

  lemma AnyMatchedSnoc(rows: seq<Row>, row: Row)
    ensures AnyMatched(rows + [row]) <==> AnyMatched(rows) || row.matched
  {
    if row.matched {
      assert (rows + [row])[|rows|] == row;
    }
    if AnyMatched(rows) {
      var k :| 0 <= k < |rows| && rows[k].matched;
      assert (rows + [row])[k] == rows[k];
    }
  }

  // ---------------------------------------------------------------------
  // Properties

  /**
   * The rows are a prefix of the rules' rows: row `k` is the row of rule
   * `i + k`; only the last may be a matched rule that does not fall through,
   * and the rows stop short of the end only after one.
   */
  lemma {:induction false} CutShape(rows: seq<Row>, rules: seq<Rule>, i: nat)
    requires |rows| == |rules| && i <= |rules|
    ensures var c := Cut(rows, rules, i);
      && |c| <= |rules| - i
      && c == rows[i..i + |c|]
      && (forall k :: 0 <= k < |c| - 1 ==> !(c[k].matched && !rules[i + k].fallthrough))
      && (|c| < |rules| - i ==> |c| > 0 && c[|c| - 1].matched && !rules[i + |c| - 1].fallthrough)
    decreases |rules| - i
  {
    if i < |rules| && !(rows[i].matched && !rules[i].fallthrough) {
      CutShape(rows, rules, i + 1);
      var c := Cut(rows, rules, i + 1);
      assert Cut(rows, rules, i) == [rows[i]] + c;
      assert rows[i..i + 1 + |c|] == [rows[i]] + rows[i + 1..i + 1 + |c|];
    }
  }

  /** Row `k` belongs to rule `k`: numbered from 1, an unnamed rule shown as "-". */
  lemma RowsNumbered(h: Host, rules: seq<Rule>, target: string)
    ensures var rows := RowsFrom(h, rules, target, 0);
      |rows| <= |rules| &&
      forall k :: 0 <= k < |rows| ==>
        && rows[k] == ExplainRow(h, rules[k], k, target)
        && rows[k].num == ConfigCommand.Decimal(k + 1)
        && rows[k].name == (if rules[k].name == "" then "-" else rules[k].name)
  {
    CutShape(AllRows(h, rules, target), rules, 0);
  }

  /** Only the last row may be a matched rule that does not fall through; rules after it get no row. */
  lemma RowsStop(h: Host, rules: seq<Rule>, target: string)
    ensures var rows := RowsFrom(h, rules, target, 0);
      && |rows| <= |rules|
      && (forall k :: 0 <= k < |rows| - 1 ==> !(rows[k].matched && !rules[k].fallthrough))
      && (|rows| < |rules| ==> |rows| > 0 && rows[|rows| - 1].matched && !rules[|rows| - 1].fallthrough)
  {
    CutShape(AllRows(h, rules, target), rules, 0);
  }

  /** A rule whose OS list excludes the current OS, or whose scheme does not match, is skipped. */
  lemma SkipRows(h: Host, rule: Rule, i: nat, target: string)
    ensures !OsAllows(h.goos, rule.os) ==> ExplainRow(h, rule, i, target).conditions == [OsMismatch]
    ensures !OsAllows(h.goos, rule.os) || (rule.scheme != "" && !SchemeHit(h, rule, target)) ==>
      ExplainRow(h, rule, i, target).verdict == Skip && !ExplainRow(h, rule, i, target).matched
  {
  }

  /** The conditions end at the first success, if any: matched exactly when the last one is a success. */
  predicate HitsLast(p: Progress) {
    && (p.matched <==> |p.conditions| > 0 && IsHit(p.conditions[|p.conditions| - 1]))
    && (forall j :: 0 <= j < |p.conditions| - 1 ==> !IsHit(p.conditions[j]))
  }

  lemma AppendKeeps(p: Progress, c: Condition)
    requires HitsLast(p) && !p.matched
    ensures HitsLast(Progress(p.conditions + [c], IsHit(c)))
  {
    var cs := p.conditions + [c];
    forall j | 0 <= j < |cs| - 1
      ensures !IsHit(cs[j])
    {
      assert cs[j] == p.conditions[j];
    }
  }

  /** Each check adds a condition only while nothing matched, and a success only when it matches. */
  lemma StageHits(h: Host, rule: Rule, target: string, p: Progress)
    requires HitsLast(p)
    ensures HitsLast(ExtStage(h, rule, target, p))
    ensures HitsLast(RegexStage(h, rule, target, p))
    ensures HitsLast(MimeStage(h, rule, target, p))
  {
    if !p.matched {
      AppendKeeps(p, ExtOk(TargetExt(h, target)));
      AppendKeeps(p, ExtMiss(rule.extensions));
      AppendKeeps(p, RegexOk);
      AppendKeeps(p, RegexMiss(rule.regex));
      AppendKeeps(p, MimeOk);
      AppendKeeps(p, MimeMiss(rule.mime));
    }
  }

  /** The OS and scheme checks start the conditions off ending at the first success. */
  lemma OpenHitsLast(h: Host, rule: Rule, target: string)
    ensures Open(h, rule, target).Start? ==> HitsLast(Open(h, rule, target).progress)
    ensures Open(h, rule, target).Skipped? ==> HitsLast(Progress(Open(h, rule, target).conditions, false))
  {
    if OsAllows(h.goos, rule.os) {
      var osPart: seq<Condition> := if |rule.os| > 0 then [OsOk(h.goos)] else [];
      assert HitsLast(Progress(osPart, false));
      if rule.scheme != "" {
        if SchemeHit(h, rule, target) {
          AppendKeeps(Progress(osPart, false), SchemeOk(rule.scheme));
        } else {
          AppendKeeps(Progress(osPart, false), SchemeMismatch(rule.scheme));
        }
      }
    }
  }

  /**
   * The checks stop at the first success: a row matched exactly when its last
   * condition is a success, and no earlier condition is one.
   */
  lemma FirstSuccessEnds(h: Host, rule: Rule, i: nat, target: string)
    ensures var row := ExplainRow(h, rule, i, target);
      && (row.matched <==> |row.conditions| > 0 && IsHit(row.conditions[|row.conditions| - 1]))
      && (forall j :: 0 <= j < |row.conditions| - 1 ==> !IsHit(row.conditions[j]))
  {
    OpenHitsLast(h, rule, target);
    var row := ExplainRow(h, rule, i, target);
    match Open(h, rule, target)
    case Skipped(conditions) =>
      assert HitsLast(Progress(row.conditions, row.matched));
    case Start(start) =>
      StageHits(h, rule, target, start);
      var e := ExtStage(h, rule, target, start);
      StageHits(h, rule, target, e);
      var r := RegexStage(h, rule, target, e);
      StageHits(h, rule, target, r);
      var m := MimeStage(h, rule, target, r);
      assert row.conditions == m.conditions && row.matched == m.matched;
      assert HitsLast(Progress(row.conditions, row.matched));
  }

  /** A pattern that does not compile never matches, and is listed as a miss rather than an error. */
  lemma RegexErrorIsMiss(h: Host, rule: Rule, i: nat, target: string)
    requires rule.regex != "" && !h.compiles(rule.regex)
    ensures RegexOk !in ExplainRow(h, rule, i, target).conditions
  {
  }

  /** MIME is only ever a success for an existing file that is not a URL. */
  lemma MimeOnlyForFiles(h: Host, rule: Rule, i: nat, target: string)
    requires IsUrl(h, target) || !h.fileExists(target)
    ensures MimeOk !in ExplainRow(h, rule, i, target).conditions
  {
  }

  /**
   * Where the matcher does not fail and the target is a URL or an existing
   * file, a rule's row matched exactly when `Match` accepts it.
   */
  lemma RowAgreesWithMatcher(h: Host, rule: Rule, i: nat, target: string)
    requires RuleHit(h, rule, target).Ok? && (IsUrl(h, target) || h.fileExists(target))
    ensures ExplainRow(h, rule, i, target).matched == RuleHit(h, rule, target).value
  {
  }

  /** The positions of the matched rows, row `k` standing for rule `i + k`. */
  function MatchedPositions(rows: seq<Row>, i: nat): seq<nat> {
    if rows == [] then [] else (if rows[0].matched then [i] else []) + MatchedPositions(rows[1..], i + 1)
  }

  /** Rows and verdicts that agree rule by rule cut and filter to the same positions. */
  lemma {:induction false} CutAgrees(rows: seq<Row>, vs: seq<Result<bool, Error>>, rules: seq<Rule>, i: nat)
    requires |rows| == |rules| && |vs| == |rules| && i <= |rules|
    requires forall k :: 0 <= k < |rules| ==> vs[k].Ok? && vs[k].value == rows[k].matched
    ensures FirstPolicy(vs, rules, i).Ok?
    ensures MatchedPositions(Cut(rows, rules, i), i) == FirstPolicy(vs, rules, i).value
    decreases |rules| - i
  {
    if i < |rules| {
      CutAgrees(rows, vs, rules, i + 1);
      var rest := Cut(rows, rules, i + 1);
      if rows[i].matched && !rules[i].fallthrough {
        assert MatchedPositions([rows[i]], i) == [i] + MatchedPositions([], i + 1);
      } else {
        assert ([rows[i]] + rest)[1..] == rest;
      }
    }
  }

  /**
   * Where no rule makes the matcher fail and the target is a URL or an existing
   * file, explain mode marks exactly the rules `Match` returns.
   */
  lemma ExplainAgreesWithMatch(h: Host, rules: seq<Rule>, target: string)
    requires forall k :: 0 <= k < |rules| ==> RuleHit(h, rules[k], target).Ok?
    requires IsUrl(h, target) || h.fileExists(target)
    ensures MatchFrom(h, rules, target, 0).Ok?
    ensures MatchedPositions(RowsFrom(h, rules, target, 0), 0) == MatchFrom(h, rules, target, 0).value
  {
    var rows := AllRows(h, rules, target);
    var vs := Verdicts(h, rules, target);
    forall k | 0 <= k < |rules|
      ensures vs[k].Ok? && vs[k].value == rows[k].matched
    {
      RowAgreesWithMatcher(h, rules[k], k, target);
    }
    CutAgrees(rows, vs, rules, 0);
  }

  /** With no matching rule the result names the default command if there is one, else the system default. */
  lemma NoMatchOutcome(h: Host, cfg: Config, target: string)
    requires forall k :: 0 <= k < |cfg.rules| ==> !ExplainRow(h, cfg.rules[k], k, target).matched
    ensures ExplainReport(h, cfg, target).outcome ==
      (if cfg.defaultCommand != "" then RunDefault(cfg.defaultCommand) else SystemDefault)
  {
    RowsNumbered(h, cfg.rules, target);
  }
}
