/**
 * The rule matcher: an OS precondition, a scheme gate, then extension, regex
 * and MIME tried in that order, evaluated over the ordered rule list under two
 * policies. `Match` stops after the first matched rule that does not fall
 * through; `MatchAll` collects every individually matching rule (and, unlike
 * `Match`, keeps testing a rule whose scheme does not match). Both return
 * positions in the given rule sequence, which they never change.
 */
module Matcher {
  import opened Wrappers
  import opened Text
  import opened Domain

  /** The OS precondition: no OS list, or one entry whose lower case is the current OS. */
  predicate OsAllows(goos: string, os: seq<string>) {
    |os| == 0 || exists k :: 0 <= k < |os| && ToLower(os[k]) == goos
  }

  /** The target is a URL whose scheme equals the rule's, ignoring case. */
  predicate SchemeHit(h: Host, r: Rule, target: string) {
    IsUrl(h, target) && ToLower(h.parseUrl(target).value.scheme) == ToLower(r.scheme)
  }

  /** The lower-cased, dot-less extension of the URL path, or of the raw target. */
  function TargetExt(h: Host, target: string): string {
    var path := if IsUrl(h, target) then h.parseUrl(target).value.path else target;
    ToLower(TrimPrefix(PathExt(path), "."))
  }

  predicate ExtHit(h: Host, r: Rule, target: string) {
    exists k :: 0 <= k < |r.extensions| && ToLower(r.extensions[k]) == TargetExt(h, target)
  }

  /** MIME is only tried for non-URLs; detection failures and bad patterns are misses. */
  predicate MimeHit(h: Host, r: Rule, target: string) {
    && r.mime != ""
    && !IsUrl(h, target)
    && h.detectMime(target).Some?
    && h.compiles(r.mime)
    && h.matches(r.mime, h.detectMime(target).value)
  }

  /** Extension, then regex, then MIME, stopping at the first success. */
  function ContentHit(h: Host, r: Rule, target: string): Result<bool, Error> {
    if ExtHit(h, r, target) then Ok(true)
    else if r.regex != "" && !h.compiles(r.regex) then Err(PatternError(r.regex))
    else if r.regex != "" && h.matches(r.regex, target) then Ok(true)
    else Ok(MimeHit(h, r, target))
  }

  /** The per-rule predicate of `Match`: a scheme, when present, decides alone. */
  function RuleHit(h: Host, r: Rule, target: string): (v: Result<bool, Error>)
    ensures !OsAllows(h.goos, r.os) ==> v == Ok(false)
    ensures OsAllows(h.goos, r.os) && r.scheme != "" ==> v == Ok(SchemeHit(h, r, target))
    ensures v.Err? <==> OsAllows(h.goos, r.os) && r.scheme == "" && !ExtHit(h, r, target) && r.regex != "" && !h.compiles(r.regex)
    ensures v.Err? ==> v.error == PatternError(r.regex)
    ensures v == Ok(true) && r.scheme == "" ==> ExtHit(h, r, target) || (r.regex != "" && h.matches(r.regex, target)) || MimeHit(h, r, target)
    ensures OsAllows(h.goos, r.os) && r.scheme == "" && ExtHit(h, r, target) ==> v == Ok(true)
  {
    if !OsAllows(h.goos, r.os) then Ok(false)
    else if r.scheme != "" then Ok(SchemeHit(h, r, target))
    else ContentHit(h, r, target)
  }

  /** The per-rule predicate of `MatchAll`: a scheme mismatch falls back to the content tests. */
  function RuleHitAll(h: Host, r: Rule, target: string): Result<bool, Error> {
    if !OsAllows(h.goos, r.os) then Ok(false)
    else if r.scheme != "" && SchemeHit(h, r, target) then Ok(true)
    else ContentHit(h, r, target)
  }

  /** The verdict of `Match`'s per-rule predicate for every rule. */
  function Verdicts(h: Host, rules: seq<Rule>, target: string): (vs: seq<Result<bool, Error>>)
    ensures |vs| == |rules|
    ensures forall k :: 0 <= k < |rules| ==> vs[k] == RuleHit(h, rules[k], target)
  {
    seq(|rules|, k requires 0 <= k < |rules| => RuleHit(h, rules[k], target))
  }

  /** The verdict of `MatchAll`'s per-rule predicate for every rule. */
  function VerdictsAll(h: Host, rules: seq<Rule>, target: string): (vs: seq<Result<bool, Error>>)
    ensures |vs| == |rules|
    ensures forall k :: 0 <= k < |rules| ==> vs[k] == RuleHitAll(h, rules[k], target)
  {
    seq(|rules|, k requires 0 <= k < |rules| => RuleHitAll(h, rules[k], target))
  }

  function Prepend(i: nat, r: Result<seq<nat>, Error>): Result<seq<nat>, Error> {
    match r
    case Ok(ks) => Ok([i] + ks)
    case Err(e) => Err(e)
  }

  function Glue(done: seq<nat>, r: Result<seq<nat>, Error>): Result<seq<nat>, Error> {
    match r
    case Ok(ks) => Ok(done + ks)
    case Err(e) => Err(e)
  }

  lemma GlueNil(r: Result<seq<nat>, Error>)
    ensures Glue([], r) == r
  {
    if r.Ok? { assert [] + r.value == r.value; }
  }

  lemma GlueStep(done: seq<nat>, i: nat, r: Result<seq<nat>, Error>)
    ensures Glue(done + [i], r) == Glue(done, Prepend(i, r))
  {
    if r.Ok? { assert done + [i] + r.value == done + ([i] + r.value); }
  }

  lemma GlueDone(done: seq<nat>)
    ensures Glue(done, Ok([])) == Ok(done)
  {
    assert done + [] == done;
  }

  /**
   * The first-match policy over per-rule verdicts from position `i`: the first
   * error ends it, and so does a matched rule that does not fall through.
   */
  function FirstPolicy(vs: seq<Result<bool, Error>>, rules: seq<Rule>, i: nat): Result<seq<nat>, Error>
    requires |vs| == |rules| && i <= |rules|
    decreases |rules| - i
  {
    if i == |rules| then Ok([])
    else
      match vs[i]
      case Err(e) => Err(e)
      case Ok(hit) =>
        if !hit then FirstPolicy(vs, rules, i + 1)
        else if !rules[i].fallthrough then Ok([i])
        else Prepend(i, FirstPolicy(vs, rules, i + 1))
  }

  /** The collect-all policy over per-rule verdicts from position `i`: the first error ends it. */
  function AllPolicy(vs: seq<Result<bool, Error>>, i: nat): Result<seq<nat>, Error>
    requires i <= |vs|
    decreases |vs| - i
  {
    if i == |vs| then Ok([])
    else
      match vs[i]
      case Err(e) => Err(e)
      case Ok(hit) => if hit then Prepend(i, AllPolicy(vs, i + 1)) else AllPolicy(vs, i + 1)
  }

  /** What `Match` returns when evaluation starts at rule `i`. */
  function MatchFrom(h: Host, rules: seq<Rule>, target: string, i: nat): Result<seq<nat>, Error>
    requires i <= |rules|
  {
    FirstPolicy(Verdicts(h, rules, target), rules, i)
  }

  /** What `MatchAll` returns when evaluation starts at rule `i`. */
  function MatchAllFrom(h: Host, rules: seq<Rule>, target: string, i: nat): Result<seq<nat>, Error>
    requires i <= |rules|
  {
    AllPolicy(VerdictsAll(h, rules, target), i)
  }

  /** The loop `for _, x := range xs { if strings.ToLower(x) == want { found = true; break } }`. */
  method ContainsFolded(xs: seq<string>, want: string) returns (found: bool)
    ensures found <==> exists k :: 0 <= k < |xs| && ToLower(xs[k]) == want
  {
    found := false;
    var k := 0;
    while k < |xs|
      invariant 0 <= k <= |xs|
      invariant forall j :: 0 <= j < k ==> ToLower(xs[j]) != want
    {
      if ToLower(xs[k]) == want {
        found := true;
        break;
      }
      k := k + 1;
    }
  }

  /**
   * One iteration of `Match`'s loop: `Ok(false)` where the loop continues with
   * the next rule, `Err` where it returns the regex error.
   */
  method EvaluateRule(h: Host, rule: Rule, target: string, isUrl: bool) returns (r: Result<bool, Error>)
    requires isUrl == IsUrl(h, target)
    ensures r == RuleHit(h, rule, target)
  {
    var matched := false;

    if |rule.os| > 0 {
      var matchedOs := ContainsFolded(rule.os, h.goos);
      if !matchedOs {
        return Ok(false);
      }
    }

    if rule.scheme != "" {
      if isUrl && ToLower(h.parseUrl(target).value.scheme) == ToLower(rule.scheme) {
        matched := true;
      } else {
        return Ok(false);
      }
    }

    if !matched && |rule.extensions| > 0 {
      var path := if isUrl then h.parseUrl(target).value.path else target;
      var pathExt := ToLower(TrimPrefix(PathExt(path), "."));
      matched := ContainsFolded(rule.extensions, pathExt);
    }

    if !matched && rule.regex != "" {
      if !h.compiles(rule.regex) {
        return Err(PatternError(rule.regex));
      }
      if h.matches(rule.regex, target) {
        matched := true;
      }
    }

    if !matched && rule.mime != "" && !isUrl {
      var mtype := h.detectMime(target);
      if mtype.Some? && h.compiles(rule.mime) && h.matches(rule.mime, mtype.value) {
        matched := true;
      }
    }
    return Ok(matched);
  }

  /** internal/matcher Match: positions of the matched rules, stopping at a terminal match. */
  method Match(h: Host, rules: seq<Rule>, target: string) returns (r: Result<seq<nat>, Error>)
    ensures r == MatchFrom(h, rules, target, 0)
  {
    ghost var vs := Verdicts(h, rules, target);
    var matches: seq<nat> := [];
    var isUrl := IsUrl(h, target);
    GlueNil(FirstPolicy(vs, rules, 0));
    var i := 0;
    while i < |rules|
      invariant 0 <= i <= |rules|
      invariant FirstPolicy(vs, rules, 0) == Glue(matches, FirstPolicy(vs, rules, i))
    {
      var rule := rules[i];
      var verdict := EvaluateRule(h, rule, target, isUrl);
      if verdict.Err? {
        return Err(verdict.error);
      }
      if verdict.value {
        GlueStep(matches, i, FirstPolicy(vs, rules, i + 1));
        matches := matches + [i];
        if !rule.fallthrough {
          break;
        }
      }
      i := i + 1;
    }
    GlueDone(matches);
    return Ok(matches);
  }

  /** One iteration of `MatchAll`'s loop, which tests a rule whose scheme mismatches by content. */
  method EvaluateRuleAll(h: Host, rule: Rule, target: string, isUrl: bool) returns (r: Result<bool, Error>)
    requires isUrl == IsUrl(h, target)
    ensures r == RuleHitAll(h, rule, target)
  {
    if |rule.os| > 0 {
      var matchedOs := ContainsFolded(rule.os, h.goos);
      if !matchedOs {
        return Ok(false);
      }
    }

    if rule.scheme != "" {
      if isUrl && ToLower(h.parseUrl(target).value.scheme) == ToLower(rule.scheme) {
        return Ok(true);
      }
    }

    if |rule.extensions| > 0 {
      var path := if isUrl then h.parseUrl(target).value.path else target;
      var pathExt := ToLower(TrimPrefix(PathExt(path), "."));
      var found := ContainsFolded(rule.extensions, pathExt);
      if found {
        return Ok(true);
      }
    }

    if rule.regex != "" {
      if !h.compiles(rule.regex) {
        return Err(PatternError(rule.regex));
      }
      if h.matches(rule.regex, target) {
        return Ok(true);
      }
    }

    if rule.mime != "" && !isUrl {
      var mtype := h.detectMime(target);
      if mtype.Some? && h.compiles(rule.mime) && h.matches(rule.mime, mtype.value) {
        return Ok(true);
      }
    }
    return Ok(false);
  }

  /** internal/matcher MatchAll: positions of every individually matching rule. */
  method MatchAll(h: Host, rules: seq<Rule>, target: string) returns (r: Result<seq<nat>, Error>)
    ensures r == MatchAllFrom(h, rules, target, 0)
  {
    ghost var vs := VerdictsAll(h, rules, target);
    var matches: seq<nat> := [];
    var isUrl := IsUrl(h, target);
    GlueNil(AllPolicy(vs, 0));
    for i := 0 to |rules|
      invariant AllPolicy(vs, 0) == Glue(matches, AllPolicy(vs, i))
    {
      var verdict := EvaluateRuleAll(h, rules[i], target, isUrl);
      if verdict.Err? {
        return Err(verdict.error);
      }
      if verdict.value {
        GlueStep(matches, i, AllPolicy(vs, i + 1));
        matches := matches + [i];
      }
    }
    GlueDone(matches);
    return Ok(matches);
  }

  predicate StrictlyIncreasing(ks: seq<nat>) {
    forall a, b :: 0 <= a < b < |ks| ==> ks[a] < ks[b]
  }

  /** A verdict that lets the first-match policy go on to the next rule. */
  predicate Continues(v: Result<bool, Error>, rule: Rule) {
    v == Ok(false) || (v == Ok(true) && rule.fallthrough)
  }

  lemma {:induction false} FirstSound(vs: seq<Result<bool, Error>>, rules: seq<Rule>, i: nat)
    requires |vs| == |rules| && i <= |rules|
    ensures FirstPolicy(vs, rules, i).Ok? ==>
      var ks := FirstPolicy(vs, rules, i).value;
      && StrictlyIncreasing(ks)
      && (forall j :: 0 <= j < |ks| ==> i <= ks[j] < |rules| && vs[ks[j]] == Ok(true))
      && (forall j :: 0 <= j < |ks| - 1 ==> rules[ks[j]].fallthrough)
    decreases |rules| - i
  {
    if i < |rules| {
      FirstSound(vs, rules, i + 1);
    }
  }

  /**
   * `Match` returns an increasing subsequence of matching positions, and every
   * returned rule but the last falls through.
   */
  lemma MatchSound(h: Host, rules: seq<Rule>, target: string, i: nat)
    requires i <= |rules|
    ensures MatchFrom(h, rules, target, i).Ok? ==>
      var ks := MatchFrom(h, rules, target, i).value;
      && StrictlyIncreasing(ks)
      && (forall j :: 0 <= j < |ks| ==> i <= ks[j] < |rules| && RuleHit(h, rules[ks[j]], target) == Ok(true))
      && (forall j :: 0 <= j < |ks| - 1 ==> rules[ks[j]].fallthrough)
  {
    FirstSound(Verdicts(h, rules, target), rules, i);
  }

  lemma {:induction false} FirstComplete(vs: seq<Result<bool, Error>>, rules: seq<Rule>, i: nat)
    requires |vs| == |rules| && i <= |rules|
    ensures FirstPolicy(vs, rules, i).Ok? ==>
      var ks := FirstPolicy(vs, rules, i).value;
      forall j :: i <= j < |rules| && vs[j] == Ok(true) ==>
        j in ks || (|ks| > 0 && ks[|ks| - 1] < j && !rules[ks[|ks| - 1]].fallthrough)
    decreases |rules| - i
  {
    if i < |rules| && FirstPolicy(vs, rules, i).Ok? {
      var ks := FirstPolicy(vs, rules, i).value;
      FirstComplete(vs, rules, i + 1);
      if vs[i] == Ok(true) && rules[i].fallthrough {
        var rest := FirstPolicy(vs, rules, i + 1).value;
        assert ks == [i] + rest;
        forall j | i <= j < |rules| && vs[j] == Ok(true)
          ensures j in ks || (|ks| > 0 && ks[|ks| - 1] < j && !rules[ks[|ks| - 1]].fallthrough)
        {
          if j > i && j !in rest {
            assert ks[|ks| - 1] == rest[|rest| - 1];
          }
        }
      }
    }
  }

  /**
   * `Match` misses no matching rule before it stops: a matching rule is either
   * returned or comes after a returned rule that does not fall through.
   */
  lemma MatchComplete(h: Host, rules: seq<Rule>, target: string, i: nat)
    requires i <= |rules|
    ensures MatchFrom(h, rules, target, i).Ok? ==>
      var ks := MatchFrom(h, rules, target, i).value;
      forall j :: i <= j < |rules| && RuleHit(h, rules[j], target) == Ok(true) ==>
        j in ks || (|ks| > 0 && ks[|ks| - 1] < j && !rules[ks[|ks| - 1]].fallthrough)
  {
    FirstComplete(Verdicts(h, rules, target), rules, i);
  }

  /** Position `k` is the first at or after `i` to stop the first-match policy, and it stops it with `e`. */
  predicate ErrAt(vs: seq<Result<bool, Error>>, rules: seq<Rule>, i: nat, k: nat, e: Error)
    requires |vs| == |rules|
  {
    && i <= k < |rules|
    && vs[k] == Err(e)
    && forall j :: i <= j < k ==> Continues(vs[j], rules[j])
  }

  lemma {:induction false} FirstErrorIff(vs: seq<Result<bool, Error>>, rules: seq<Rule>, i: nat, e: Error)
    requires |vs| == |rules| && i <= |rules|
    ensures FirstPolicy(vs, rules, i) == Err(e) <==> exists k :: ErrAt(vs, rules, i, k, e)
    decreases |rules| - i
  {
    if i < |rules| {
      var next := i + 1;
      FirstErrorIff(vs, rules, next, e);
      if vs[i] == Err(e) {
        assert ErrAt(vs, rules, i, i, e);
      } else if Continues(vs[i], rules[i]) {
        if exists k :: ErrAt(vs, rules, i, k, e) {
          var k: nat :| ErrAt(vs, rules, i, k, e);
          assert ErrAt(vs, rules, next, k, e);
        }
        if exists k :: ErrAt(vs, rules, next, k, e) {
          var k: nat :| ErrAt(vs, rules, next, k, e);
          assert ErrAt(vs, rules, i, k, e);
        }
      }
    }
  }

  /**
   * `Match` fails with `e` exactly when it reaches a rule whose evaluation
   * fails with `e`, every earlier rule having let evaluation continue.
   */
  lemma MatchErrorIff(h: Host, rules: seq<Rule>, target: string, e: Error)
    ensures MatchFrom(h, rules, target, 0) == Err(e) <==>
      exists k :: 0 <= k < |rules| && RuleHit(h, rules[k], target) == Err(e)
        && forall j :: 0 <= j < k ==> Continues(RuleHit(h, rules[j], target), rules[j])
  {
    ghost var vs := Verdicts(h, rules, target);
    FirstErrorIff(vs, rules, 0, e);
    if exists k :: ErrAt(vs, rules, 0, k, e) {
      var k: nat :| ErrAt(vs, rules, 0, k, e);
      assert forall j :: 0 <= j < k ==> Continues(RuleHit(h, rules[j], target), rules[j]) by {
        forall j | 0 <= j < k ensures Continues(RuleHit(h, rules[j], target), rules[j]) {
          assert Continues(vs[j], rules[j]);
        }
      }
    }
    if exists k :: 0 <= k < |rules| && RuleHit(h, rules[k], target) == Err(e)
        && forall j :: 0 <= j < k ==> Continues(RuleHit(h, rules[j], target), rules[j])
    {
      var k :| 0 <= k < |rules| && RuleHit(h, rules[k], target) == Err(e)
        && forall j :: 0 <= j < k ==> Continues(RuleHit(h, rules[j], target), rules[j]);
      assert ErrAt(vs, rules, 0, k, e);
    }
  }

  /** Only an invalid regex produces an error; a failed MIME detection or bad MIME pattern never does. */
  lemma OnlyRegexErrs(h: Host, r: Rule, target: string)
    ensures RuleHit(h, r, target).Err? ==>
      r.regex != "" && !h.compiles(r.regex) && RuleHit(h, r, target).error == PatternError(r.regex)
    ensures RuleHitAll(h, r, target).Err? ==>
      r.regex != "" && !h.compiles(r.regex) && RuleHitAll(h, r, target).error == PatternError(r.regex)
    ensures IsUrl(h, target) ==> !MimeHit(h, r, target)
  {
  }

  lemma {:induction false} AllExact(vs: seq<Result<bool, Error>>, i: nat)
    requires i <= |vs|
    ensures AllPolicy(vs, i).Ok? ==>
      var ks := AllPolicy(vs, i).value;
      && StrictlyIncreasing(ks)
      && (forall j :: 0 <= j < |ks| ==> i <= ks[j] < |vs|)
      && (forall k :: i <= k < |vs| ==> (k in ks <==> vs[k] == Ok(true)))
    decreases |vs| - i
  {
    if i < |vs| {
      AllExact(vs, i + 1);
    }
  }

  /** `MatchAll` returns exactly the individually matching positions, in order. */
  lemma MatchAllExact(h: Host, rules: seq<Rule>, target: string, i: nat)
    requires i <= |rules|
    ensures MatchAllFrom(h, rules, target, i).Ok? ==>
      var ks := MatchAllFrom(h, rules, target, i).value;
      && StrictlyIncreasing(ks)
      && (forall j :: 0 <= j < |ks| ==> i <= ks[j] < |rules|)
      && (forall k :: i <= k < |rules| ==> (k in ks <==> RuleHitAll(h, rules[k], target) == Ok(true)))
  {
    AllExact(VerdictsAll(h, rules, target), i);
  }

  lemma {:induction false} AllErrorIff(vs: seq<Result<bool, Error>>, i: nat)
    requires i <= |vs|
    ensures AllPolicy(vs, i).Err? <==> exists k :: i <= k < |vs| && vs[k].Err?
    decreases |vs| - i
  {
    if i < |vs| {
      AllErrorIff(vs, i + 1);
      if exists k :: i <= k < |vs| && vs[k].Err? {
        var k :| i <= k < |vs| && vs[k].Err?;
        if k > i { assert exists k' :: i + 1 <= k' < |vs| && vs[k'].Err?; }
      }
    }
  }

  /** `MatchAll` fails exactly when some rule's evaluation fails (an invalid regex it reaches). */
  lemma MatchAllErrorIff(h: Host, rules: seq<Rule>, target: string)
    ensures MatchAllFrom(h, rules, target, 0).Err? <==>
      exists k :: 0 <= k < |rules| && RuleHitAll(h, rules[k], target).Err?
  {
    ghost var vs := VerdictsAll(h, rules, target);
    AllErrorIff(vs, 0);
    if exists k :: 0 <= k < |vs| && vs[k].Err? {
      var k :| 0 <= k < |vs| && vs[k].Err?;
      assert RuleHitAll(h, rules[k], target).Err?;
    }
  }

  /** A rule that `Match` accepts is also accepted by `MatchAll`. */
  lemma HitImpliesHitAll(h: Host, r: Rule, target: string)
    ensures RuleHit(h, r, target) == Ok(true) ==> RuleHitAll(h, r, target) == Ok(true)
  {
  }

  /** When both succeed, every rule `Match` returns is among those `MatchAll` returns. */
  lemma MatchWithinMatchAll(h: Host, rules: seq<Rule>, target: string)
    requires MatchFrom(h, rules, target, 0).Ok? && MatchAllFrom(h, rules, target, 0).Ok?
    ensures forall k :: k in MatchFrom(h, rules, target, 0).value ==> k in MatchAllFrom(h, rules, target, 0).value
  {
    MatchSound(h, rules, target, 0);
    MatchAllExact(h, rules, target, 0);
    forall k | k in MatchFrom(h, rules, target, 0).value
      ensures k in MatchAllFrom(h, rules, target, 0).value
    {
      HitImpliesHitAll(h, rules[k], target);
    }
  }

  /** A rule whose OS list excludes the current OS is returned by neither policy. */
  lemma OsExcluded(h: Host, rules: seq<Rule>, target: string, k: nat)
    requires k < |rules| && !OsAllows(h.goos, rules[k].os)
    ensures MatchFrom(h, rules, target, 0).Ok? ==> k !in MatchFrom(h, rules, target, 0).value
    ensures MatchAllFrom(h, rules, target, 0).Ok? ==> k !in MatchAllFrom(h, rules, target, 0).value
  {
    MatchSound(h, rules, target, 0);
    MatchAllExact(h, rules, target, 0);
  }

  /** `Match` returns a rule with a scheme only for a URL of that scheme. */
  lemma SchemeGate(h: Host, rules: seq<Rule>, target: string)
    ensures MatchFrom(h, rules, target, 0).Ok? ==>
      forall k :: k in MatchFrom(h, rules, target, 0).value && k < |rules| && rules[k].scheme != "" ==>
        SchemeHit(h, rules[k], target)
  {
    MatchSound(h, rules, target, 0);
  }

  /** The policies differ on a rule whose scheme mismatches but whose extension matches. */
  lemma SchemeMismatchDiffers(h: Host, r: Rule, target: string)
    requires OsAllows(h.goos, r.os) && r.scheme != "" && !SchemeHit(h, r, target) && ExtHit(h, r, target)
    ensures RuleHit(h, r, target) == Ok(false)
    ensures RuleHitAll(h, r, target) == Ok(true)
  {
  }

  lemma {:induction false} FirstFirst(vs: seq<Result<bool, Error>>, rules: seq<Rule>, i: nat)
    requires |vs| == |rules| && i <= |rules|
    ensures FirstPolicy(vs, rules, i).Ok? && |FirstPolicy(vs, rules, i).value| > 0 ==>
      var k := FirstPolicy(vs, rules, i).value[0];
      && i <= k < |rules|
      && vs[k] == Ok(true)
      && forall j :: i <= j < k ==> vs[j] == Ok(false)
    decreases |rules| - i
  {
    if i < |rules| {
      FirstFirst(vs, rules, i + 1);
    }
  }

  /** The first position `Match` returns is the first matching rule; all before it are plain misses. */
  lemma MatchFirst(h: Host, rules: seq<Rule>, target: string)
    ensures MatchFrom(h, rules, target, 0).Ok? && |MatchFrom(h, rules, target, 0).value| > 0 ==>
      var k := MatchFrom(h, rules, target, 0).value[0];
      && k < |rules|
      && RuleHit(h, rules[k], target) == Ok(true)
      && forall j :: 0 <= j < k ==> RuleHit(h, rules[j], target) == Ok(false)
  {
    FirstFirst(Verdicts(h, rules, target), rules, 0);
  }
}
