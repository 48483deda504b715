/**
 * String helpers with the meaning of the Go standard library functions the
 * source calls: strings.HasPrefix/HasSuffix/TrimPrefix/TrimSuffix/Join/ToLower/
 * TrimSpace and path/filepath.Ext/Base/Dir on '/'-separated paths.
 */
module Text {

  predicate HasPrefix(s: string, p: string) {
    |p| <= |s| && s[..|p|] == p
  }

  predicate HasSuffix(s: string, p: string) {
    |p| <= |s| && s[|s| - |p|..] == p
  }

  function TrimPrefix(s: string, p: string): (r: string)
    ensures HasPrefix(s, p) ==> p + r == s
    ensures !HasPrefix(s, p) ==> r == s
  {
    if HasPrefix(s, p) then s[|p|..] else s
  }

  function TrimSuffix(s: string, p: string): (r: string)
    ensures HasSuffix(s, p) ==> r + p == s
    ensures !HasSuffix(s, p) ==> r == s
  {
    if HasSuffix(s, p) then s[..|s| - |p|] else s
  }

  /** ASCII case folding (strings.ToLower restricted to ASCII letters). */
  function LowerChar(c: char): (r: char)
    ensures 'A' <= c <= 'Z' ==> 'a' <= r <= 'z'
    ensures !('A' <= c <= 'Z') ==> r == c
  {
    if 'A' <= c <= 'Z' then (c as int - 'A' as int + 'a' as int) as char else c
  }

  function ToLower(s: string): (r: string)
    ensures |r| == |s|
    ensures forall i :: 0 <= i < |s| ==> r[i] == LowerChar(s[i])
  {
    if s == [] then [] else [LowerChar(s[0])] + ToLower(s[1..])
  }

  /** strings.Join: the elements separated by `sep`, nothing around them. */
  function Join(xs: seq<string>, sep: string): (r: string)
  {
    if |xs| == 0 then ""
    else if |xs| == 1 then xs[0]
    else xs[0] + sep + Join(xs[1..], sep)
  }

  lemma {:induction false} JoinLength(xs: seq<string>, sep: string)
    requires |xs| > 0
    ensures |Join(xs, sep)| == SumLengths(xs) + (|xs| - 1) * |sep|
  {
    if |xs| > 1 {
      JoinLength(xs[1..], sep);
    }
  }

  function SumLengths(xs: seq<string>): nat {
    if xs == [] then 0 else |xs[0]| + SumLengths(xs[1..])
  }

  /** The whitespace that strings.TrimSpace removes (unicode.IsSpace). */
  predicate IsUnicodeSpace(c: char) {
    c == ' ' || c == '\t' || c == '\n' || c == '\U{000B}' || c == '\U{000C}' || c == '\r'
    || c == '\U{0085}' || c == '\U{00A0}' || c == '\U{1680}'
    || ('\U{2000}' <= c <= '\U{200A}')
    || c == '\U{2028}' || c == '\U{2029}' || c == '\U{202F}' || c == '\U{205F}' || c == '\U{3000}'
  }

  /** Drop leading characters satisfying `ws`. */
  function TrimLeftBy(s: string, ws: char -> bool): (r: string)
    ensures HasSuffix(s, r)
    ensures r == [] || !ws(r[0])
    ensures forall i :: 0 <= i < |s| - |r| ==> ws(s[i])
  {
    if s != [] && ws(s[0]) then
      var r := TrimLeftBy(s[1..], ws);
      assert s[1..][|s| - 1 - |r|..] == s[|s| - |r|..];
      assert forall i :: 1 <= i < |s| - |r| ==> s[i] == s[1..][i - 1];
      r
    else s
  }

  /** Drop trailing characters satisfying `ws`. */
  function TrimRightBy(s: string, ws: char -> bool): (r: string)
    ensures HasPrefix(s, r)
    ensures r == [] || !ws(r[|r| - 1])
    ensures forall i :: |r| <= i < |s| ==> ws(s[i])
  {
    if s != [] && ws(s[|s| - 1]) then TrimRightBy(s[..|s| - 1], ws) else s
  }

  /** strings.TrimSpace. */
  function GoTrimSpace(s: string): string {
    TrimRightBy(TrimLeftBy(s, IsUnicodeSpace), IsUnicodeSpace)
  }

  /**
   * filepath.Ext: the suffix of `p` that starts at the last '.' of its final
   * element, or "" when that element has no dot.
   */
  function PathExt(p: string): (r: string)
    ensures HasSuffix(p, r)
    ensures r != "" ==> r[0] == '.' && '/' !in r && '.' !in r[1..]
  {
    if |p| == 0 || p[|p| - 1] == '/' then ""
    else if p[|p| - 1] == '.' then p[|p| - 1..]
    else
      var e := PathExt(p[..|p| - 1]);
      if e == "" then "" else e + [p[|p| - 1]]
  }

  /** p with every trailing '/' removed. */
  function StripTrailingSlashes(p: string): (r: string)
    ensures HasPrefix(p, r)
    ensures r == "" || r[|r| - 1] != '/'
    ensures forall i :: |r| <= i < |p| ==> p[i] == '/'
  {
    TrimRightBy(p, c => c == '/')
  }

  /** The part of `p` after its last '/' (all of `p` when it has none). */
  function AfterLastSlash(p: string): (r: string)
    ensures HasSuffix(p, r)
    ensures '/' !in r
    ensures |r| < |p| ==> p[|p| - |r| - 1] == '/'
  {
    if |p| == 0 || p[|p| - 1] == '/' then ""
    else AfterLastSlash(p[..|p| - 1]) + [p[|p| - 1]]
  }

  /** filepath.Base. */
  function PathBase(p: string): (r: string)
    ensures r != ""
    ensures p == "" ==> r == "."
    ensures p != "" && StripTrailingSlashes(p) == "" ==> r == "/"
    ensures StripTrailingSlashes(p) != "" ==>
      && '/' !in r
      && HasSuffix(StripTrailingSlashes(p), r)
      && (|r| < |StripTrailingSlashes(p)| ==> StripTrailingSlashes(p)[|StripTrailingSlashes(p)| - |r| - 1] == '/')
  {
    if p == "" then "."
    else
      var q := StripTrailingSlashes(p);
      if q == "" then "/" else AfterLastSlash(q)
  }

  /**
   * filepath.Dir for a path whose elements are already clean (as filepath.Abs
   * returns them): everything before the last '/', "/" for the root, "." when
   * there is no '/'.
   */
  function PathDir(p: string): (r: string)
    ensures r != ""
    ensures '/' !in p ==> r == "."
    ensures '/' in p ==> r == "/" || (HasPrefix(p, r) && r[|r| - 1] != '/')
  {
    var last := AfterLastSlash(p);
    if |last| == |p| then "."
    else
      var d := StripTrailingSlashes(p[..|p| - |last|]);
      if d == "" then "/" else d
  }

  /** The part after the last '/' of `d + "/" + b` is `b` when `b` holds no '/'. */
  lemma LastElement(d: string, b: string)
    requires '/' !in b
    ensures AfterLastSlash(d + "/" + b) == b
  {
    var p := d + "/" + b;
    var r := AfterLastSlash(p);
    assert p[|p| - |b| - 1] == '/';
    assert r == p[|p| - |r|..] == b;
  }

  /**
   * A clean path splits at its last '/' into its directory and its base:
   * `PathDir` and `PathBase` give back the two parts, so joining them with '/'
   * rebuilds the path. `d` is "" for a file directly under the root.
   */
  lemma DirAndBase(d: string, b: string)
    requires b != "" && '/' !in b
    requires d == "" || d[|d| - 1] != '/'
    ensures PathBase(d + "/" + b) == b
    ensures PathDir(d + "/" + b) == (if d == "" then "/" else d)
    ensures d != "" ==> PathDir(d + "/" + b) + "/" + PathBase(d + "/" + b) == d + "/" + b
  {
    var p := d + "/" + b;
    LastElement(d, b);
    assert p[|p| - 1] == b[|b| - 1] != '/';
    assert StripTrailingSlashes(p) == p;
    assert p[..|p| - |b|] == d + "/";
    StripOneSlash(d);
  }

  lemma StripOneSlash(d: string)
    requires d == "" || d[|d| - 1] != '/'
    ensures StripTrailingSlashes(d + "/") == d
  {
    var r := StripTrailingSlashes(d + "/");
    assert r == (d + "/")[..|r|] == d;
  }

  /** The extension is always a suffix of the base name (so Name + Ext == Base). */
  lemma ExtIsSuffixOfBase(p: string)
    ensures HasSuffix(PathBase(p), PathExt(p))
  {
    if p != "" && p[|p| - 1] != '/' {
      assert StripTrailingSlashes(p) == p;
      ExtWithinLastElement(p);
    }
  }

  lemma {:induction false} ExtWithinLastElement(p: string)
    ensures HasSuffix(AfterLastSlash(p), PathExt(p))
  {
    if |p| > 0 && p[|p| - 1] != '/' && p[|p| - 1] != '.' {
      var q, c := p[..|p| - 1], p[|p| - 1];
      ExtWithinLastElement(q);
      assert AfterLastSlash(p) == AfterLastSlash(q) + [c];
      if PathExt(q) != "" {
        SuffixExtend(AfterLastSlash(q), PathExt(q), c);
      }
    }
  }

  lemma SuffixExtend(a: string, e: string, c: char)
    requires HasSuffix(a, e)
    ensures HasSuffix(a + [c], e + [c])
  {
    assert (a + [c])[|a| - |e|..] == a[|a| - |e|..] + [c];
  }
}
