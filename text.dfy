/**
 * String helpers shared by the validator, the sanitizer, the response selector
 * and the send step: ASCII case folding, case-insensitive prefix tests and
 * searches, exact substring tests, and JavaScript's `String.prototype.trim`.
 *
 * A JavaScript string is a sequence of UTF-16 code units; here a string is a
 * `seq<char>` and each `char` is one Unicode code point. The two agree on the
 * characters of the Basic Multilingual Plane; a character outside it is one
 * `char` here and two code units in JavaScript.
 */
module Text {
  import opened Wrappers

  /** ASCII lower-casing. A regular expression with the `i` flag and without
      the `u` flag never maps a non-ASCII character onto an ASCII one, so for a
      pattern made only of ASCII characters, as every pattern of the page is,
      a character matches a pattern letter exactly when it lower-cases to it
      here. (Such an expression still folds non-ASCII letters among
      themselves, `é` with `É`; no pattern here contains one.) */
  function LowerChar(c: char): char {
    if 'A' <= c <= 'Z' then (c as int + 32) as char else c
  }

  /** A character that is not an ASCII letter folds together only with
      itself. */
  lemma FoldsOnlyWithItself(c: char, d: char)
    requires !('A' <= c <= 'Z') && !('a' <= c <= 'z')
    ensures LowerChar(d) == LowerChar(c) <==> d == c
  {
  }

  function LowerCase(s: string): string {
    seq(|s|, k requires 0 <= k < |s| => LowerChar(s[k]))
  }

  lemma LowerCaseConcat(a: string, b: string)
    ensures LowerCase(a + b) == LowerCase(a) + LowerCase(b)
  {
    assert forall k :: 0 <= k < |a + b| ==> LowerCase(a + b)[k] == (LowerCase(a) + LowerCase(b))[k];
  }

  /** `t` begins with `pat`, comparing characters up to ASCII case. */
  predicate StartsWithCI(t: string, pat: string) {
    |pat| <= |t| && forall k :: 0 <= k < |pat| ==> LowerChar(t[k]) == LowerChar(pat[k])
  }

  /** `/pat/i.test(s)` for a pattern without metacharacters: `pat` occurs
      somewhere in `s`, up to ASCII case. */
  predicate ContainsCI(s: string, pat: string) {
    exists i :: 0 <= i <= |s| && StartsWithCI(s[i..], pat)
  }

  /** The first position at which `pat` occurs in `t`, up to ASCII case. */
  function FindCI(t: string, pat: string): (r: Option<nat>)
    decreases |t|
    ensures r.Some? ==> r.value + |pat| <= |t| && StartsWithCI(t[r.value..], pat)
  {
    if |t| < |pat| then None
    else if StartsWithCI(t, pat) then Some(0)
    else
      match FindCI(t[1..], pat)
      case Some(j) =>
        assert t[1..][j..] == t[j + 1..];
        Some(j + 1)
      case None => None
  }

  /** What `FindCI` returns is the first match: none starts before it. */
  lemma {:induction false} FindCIIsFirst(t: string, pat: string)
    decreases |t|
    ensures FindCI(t, pat).Some? ==> forall j :: 0 <= j < FindCI(t, pat).value ==> !StartsWithCI(t[j..], pat)
  {
    if |t| >= |pat| && !StartsWithCI(t, pat) {
      FindCIIsFirst(t[1..], pat);
      assert forall i :: 1 <= i <= |t| ==> t[1..][i - 1..] == t[i..];
      assert t[0..] == t;
    }
  }

  /** `FindCI` finds nothing exactly when the pattern occurs nowhere. */
  lemma {:induction false} FindCINoneIffAbsent(t: string, pat: string)
    decreases |t|
    ensures FindCI(t, pat).None? <==> !ContainsCI(t, pat)
  {
    if |t| < |pat| {
    } else if StartsWithCI(t, pat) {
      assert t[0..] == t;
    } else {
      FindCINoneIffAbsent(t[1..], pat);
      assert forall i :: 1 <= i <= |t| ==> t[1..][i - 1..] == t[i..];
      assert t[0..] == t;
    }
  }

  /** A match at `j` with no match before it is what `FindCI` returns. */
  lemma FindCIAt(t: string, pat: string, j: nat)
    requires j <= |t| && StartsWithCI(t[j..], pat)
    requires forall i :: 0 <= i < j ==> !StartsWithCI(t[i..], pat)
    ensures FindCI(t, pat).Some? && FindCI(t, pat).value == j
  {
    FindCINoneIffAbsent(t, pat);
    FindCIIsFirst(t, pat);
    assert ContainsCI(t, pat);
  }

  /** An exact prefix is in particular a prefix up to case. */
  lemma PrefixStartsWithCI(t: string, pat: string)
    requires pat <= t
    ensures StartsWithCI(t, pat)
  {
  }

  /** The first index of the character `c` in `t`. */
  function IndexOf(t: string, c: char): (r: Option<nat>)
    decreases |t|
    ensures r.Some? ==> r.value < |t| && t[r.value] == c
    ensures r.Some? ==> forall j :: 0 <= j < r.value ==> t[j] != c
    ensures r.None? ==> forall j :: 0 <= j < |t| ==> t[j] != c
  {
    if t == [] then None
    else if t[0] == c then Some(0)
    else
      match IndexOf(t[1..], c)
      case Some(j) => Some(j + 1)
      case None => None
  }

  /** `String.prototype.includes`: `sub` occurs in `s` exactly. */
  predicate Includes(s: string, sub: string) {
    exists i :: 0 <= i <= |s| && sub <= s[i..]
  }

  lemma IncludesMiddle(a: string, sub: string, b: string)
    ensures Includes(a + sub + b, sub)
  {
    var s := a + sub + b;
    assert sub <= s[|a|..];
  }

  /** What `String.prototype.trim` removes: the WhiteSpace and LineTerminator
      characters of ECMAScript, the space separators (category Zs) included. */
  predicate IsJsWhitespace(c: char) {
    c == '\t' || c == '\n' || c == '\U{B}' || c == '\U{C}' || c == '\r' || c == ' '
    || c == '\U{A0}' || c == '\U{1680}' || ('\U{2000}' <= c <= '\U{200A}')
    || c == '\U{2028}' || c == '\U{2029}' || c == '\U{202F}' || c == '\U{205F}'
    || c == '\U{3000}' || c == '\U{FEFF}'
  }

  /** The number of whitespace characters `s` begins with. */
  function LeadingWs(s: string): (n: nat)
    decreases |s|
    ensures n <= |s|
    ensures forall k :: 0 <= k < n ==> IsJsWhitespace(s[k])
    ensures n < |s| ==> !IsJsWhitespace(s[n])
  {
    if s == [] || !IsJsWhitespace(s[0]) then 0 else 1 + LeadingWs(s[1..])
  }

  /** The number of whitespace characters `s` ends with. */
  function TrailingWs(s: string): (n: nat)
    decreases |s|
    ensures n <= |s|
    ensures forall k :: |s| - n <= k < |s| ==> IsJsWhitespace(s[k])
    ensures n < |s| ==> !IsJsWhitespace(s[|s| - 1 - n])
  {
    if s == [] || !IsJsWhitespace(s[|s| - 1]) then 0 else 1 + TrailingWs(s[..|s| - 1])
  }

  function TrimStart(s: string): string {
    s[LeadingWs(s)..]
  }

  function TrimEnd(s: string): string {
    s[..|s| - TrailingWs(s)]
  }

  /** `String.prototype.trim`. */
  function Trim(s: string): string {
    TrimEnd(TrimStart(s))
  }

  /** The trailing whitespace of a suffix `s[a..]`, counted in `s`. */
  lemma TrailingOfSuffix(s: string, a: nat)
    requires a <= |s|
    ensures var b := |s| - TrailingWs(s[a..]);
      && a <= b
      && (forall k :: b <= k < |s| ==> IsJsWhitespace(s[k]))
      && (a < b ==> !IsJsWhitespace(s[b - 1]))
  {
    var t := s[a..];
    var b := |s| - TrailingWs(t);
    forall k | b <= k < |s| ensures IsJsWhitespace(s[k]) {
      assert s[k] == t[k - a];
    }
    if a < b {
      assert s[b - 1] == t[|t| - 1 - TrailingWs(t)];
    }
  }

  /** `Trim(s)` is the slice `s[a..b]` whose outside is all whitespace and
      whose first and last characters are not. */
  lemma TrimBounds(s: string) returns (a: nat, b: nat)
    ensures a <= b <= |s| && Trim(s) == s[a..b]
    ensures forall k :: 0 <= k < a ==> IsJsWhitespace(s[k])
    ensures forall k :: b <= k < |s| ==> IsJsWhitespace(s[k])
    ensures a < b ==> !IsJsWhitespace(s[a]) && !IsJsWhitespace(s[b - 1])
  {
    a := LeadingWs(s);
    TrailingOfSuffix(s, a);
    b := |s| - TrailingWs(s[a..]);
    assert Trim(s) == s[a..][..b - a];
    assert s[a..][..b - a] == s[a..b];
  }

  /** The result of `trim` neither begins nor ends with whitespace. */
  lemma TrimmedHasNoOuterWhitespace(s: string)
    ensures var r := Trim(s); r != [] ==> !IsJsWhitespace(r[0]) && !IsJsWhitespace(r[|r| - 1])
  {
    var a, b := TrimBounds(s);
  }

  /** `trim` only removes whitespace: a string without outer whitespace is
      returned unchanged. */
  lemma TrimKeepsTrimmed(s: string)
    requires s != [] ==> !IsJsWhitespace(s[0]) && !IsJsWhitespace(s[|s| - 1])
    ensures Trim(s) == s
  {
    var a, b := TrimBounds(s);
    if s != [] {
      assert a == 0;
      assert b == |s|;
    }
  }
}
