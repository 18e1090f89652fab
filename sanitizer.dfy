/**
 * `sanitizeInput` (test/script.js:15-37): a total string function in three
 * stages, each a left-to-right scan that models one global regular-expression
 * replacement. None of the expressions looks behind the position where a match
 * starts, so whether a match starts at position i depends on s[i..] alone: each
 * scan asks "does a match start here, and how long is it?" of the remaining
 * suffix, drops the match and goes on after it, or keeps one character.
 */
module Sanitizer {
  import opened Wrappers
  import opened Text
  import opened Security

  /** U+0008. In the template literal of line 26, `\b` is this character and
      not a word boundary. */
  const Backspace: char := '\U{8}'

  /** `\w` of a regular expression without the `u` flag. */
  predicate IsWordChar(c: char) {
    'a' <= c <= 'z' || 'A' <= c <= 'Z' || '0' <= c <= '9' || c == '_'
  }

  // ---------------------------------------------------------------------
  // Stage 1 (lines 19-22): /<name\b[^<]*(?:(?!<\/name>)<[^<]*)*<\/name>/gi
  // ---------------------------------------------------------------------

  /** The length of the block `s` begins with, if any: `<name` in any case, a
      word boundary, then everything up to and including the first `</name>`
      (in any case) after it. */
  function BlockLen(s: string, name: string): (n: Option<nat>)
    ensures n.Some? ==> 0 < n.value <= |s|
  {
    if StartsWithCI(s, Opener(name)) && (|s| == |Opener(name)| || !IsWordChar(s[|Opener(name)|])) then
      var r := FindCI(s[|Opener(name)|..], Closer(name));
      if r.Some? then Some(|Opener(name)| + r.value + |Closer(name)|) else None
    else None
  }

  function Opener(name: string): string { "<" + name }

  function Closer(name: string): string { "</" + name + ">" }

  /** `<name` and a word boundary, then a closing tag `j` characters on with
      none before it: the block ends right after that closing tag. */
  lemma BlockLenAt(s: string, name: string, j: nat)
    requires StartsWithCI(s, Opener(name)) && (|s| == |Opener(name)| || !IsWordChar(s[|Opener(name)|]))
    requires |Opener(name)| + j <= |s| && StartsWithCI(s[|Opener(name)| + j..], Closer(name))
    requires forall i :: |Opener(name)| <= i < |Opener(name)| + j ==> !StartsWithCI(s[i..], Closer(name))
    ensures BlockLen(s, name).Some? && BlockLen(s, name).value == |Opener(name)| + j + |Closer(name)|
  {
    var o := |Opener(name)|;
    var t := s[o..];
    assert t[j..] == s[o + j..];
    forall i | 0 <= i < j ensures !StartsWithCI(t[i..], Closer(name)) {
      assert t[i..] == s[o + i..];
    }
    FindCIAt(t, Closer(name), j);
  }

  /** One global replacement of the blocks of one element by "". */
  function RemoveBlocks(s: string, name: string): string
    decreases |s|
  {
    if s == [] then []
    else
      if BlockLen(s, name).Some? then RemoveBlocks(s[BlockLen(s, name).value..], name)
      else [s[0]] + RemoveBlocks(s[1..], name)
  }

  /** One step of the scan: a block is dropped whole. */
  lemma RemoveBlocksDrops(s: string, name: string, n: nat)
    requires BlockLen(s, name).Some? && BlockLen(s, name).value == n
    ensures RemoveBlocks(s, name) == RemoveBlocks(s[n..], name)
  {
  }

  /** One step of the scan: a character where no block begins is kept. */
  lemma RemoveBlocksKeeps(s: string, name: string)
    requires s != [] && BlockLen(s, name).None?
    ensures RemoveBlocks(s, name) == [s[0]] + RemoveBlocks(s[1..], name)
  {
  }

  /** The first character, then the next `m - 1`, then the rest. */
  lemma ConsPrefix(s: string, m: nat, r: string)
    requires 1 <= m <= |s|
    ensures s[1..][m - 1..] == s[m..]
    ensures [s[0]] + (s[1..][..m - 1] + r) == s[..m] + r
  {
    assert s[..m] == [s[0]] + s[1..][..m - 1];
  }

  /** Characters where no block begins are kept, and the scan goes on after
      them. */
  lemma {:induction false} RemoveBlocksKeepsPrefix(s: string, name: string, m: nat)
    decreases m
    requires m <= |s| && forall k :: 0 <= k < m ==> BlockLen(s[k..], name).None?
    ensures RemoveBlocks(s, name) == s[..m] + RemoveBlocks(s[m..], name)
  {
    if m == 0 {
      assert s[..0] == [] && s[0..] == s;
    } else {
      assert s[0..] == s;
      RemoveBlocksKeeps(s, name);
      forall k | 0 <= k < m - 1 ensures BlockLen(s[1..][k..], name).None? {
        assert s[1..][k..] == s[k + 1..];
      }
      RemoveBlocksKeepsPrefix(s[1..], name, m - 1);
      ConsPrefix(s, m, RemoveBlocks(s[m..], name));
    }
  }

  /** The leftmost block, `n` characters long at `m`, is removed whole; the
      text before it is kept and the scan resumes after it. */
  lemma RemoveBlocksAt(s: string, name: string, m: nat, n: nat)
    requires m <= |s| && forall k :: 0 <= k < m ==> BlockLen(s[k..], name).None?
    requires BlockLen(s[m..], name).Some? && BlockLen(s[m..], name).value == n
    ensures m + n <= |s|
    ensures RemoveBlocks(s, name) == s[..m] + RemoveBlocks(s[m + n..], name)
  {
    RemoveBlocksKeepsPrefix(s, name, m);
    RemoveBlocksDrops(s[m..], name, n);
    assert s[m..][n..] == s[m + n..];
  }

  /** Lines 19-22: script, then iframe, then object, then embed blocks, one
      pass each. */
  function RemoveDangerousBlocks(s: string): string {
    RemoveBlocks(RemoveBlocks(RemoveBlocks(RemoveBlocks(s, "script"), "iframe"), "object"), "embed")
  }

  // ---------------------------------------------------------------------
  // Stage 2 (lines 25-26): one global, case-insensitive strip of tags, sparing
  // the allow-listed names, with the `\b` of the template literal read as U+0008
  // ---------------------------------------------------------------------

  /** `t` begins with an allow-listed name followed by U+0008, in any case. */
  predicate AllowedNameAt(u: string, tags: seq<string>) {
    exists tag :: tag in tags && StartsWithCI(u, tag + [Backspace])
  }

  /** The negative lookahead after `<` fails: an optional `/`, then an
      allow-listed name and U+0008. */
  predicate Protected(s: string, tags: seq<string>) {
    |s| >= 1 &&
    (AllowedNameAt(s[1..], tags) || (|s| >= 2 && s[1] == '/' && AllowedNameAt(s[2..], tags)))
  }

  /** The length of the tag `s` begins with, if any: `<`, not protected, one
      or more characters other than `>`, then `>`. */
  function TagLen(s: string, tags: seq<string>): (n: Option<nat>)
    ensures n.Some? ==> 2 < n.value <= |s|
  {
    if s != [] && s[0] == '<' && !Protected(s, tags) then
      match IndexOf(s[1..], '>')
      case Some(j) => if j > 0 then Some(j + 2) else None
      case None => None
    else None
  }

  /** An unprotected `<` whose first `>` is `j + 1` characters on begins a
      tag of length `j + 2`. */
  lemma TagLenAt(s: string, tags: seq<string>, j: nat)
    requires 0 < j && j + 1 < |s| && s[0] == '<' && !Protected(s, tags)
    requires s[j + 1] == '>' && forall i :: 1 <= i <= j ==> s[i] != '>'
    ensures TagLen(s, tags).Some? && TagLen(s, tags).value == j + 2
  {
    assert s[1..][j] == '>';
    assert forall i :: 0 <= i < j ==> s[1..][i] == s[i + 1];
  }

  /** One global replacement of the tags by "". */
  function StripTags(s: string, tags: seq<string>): string
    decreases |s|
  {
    if s == [] then []
    else
      if TagLen(s, tags).Some? then StripTags(s[TagLen(s, tags).value..], tags)
      else [s[0]] + StripTags(s[1..], tags)
  }

  // ---------------------------------------------------------------------
  // Stage 3 (lines 29-36): five global single-character replacements, then trim
  // ---------------------------------------------------------------------

  /** `s.replace(/c/g, rep)`. */
  function ReplaceAll(s: string, c: char, rep: string): string
    decreases |s|
  {
    if s == [] then [] else (if s[0] == c then rep else [s[0]]) + ReplaceAll(s[1..], c, rep)
  }

  /** The chain of lines 29-34, in the source's order. */
  function EscapeHtml(s: string): string {
    ReplaceAll(ReplaceAll(ReplaceAll(ReplaceAll(ReplaceAll(
      s, '&', "&amp;"), '<', "&lt;"), '>', "&gt;"), '"', "&quot;"), '\'', "&#x27;")
  }

  /** The replacement of one character, as if all five were done at once. */
  function EscapeChar(c: char): string {
    if c == '&' then "&amp;"
    else if c == '<' then "&lt;"
    else if c == '>' then "&gt;"
    else if c == '"' then "&quot;"
    else if c == '\'' then "&#x27;"
    else [c]
  }

  function EscapeEach(s: string): string
    decreases |s|
  {
    if s == [] then [] else EscapeChar(s[0]) + EscapeEach(s[1..])
  }

  /** `sanitizeInput`. */
  function Sanitize(cfg: SecurityConfig, input: string): string {
    if !cfg.sanitizeInput then input
    else Trim(EscapeHtml(StripTags(RemoveDangerousBlocks(input), cfg.allowedHtmlTags)))
  }

  // ---------------------------------------------------------------------
  // Properties
  // ---------------------------------------------------------------------

  /** None of the characters the escaping stage replaces. */
  predicate NoMarkupChar(c: char) {
    c != '<' && c != '>' && c != '"' && c != '\''
  }

  /** `t` begins with one of the five entities the escaping stage writes. */
  predicate BeginsEntity(t: string) {
    "&amp;" <= t || "&lt;" <= t || "&gt;" <= t || "&quot;" <= t || "&#x27;" <= t
  }

  /** Text a browser shows as it is: none of `< > " '`, and every `&` the
      start of one of the five entities. */
  predicate Inert(r: string) {
    && (forall k :: 0 <= k < |r| ==> NoMarkupChar(r[k]))
    && (forall k :: 0 <= k < |r| && r[k] == '&' ==> BeginsEntity(r[k..]))
  }

  /** With the switch off, the input comes back unchanged (line 16). */
  lemma DisabledIsIdentity(cfg: SecurityConfig, input: string)
    requires !cfg.sanitizeInput
    ensures Sanitize(cfg, input) == input
  {
  }

  lemma ReplaceAllConcat(a: string, b: string, c: char, rep: string)
    decreases |a|
    ensures ReplaceAll(a + b, c, rep) == ReplaceAll(a, c, rep) + ReplaceAll(b, c, rep)
  {
    if a != [] {
      var head := if a[0] == c then rep else [a[0]];
      assert (a + b)[0] == a[0];
      assert (a + b)[1..] == a[1..] + b;
      calc {
        ReplaceAll(a + b, c, rep);
        head + ReplaceAll(a[1..] + b, c, rep);
        { ReplaceAllConcat(a[1..], b, c, rep); }
        head + (ReplaceAll(a[1..], c, rep) + ReplaceAll(b, c, rep));
        (head + ReplaceAll(a[1..], c, rep)) + ReplaceAll(b, c, rep);
      }
    } else {
      assert a + b == b;
    }
  }

  lemma ReplaceAllAbsent(s: string, c: char, rep: string)
    decreases |s|
    requires c !in s
    ensures ReplaceAll(s, c, rep) == s
  {
    if s != [] {
      ReplaceAllAbsent(s[1..], c, rep);
    }
  }

  lemma EscapeHtmlConcat(a: string, b: string)
    ensures EscapeHtml(a + b) == EscapeHtml(a) + EscapeHtml(b)
  {
    var a1, b1 := ReplaceAll(a, '&', "&amp;"), ReplaceAll(b, '&', "&amp;");
    ReplaceAllConcat(a, b, '&', "&amp;");
    var a2, b2 := ReplaceAll(a1, '<', "&lt;"), ReplaceAll(b1, '<', "&lt;");
    ReplaceAllConcat(a1, b1, '<', "&lt;");
    var a3, b3 := ReplaceAll(a2, '>', "&gt;"), ReplaceAll(b2, '>', "&gt;");
    ReplaceAllConcat(a2, b2, '>', "&gt;");
    var a4, b4 := ReplaceAll(a3, '"', "&quot;"), ReplaceAll(b3, '"', "&quot;");
    ReplaceAllConcat(a3, b3, '"', "&quot;");
    ReplaceAllConcat(a4, b4, '\'', "&#x27;");
  }

  /** The five replacements applied to a string holding none of the
      characters the later ones replace. */
  lemma EscapeTail(t: string, from: nat)
    requires 1 <= from <= 5
    requires from <= 1 ==> '<' !in t
    requires from <= 2 ==> '>' !in t
    requires from <= 3 ==> '"' !in t
    requires from <= 4 ==> '\'' !in t
    ensures from == 1 ==> ReplaceAll(ReplaceAll(ReplaceAll(ReplaceAll(t, '<', "&lt;"), '>', "&gt;"), '"', "&quot;"), '\'', "&#x27;") == t
    ensures from == 2 ==> ReplaceAll(ReplaceAll(ReplaceAll(t, '>', "&gt;"), '"', "&quot;"), '\'', "&#x27;") == t
    ensures from == 3 ==> ReplaceAll(ReplaceAll(t, '"', "&quot;"), '\'', "&#x27;") == t
    ensures from == 4 ==> ReplaceAll(t, '\'', "&#x27;") == t
  {
    if from <= 1 { ReplaceAllAbsent(t, '<', "&lt;"); }
    if from <= 2 { ReplaceAllAbsent(t, '>', "&gt;"); }
    if from <= 3 { ReplaceAllAbsent(t, '"', "&quot;"); }
    if from <= 4 { ReplaceAllAbsent(t, '\'', "&#x27;"); }
  }

  lemma ReplaceOne(x: char, c: char, rep: string)
    ensures ReplaceAll([x], c, rep) == if x == c then rep else [x]
  {
    assert [x][1..] == [];
  }

  lemma EscapeHtmlChar(x: char)
    ensures EscapeHtml([x]) == EscapeChar(x)
  {
    ReplaceOne(x, '&', "&amp;");
    if x == '&' {
      EscapeTail("&amp;", 1);
    } else {
      ReplaceOne(x, '<', "&lt;");
      if x == '<' {
        EscapeTail("&lt;", 2);
      } else {
        ReplaceOne(x, '>', "&gt;");
        if x == '>' {
          EscapeTail("&gt;", 3);
        } else {
          ReplaceOne(x, '"', "&quot;");
          if x == '"' {
            EscapeTail("&quot;", 4);
          } else {
            ReplaceOne(x, '\'', "&#x27;");
          }
        }
      }
    }
  }

  /** Because `&` is replaced first, no entity written by a later replacement
      is escaped again: the chain of five replacements escapes each input
      character exactly once. */
  lemma {:induction false} EscapeHtmlIsPerCharacter(s: string)
    decreases |s|
    ensures EscapeHtml(s) == EscapeEach(s)
  {
    if s != [] {
      assert s == [s[0]] + s[1..];
      EscapeHtmlConcat([s[0]], s[1..]);
      EscapeHtmlChar(s[0]);
      EscapeHtmlIsPerCharacter(s[1..]);
    }
  }

  /** The replacement of one character contains none of `< > " '`, and an
      `&` in it can only be the first character of an entity. */
  lemma EscapeCharIsInert(x: char)
    ensures forall k :: 0 <= k < |EscapeChar(x)| ==> NoMarkupChar(EscapeChar(x)[k])
    ensures forall k :: 0 <= k < |EscapeChar(x)| && EscapeChar(x)[k] == '&' ==> k == 0 && BeginsEntity(EscapeChar(x))
  {
  }

  /** Escaped text contains none of `< > " '`, and every `&` in it begins an entity. */
  lemma {:induction false} EscapedIsInert(s: string)
    decreases |s|
    ensures forall k :: 0 <= k < |EscapeEach(s)| ==> NoMarkupChar(EscapeEach(s)[k])
    ensures forall k :: 0 <= k < |EscapeEach(s)| && EscapeEach(s)[k] == '&' ==> BeginsEntity(EscapeEach(s)[k..])
  {
    if s != [] {
      EscapedIsInert(s[1..]);
      EscapeCharIsInert(s[0]);
      var c, rest := EscapeChar(s[0]), EscapeEach(s[1..]);
      var e := c + rest;
      assert EscapeEach(s) == e;
      forall k | 0 <= k < |e|
        ensures NoMarkupChar(e[k])
        ensures e[k] == '&' ==> BeginsEntity(e[k..])
      {
        if k < |c| {
          assert e[k] == c[k];
          assert NoMarkupChar(c[k]);
          if e[k] == '&' {
            assert e[k..] == c + rest;
            PrefixOfConcat(c, rest);
          }
        } else {
          assert e[k] == rest[k - |c|];
          assert NoMarkupChar(rest[k - |c|]);
          assert e[k..] == rest[k - |c|..];
        }
      }
    }
  }

  lemma PrefixOfConcat(c: string, rest: string)
    requires BeginsEntity(c)
    ensures BeginsEntity(c + rest)
  {
    var t := c + rest;
    assert forall ent: string :: ent <= c ==> t[..|ent|] == c[..|ent|];
  }

  /** Cutting a suffix of whitespace off keeps an entity that ends before it:
      its `;` is not whitespace. */
  lemma CutKeepsEntity(e: string, a: nat, b: nat, k: nat, ent: string)
    requires a <= b <= |e| && a + k < b
    requires forall i :: b <= i < |e| ==> IsJsWhitespace(e[i])
    requires |ent| > 0 && ent[|ent| - 1] == ';' && ent <= e[a + k..]
    ensures ent <= e[a..b][k..]
  {
    assert e[a + k + |ent| - 1] == ';';
    assert a + k + |ent| <= b;
    assert e[a..b][k..][..|ent|] == e[a + k..][..|ent|];
  }

  /** An entity survives the final trim. */
  lemma EntitySurvivesTrim(e: string, a: nat, b: nat, k: nat)
    requires a <= b <= |e| && a + k < b
    requires forall i :: b <= i < |e| ==> IsJsWhitespace(e[i])
    requires BeginsEntity(e[a + k..])
    ensures BeginsEntity(e[a..b][k..])
  {
    var t := e[a + k..];
    if "&amp;" <= t { CutKeepsEntity(e, a, b, k, "&amp;"); }
    else if "&lt;" <= t { CutKeepsEntity(e, a, b, k, "&lt;"); }
    else if "&gt;" <= t { CutKeepsEntity(e, a, b, k, "&gt;"); }
    else if "&quot;" <= t { CutKeepsEntity(e, a, b, k, "&quot;"); }
    else { CutKeepsEntity(e, a, b, k, "&#x27;"); }
  }

  /** What the sanitizer returns (with the switch on) is inert text: no
      `< > " '`, every `&` the start of one of the five entities, and no
      whitespace at either end. */
  lemma SanitizedIsInert(cfg: SecurityConfig, input: string)
    requires cfg.sanitizeInput
    ensures Inert(Sanitize(cfg, input))
    ensures var r := Sanitize(cfg, input); r != [] ==> !IsJsWhitespace(r[0]) && !IsJsWhitespace(r[|r| - 1])
  {
    var stripped := StripTags(RemoveDangerousBlocks(input), cfg.allowedHtmlTags);
    EscapeHtmlIsPerCharacter(stripped);
    var e := EscapeEach(stripped);
    EscapedIsInert(stripped);
    var a, b := TrimBounds(e);
    var r := Sanitize(cfg, input);
    assert r == e[a..b];
    forall k | 0 <= k < |r| && r[k] == '&' ensures BeginsEntity(r[k..]) {
      assert e[a + k] == '&';
      EntitySurvivesTrim(e, a, b, k);
    }
    TrimmedHasNoOuterWhitespace(e);
  }

  /** `Sanitize` stage by stage: the blocks go, then the tags, then each
      character is escaped, then the result is trimmed. */
  lemma SanitizeByStages(cfg: SecurityConfig, s: string, a: string, b: string, c: string)
    requires cfg.sanitizeInput
    requires RemoveDangerousBlocks(s) == a && StripTags(a, cfg.allowedHtmlTags) == b && EscapeEach(b) == c
    ensures Sanitize(cfg, s) == Trim(c)
  {
    EscapeHtmlIsPerCharacter(b);
  }

  /** Inputs with the same block-free text sanitize alike. */
  lemma SanitizeAfterBlocks(cfg: SecurityConfig, s: string, t: string)
    requires cfg.sanitizeInput
    requires RemoveDangerousBlocks(s) == t && RemoveDangerousBlocks(t) == t
    ensures Sanitize(cfg, s) == Sanitize(cfg, t)
  {
  }

  // Stage 1 and stage 2 only delete.

  /** Block removal adds no character that was not in its input. */
  lemma {:induction false} RemoveBlocksAddsNothing(s: string, name: string, c: char)
    decreases |s|
    requires forall k :: 0 <= k < |s| ==> s[k] != c
    ensures forall k :: 0 <= k < |RemoveBlocks(s, name)| ==> RemoveBlocks(s, name)[k] != c
  {
    if s != [] {
      match BlockLen(s, name)
      case Some(n) =>
        RemoveBlocksAddsNothing(s[n..], name, c);
      case None =>
        RemoveBlocksAddsNothing(s[1..], name, c);
    }
  }

  /** Text in which no `<name` (in any case) begins passes block removal
      unchanged. */
  lemma {:induction false} RemoveBlocksKeepsUnopened(s: string, name: string)
    decreases |s|
    requires forall k :: 0 <= k < |s| ==> !StartsWithCI(s[k..], Opener(name))
    ensures RemoveBlocks(s, name) == s
  {
    if s != [] {
      assert s[0..] == s;
      assert BlockLen(s, name).None?;
      assert forall k :: 0 <= k < |s| - 1 ==> s[1..][k..] == s[k + 1..];
      RemoveBlocksKeepsUnopened(s[1..], name);
      assert s == [s[0]] + s[1..];
    }
  }

  /** Tag stripping adds no character that was not in its input. */
  lemma {:induction false} StripTagsAddsNothing(s: string, tags: seq<string>, c: char)
    decreases |s|
    requires forall k :: 0 <= k < |s| ==> s[k] != c
    ensures forall k :: 0 <= k < |StripTags(s, tags)| ==> StripTags(s, tags)[k] != c
  {
    if s != [] {
      match TagLen(s, tags)
      case Some(n) =>
        StripTagsAddsNothing(s[n..], tags, c);
      case None =>
        StripTagsAddsNothing(s[1..], tags, c);
    }
  }

  /** Text without `<` passes block removal unchanged. */
  lemma {:induction false} RemoveBlocksKeepsPlainText(s: string, name: string)
    decreases |s|
    requires forall k :: 0 <= k < |s| ==> s[k] != '<'
    ensures RemoveBlocks(s, name) == s
  {
    if s != [] {
      assert LowerChar(s[0]) != LowerChar(Opener(name)[0]);
      assert BlockLen(s, name).None?;
      RemoveBlocksKeepsPlainText(s[1..], name);
      assert s == [s[0]] + s[1..];
    }
  }

  /** Characters where no tag begins are kept, and the scan goes on after
      them. */
  lemma {:induction false} StripTagsKeepsPrefix(s: string, tags: seq<string>, m: nat)
    decreases m
    requires m <= |s| && forall k :: 0 <= k < m ==> TagLen(s[k..], tags).None?
    ensures StripTags(s, tags) == s[..m] + StripTags(s[m..], tags)
  {
    if m == 0 {
      assert s[..0] == [] && s[0..] == s;
    } else {
      assert s[0..] == s;
      assert StripTags(s, tags) == [s[0]] + StripTags(s[1..], tags);
      forall k | 0 <= k < m - 1 ensures TagLen(s[1..][k..], tags).None? {
        assert s[1..][k..] == s[k + 1..];
      }
      StripTagsKeepsPrefix(s[1..], tags, m - 1);
      ConsPrefix(s, m, StripTags(s[m..], tags));
    }
  }

  /** The leftmost tag, `n` characters long at `m`, is removed whole; the text
      before it is kept and the scan resumes after it. */
  lemma StripTagsAt(s: string, tags: seq<string>, m: nat, n: nat)
    requires m <= |s| && forall k :: 0 <= k < m ==> TagLen(s[k..], tags).None?
    requires TagLen(s[m..], tags).Some? && TagLen(s[m..], tags).value == n
    ensures m + n <= |s|
    ensures StripTags(s, tags) == s[..m] + StripTags(s[m + n..], tags)
  {
    StripTagsKeepsPrefix(s, tags, m);
    StripTagsDrops(s[m..], tags, n);
    assert s[m..][n..] == s[m + n..];
  }

  /** A prefix without `<` passes tag stripping unchanged, and the scan goes
      on after it. */
  lemma StripTagsKeepsPlainPrefix(s: string, tags: seq<string>, m: nat)
    requires m <= |s| && forall k :: 0 <= k < m ==> s[k] != '<'
    ensures StripTags(s, tags) == s[..m] + StripTags(s[m..], tags)
  {
    forall k | 0 <= k < m ensures TagLen(s[k..], tags).None? {
      assert s[k..][0] == s[k];
    }
    StripTagsKeepsPrefix(s, tags, m);
  }

  /** Text without `<` passes tag stripping unchanged. */
  lemma StripTagsKeepsPlainText(s: string, tags: seq<string>)
    requires forall k :: 0 <= k < |s| ==> s[k] != '<'
    ensures StripTags(s, tags) == s
  {
    StripTagsKeepsPlainPrefix(s, tags, |s|);
    assert s[..|s|] == s && s[|s|..] == [];
  }

  /** One step of the scan: a tag is dropped whole. */
  lemma StripTagsDrops(s: string, tags: seq<string>, n: nat)
    requires TagLen(s, tags).Some? && TagLen(s, tags).value == n
    ensures StripTags(s, tags) == StripTags(s[n..], tags)
  {
  }

  lemma {:induction false} StripTagsLength(s: string, tags: seq<string>)
    decreases |s|
    ensures |StripTags(s, tags)| <= |s|
  {
    if s != [] {
      match TagLen(s, tags)
      case Some(n) => StripTagsLength(s[n..], tags);
      case None => StripTagsLength(s[1..], tags);
    }
  }

  /** Characters that the five replacements leave alone, escaped one by one,
      are unchanged. */
  lemma {:induction false} EscapeEachKeepsPlainText(s: string)
    decreases |s|
    requires forall k :: 0 <= k < |s| ==> s[k] != '&' && NoMarkupChar(s[k])
    ensures EscapeEach(s) == s
  {
    if s != [] {
      EscapeEachKeepsPlainText(s[1..]);
      assert s == [s[0]] + s[1..];
    }
  }

  /** Text without `<` is only escaped and trimmed. */
  lemma PlainTextIsEscapedAndTrimmed(cfg: SecurityConfig, s: string)
    requires cfg.sanitizeInput
    requires forall k :: 0 <= k < |s| ==> s[k] != '<'
    ensures Sanitize(cfg, s) == Trim(EscapeEach(s))
  {
    RemoveBlocksKeepsPlainText(s, "script");
    RemoveBlocksKeepsPlainText(s, "iframe");
    RemoveBlocksKeepsPlainText(s, "object");
    RemoveBlocksKeepsPlainText(s, "embed");
    StripTagsKeepsPlainText(s, cfg.allowedHtmlTags);
    EscapeHtmlIsPerCharacter(s);
  }

  /** Ordinary text (none of `& < > " '`, no whitespace at either end) comes
      back unchanged. */
  lemma OrdinaryTextIsUnchanged(cfg: SecurityConfig, s: string)
    requires cfg.sanitizeInput
    requires forall k :: 0 <= k < |s| ==> s[k] != '&' && NoMarkupChar(s[k])
    requires s != [] ==> !IsJsWhitespace(s[0]) && !IsJsWhitespace(s[|s| - 1])
    ensures Sanitize(cfg, s) == s
  {
    PlainTextIsEscapedAndTrimmed(cfg, s);
    EscapeEachKeepsPlainText(s);
    TrimKeepsTrimmed(s);
  }

  // What stage 2 leaves behind.

  /** Allow-listed names that cannot hold a `<`. */
  predicate NoLtInTags(tags: seq<string>) {
    forall t :: t in tags ==> '<' !in t
  }

  lemma MatchHasNoLt(t: string, pat: string)
    requires StartsWithCI(t, pat) && '<' !in pat
    ensures forall k :: 0 <= k < |pat| ==> t[k] != '<'
  {
    forall k | 0 <= k < |pat| ensures t[k] != '<' {
      assert LowerChar(t[k]) == LowerChar(pat[k]);
      assert pat[k] in pat;
    }
  }

  lemma StartsWithCISamePrefix(t: string, u: string, pat: string)
    requires StartsWithCI(t, pat) && |pat| <= |u| && t[..|pat|] == u[..|pat|]
    ensures StartsWithCI(u, pat)
  {
    assert forall k :: 0 <= k < |pat| ==> t[k] == t[..|pat|][k] && u[k] == u[..|pat|][k];
  }

  /** A protected `<name` stays protected once the rest is stripped. */
  lemma KeptNameIsProtected(s: string, tags: seq<string>)
    requires NoLtInTags(tags) && s != [] && AllowedNameAt(s[1..], tags)
    ensures AllowedNameAt(StripTags(s[1..], tags), tags)
  {
    var rest := StripTags(s[1..], tags);
    var tag :| tag in tags && StartsWithCI(s[1..], tag + [Backspace]);
    var pat := tag + [Backspace];
    MatchHasNoLt(s[1..], pat);
    StripTagsKeepsPlainPrefix(s[1..], tags, |pat|);
    StartsWithCISamePrefix(s[1..], rest, pat);
  }

  /** A protected `</name` stays protected once the rest is stripped. */
  lemma KeptCloserIsProtected(s: string, tags: seq<string>)
    requires NoLtInTags(tags) && |s| >= 2 && s[1] == '/' && AllowedNameAt(s[2..], tags)
    ensures var rest := StripTags(s[1..], tags); rest != [] && rest[0] == '/' && AllowedNameAt(rest[1..], tags)
  {
    var rest := StripTags(s[1..], tags);
    var tag :| tag in tags && StartsWithCI(s[2..], tag + [Backspace]);
    var pat := tag + [Backspace];
    MatchHasNoLt(s[2..], pat);
    assert forall k :: 1 <= k <= |pat| ==> s[1..][k] == s[2..][k - 1];
    StripTagsKeepsPlainPrefix(s[1..], tags, |pat| + 1);
    assert rest[0] == s[1] == '/';
    assert s[2..][..|pat|] == s[1..][..|pat| + 1][1..];
    assert rest[1..][..|pat|] == rest[..|pat| + 1][1..];
    StartsWithCISamePrefix(s[2..], rest[1..], pat);
  }

  /** An unprotected `<` that begins no tag has no `>` after it, or has one
      right after it; stripping the rest keeps it so. */
  lemma KeptLtBeginsNoTag(s: string, tags: seq<string>)
    requires s != [] && s[0] == '<' && TagLen(s, tags).None? && !Protected(s, tags)
    ensures var rest := StripTags(s[1..], tags);
      IndexOf(rest, '>').None? || (rest != [] && rest[0] == '>')
  {
    var rest := StripTags(s[1..], tags);
    if IndexOf(s[1..], '>').None? {
      StripTagsAddsNothing(s[1..], tags, '>');
    } else {
      StripTagsKeepsPlainPrefix(s[1..], tags, 1);
      assert rest[0] == '>';
    }
  }

  /** A character that the scan of stage 2 keeps does not begin a tag of the
      output either. */
  lemma KeptCharBeginsNoTag(s: string, tags: seq<string>)
    requires NoLtInTags(tags) && s != [] && TagLen(s, tags).None?
    ensures TagLen([s[0]] + StripTags(s[1..], tags), tags).None?
  {
    var rest := StripTags(s[1..], tags);
    var out := [s[0]] + rest;
    assert out[1..] == rest;
    if s[0] == '<' {
      if AllowedNameAt(s[1..], tags) {
        KeptNameIsProtected(s, tags);
        assert Protected(out, tags);
      } else if Protected(s, tags) {
        KeptCloserIsProtected(s, tags);
        assert out[2..] == rest[1..];
        assert Protected(out, tags);
      } else {
        KeptLtBeginsNoTag(s, tags);
      }
    }
  }

  /** No strippable tag is left: the replacement of line 26 is a fixpoint of
      itself. Every `<` that stays is protected, is followed directly by `>`,
      or has no `>` anywhere after it. */
  lemma {:induction false} StripTagsLeavesNoTag(s: string, tags: seq<string>)
    decreases |s|
    requires NoLtInTags(tags)
    ensures forall j :: 0 <= j < |StripTags(s, tags)| ==> TagLen(StripTags(s, tags)[j..], tags).None?
  {
    if s != [] {
      var n := TagLen(s, tags);
      if n.Some? {
        StripTagsLeavesNoTag(s[n.value..], tags);
      } else {
        var rest := StripTags(s[1..], tags);
        var out := [s[0]] + rest;
        assert StripTags(s, tags) == out;
        StripTagsLeavesNoTag(s[1..], tags);
        KeptCharBeginsNoTag(s, tags);
        forall j | 1 <= j < |out| ensures TagLen(out[j..], tags).None? {
          assert out[j..] == rest[j - 1..];
        }
      }
    }
  }

  lemma MatchEndsInBackspace(t: string, tag: string)
    requires StartsWithCI(t, tag + [Backspace])
    ensures |tag| < |t| && t[|tag|] == Backspace
  {
    assert LowerChar(t[|tag|]) == LowerChar((tag + [Backspace])[|tag|]);
  }

  /** Only U+0008 after the name protects a tag: a text without it has no
      protected position. */
  lemma NoBackspaceNoProtection(s: string, tags: seq<string>)
    requires forall k :: 0 <= k < |s| ==> s[k] != Backspace
    ensures !Protected(s, tags)
  {
    if |s| >= 1 && AllowedNameAt(s[1..], tags) {
      var tag :| tag in tags && StartsWithCI(s[1..], tag + [Backspace]);
      MatchEndsInBackspace(s[1..], tag);
    }
    if |s| >= 2 && AllowedNameAt(s[2..], tags) {
      var tag :| tag in tags && StartsWithCI(s[2..], tag + [Backspace]);
      MatchEndsInBackspace(s[2..], tag);
    }
  }

  /** `u` begins with a `<` that no tag can start at: `>` follows directly,
      or no `>` follows at all. */
  predicate LoneLt(u: string) {
    u != [] && u[0] == '<' && ((|u| > 1 && u[1] == '>') || '>' !in u[1..])
  }

  /** A `<` that begins no tag and no protected position is a lone `<`. */
  lemma UnstrippedLt(u: string, tags: seq<string>)
    requires u != [] && u[0] == '<' && TagLen(u, tags).None? && !Protected(u, tags)
    ensures LoneLt(u)
  {
    if IndexOf(u[1..], '>').Some? {
      assert u[1..][0] == '>';
    }
  }

  /** As the page ships it (no U+0008 in the text), tag stripping removes
      every `<`, one or more characters other than `>`, `>` -- the allow-listed
      names included: every `<` that is left is a lone `<`. */
  lemma StripTagsWithoutBackspace(s: string, tags: seq<string>)
    requires NoLtInTags(tags)
    requires forall k :: 0 <= k < |s| ==> s[k] != Backspace
    ensures forall j :: 0 <= j < |StripTags(s, tags)| && StripTags(s, tags)[j] == '<' ==>
      LoneLt(StripTags(s, tags)[j..])
  {
    var r := StripTags(s, tags);
    StripTagsLeavesNoTag(s, tags);
    StripTagsAddsNothing(s, tags, Backspace);
    forall j | 0 <= j < |r| && r[j] == '<' ensures LoneLt(r[j..]) {
      NoBackspaceNoProtection(r[j..], tags);
      UnstrippedLt(r[j..], tags);
    }
  }
}
