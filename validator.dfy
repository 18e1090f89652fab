/**
 * `validateInput` (test/script.js:39-73): a pure accept/reject decision made by
 * ordered checks, each of which ends the call with an error when it fails.
 */
module Validator {
  import opened Text
  import opened Security

  /** The argument of `validateInput`: a JavaScript value that is either a
      string or something else (`null`, `undefined`, a number, ...). */
  datatype JsValue = JsString(s: string) | NotAString

  /** One thrown error per check: 'Invalid input type', 'Message too long...',
      'Message cannot be empty', 'Potentially unsafe content detected'. */
  datatype ValidationError = InvalidType | TooLong | Empty | UnsafeContent

  datatype Verdict = Accepted | Rejected(error: ValidationError)

  /** The ten case-insensitive patterns, in the order they are tried. */
  const XssPatterns: seq<string> := [
    "javascript:", "vbscript:", "onload=", "onerror=", "onclick=",
    "onmouseover=", "<script", "<iframe", "<object", "<embed"
  ]

  /** The outcome of `validateInput`: the first check that fails, in source order. */
  function Validation(cfg: SecurityConfig, input: JsValue): Verdict {
    match input
    case NotAString => Rejected(InvalidType)
    case JsString(s) =>
      // `!input` holds of the empty string, so "" fails the type check.
      if s == "" then Rejected(InvalidType)
      else if |s| > cfg.maxMessageLength then Rejected(TooLong)
      else if |s| == 0 then Rejected(Empty)
      else if exists p :: p in XssPatterns && ContainsCI(s, p) then Rejected(UnsafeContent)
      else Accepted
  }

  /** The function as the source runs it: the `for...of` loop over the
      patterns stops at the first one that matches. */
  method ValidateInput(cfg: SecurityConfig, input: JsValue) returns (v: Verdict)
    ensures v == Validation(cfg, input)
  {
    if input.NotAString? || input.s == "" {
      return Rejected(InvalidType);
    }
    var s := input.s;
    if |s| > cfg.maxMessageLength {
      return Rejected(TooLong);
    }
    // The emptiness check of line 48 cannot fail here: s is not "".
    var i := 0;
    while i < |XssPatterns|
      invariant 0 <= i <= |XssPatterns|
      invariant forall j :: 0 <= j < i ==> !ContainsCI(s, XssPatterns[j])
    {
      FindCINoneIffAbsent(s, XssPatterns[i]);
      if FindCI(s, XssPatterns[i]).Some? {
        assert XssPatterns[i] in XssPatterns;
        return Rejected(UnsafeContent);
      }
      i := i + 1;
    }
    return Accepted;
  }

  /** Acceptance, both ways: a non-empty string of at most the maximum length
      in which none of the ten patterns occurs at any position, in any case. */
  lemma AcceptedExactly(cfg: SecurityConfig, s: string)
    ensures Validation(cfg, JsString(s)) == Accepted <==>
      && s != ""
      && |s| <= cfg.maxMessageLength
      && forall p, i :: p in XssPatterns && 0 <= i <= |s| ==> !StartsWithCI(s[i..], p)
  {
  }

  /** A non-string argument and the empty string fail the first check. */
  lemma EmptyIsInvalidType(cfg: SecurityConfig)
    ensures Validation(cfg, JsString("")) == Rejected(InvalidType)
    ensures Validation(cfg, NotAString) == Rejected(InvalidType)
  {
  }

  /** The 'Message cannot be empty' error of line 49 is never produced. */
  lemma NeverEmptyError(cfg: SecurityConfig, input: JsValue)
    ensures Validation(cfg, input) != Rejected(Empty)
  {
  }

  /** Length is checked before the patterns: an over-long message fails as
      too long whatever it contains, `<script` included. */
  lemma LengthBeforePatterns(cfg: SecurityConfig, a: string, b: string)
    requires |a + "<script" + b| > cfg.maxMessageLength
    ensures Validation(cfg, JsString(a + "<script" + b)) == Rejected(TooLong)
  {
  }

  /** A pattern anywhere, in any mixture of cases, makes an otherwise
      admissible message unsafe. */
  lemma PatternAnywhereIsUnsafe(cfg: SecurityConfig, a: string, w: string, b: string)
    requires LowerCase(w) in XssPatterns
    requires |a + w + b| <= cfg.maxMessageLength
    ensures Validation(cfg, JsString(a + w + b)) == Rejected(UnsafeContent)
  {
    var s := a + w + b;
    var p := LowerCase(w);
    assert s[|a|..][..|w|] == w;
    assert forall k :: 0 <= k < |p| ==> LowerChar(p[k]) == LowerChar(w[k]);
    assert StartsWithCI(s[|a|..], p);
  }

  /** The verdict depends on the message only up to ASCII case. */
  lemma VerdictIgnoresCase(cfg: SecurityConfig, s: string, t: string)
    requires |s| == |t|
    requires forall k :: 0 <= k < |s| ==> LowerChar(s[k]) == LowerChar(t[k])
    ensures Validation(cfg, JsString(s)) == Validation(cfg, JsString(t))
  {
    forall p, i | 0 <= i <= |s|
      ensures StartsWithCI(s[i..], p) <==> StartsWithCI(t[i..], p)
    {
      assert forall k :: 0 <= k < |s| - i ==> s[i..][k] == s[i + k] && t[i..][k] == t[i + k];
    }
    assert forall p :: ContainsCI(s, p) <==> ContainsCI(t, p);
  }
}
