/**
 * Worked inputs of `sanitizeInput` (test/script.js:15-37) under the page's
 * configuration: what each stage does to them, and the behaviours that
 * follow from the source as written. Each stage is evaluated in a lemma of
 * its own; the lemmas about `Sanitize` only chain them.
 */
module SanitizerExamples {
  import opened Wrappers
  import opened Text
  import opened Security
  import opened Sanitizer

  // ---------------------------------------------------------------------
  // Escaping twice
  // ---------------------------------------------------------------------

  lemma AmpersandIsPlain()
    ensures Sanitize(Config, "&") == Trim(EscapeEach("&"))
  {
    PlainTextIsEscapedAndTrimmed(Config, "&");
  }

  lemma EscapeAmpersand()
    ensures EscapeEach("&") == "&amp;"
  {
  }

  lemma AmpEntityIsTrimmed()
    ensures Trim("&amp;") == "&amp;"
  {
    TrimKeepsTrimmed("&amp;");
  }

  lemma SanitizeAmpersand()
    ensures Sanitize(Config, "&") == "&amp;"
  {
    AmpersandIsPlain();
    EscapeAmpersand();
    AmpEntityIsTrimmed();
  }

  lemma EntityIsPlain()
    ensures Sanitize(Config, "&amp;") == Trim(EscapeEach("&amp;"))
  {
    PlainTextIsEscapedAndTrimmed(Config, "&amp;");
  }

  lemma EscapeEntity()
    ensures EscapeEach("&amp;") == "&amp;amp;"
  {
    assert EscapeEach("&amp;") == "&amp;" + EscapeEach("amp;");
    EscapeEachKeepsPlainText("amp;");
  }

  lemma DoubleEntityIsTrimmed()
    ensures Trim("&amp;amp;") == "&amp;amp;"
  {
    TrimKeepsTrimmed("&amp;amp;");
  }

  lemma SanitizeEntity()
    ensures Sanitize(Config, "&amp;") == "&amp;amp;"
  {
    EntityIsPlain();
    EscapeEntity();
    DoubleEntityIsTrimmed();
  }

  /** Sanitizing twice escapes twice: `&` becomes `&amp;`, which becomes
      `&amp;amp;`. The function is not idempotent. */
  lemma SanitizeIsNotIdempotent()
    ensures Sanitize(Config, "&") == "&amp;"
    ensures Sanitize(Config, Sanitize(Config, "&")) == "&amp;amp;"
  {
    SanitizeAmpersand();
    SanitizeEntity();
  }

  // ---------------------------------------------------------------------
  // Allow-listed tags
  // ---------------------------------------------------------------------

  /** No script, iframe, object or embed block begins anywhere in `s`. */
  lemma NoBlocksIn(s: string)
    requires forall k :: 0 <= k < |s| ==>
      !StartsWithCI(s[k..], "<script") && !StartsWithCI(s[k..], "<iframe") &&
      !StartsWithCI(s[k..], "<object") && !StartsWithCI(s[k..], "<embed")
    ensures RemoveDangerousBlocks(s) == s
  {
    assert "<" + "script" == "<script" && "<" + "iframe" == "<iframe";
    assert "<" + "object" == "<object" && "<" + "embed" == "<embed";
    RemoveBlocksKeepsUnopened(s, "script");
    RemoveBlocksKeepsUnopened(s, "iframe");
    RemoveBlocksKeepsUnopened(s, "object");
    RemoveBlocksKeepsUnopened(s, "embed");
  }

  /** `a` and `b` begin none of `script`, `iframe`, `object` and `embed`. */
  predicate BeginsNoBlockName(a: char, b: char) {
    var x := LowerChar(a);
    x != 'i' && x != 'o' && x != 'e' && (x == 's' ==> LowerChar(b) != 'c')
  }

  /** Text in which every `<` is followed by two characters that begin no
      dangerous block's name has no dangerous block. */
  lemma NoBlocksAfterLt(s: string)
    requires forall k :: 0 <= k < |s| && s[k] == '<' ==> k + 2 < |s| && BeginsNoBlockName(s[k + 1], s[k + 2])
    ensures RemoveDangerousBlocks(s) == s
  {
    forall k | 0 <= k < |s|
      ensures !StartsWithCI(s[k..], "<script") && !StartsWithCI(s[k..], "<iframe")
      ensures !StartsWithCI(s[k..], "<object") && !StartsWithCI(s[k..], "<embed")
    {
      var t := s[k..];
      if s[k] == '<' {
        assert t[1] == s[k + 1] && t[2] == s[k + 2];
        assert LowerChar(t[1]) != LowerChar("<iframe"[1]);
        assert LowerChar(t[1]) != LowerChar("<object"[1]);
        assert LowerChar(t[1]) != LowerChar("<embed"[1]);
        assert LowerChar(t[1]) != LowerChar("<script"[1]) || LowerChar(t[2]) != LowerChar("<script"[2]);
      } else {
        assert LowerChar(t[0]) != LowerChar('<');
      }
    }
    NoBlocksIn(s);
  }

  lemma BrHasNoBlocks()
    ensures RemoveDangerousBlocks("a<br>b") == "a<br>b"
  {
    NoBlocksAfterLt("a<br>b");
  }

  lemma BrIsNotProtected()
    ensures !Protected("<br>b", Config.allowedHtmlTags)
  {
    var t := "<br>b";
    forall tag | tag in Config.allowedHtmlTags ensures !StartsWithCI(t[1..], tag + [Backspace]) {
      if tag == "br" {
        assert LowerChar(t[1..][2]) != LowerChar((tag + [Backspace])[2]);
      } else {
        assert LowerChar(t[1..][0]) != LowerChar((tag + [Backspace])[0]);
      }
    }
  }

  lemma SkipBr()
    ensures StripTags("<br>b", Config.allowedHtmlTags) == StripTags("b", Config.allowedHtmlTags)
  {
    BrIsNotProtected();
    TagLenAt("<br>b", Config.allowedHtmlTags, 2);
    StripTagsDrops("<br>b", Config.allowedHtmlTags, 4);
    assert "<br>b"[4..] == "b";
  }

  lemma BrParts()
    ensures "a<br>b"[..1] == "a" && "a<br>b"[1..] == "<br>b"
    ensures "a" + "b" == "ab"
  {
  }

  lemma StripBr()
    ensures StripTags("a<br>b", Config.allowedHtmlTags) == "ab"
  {
    StripTagsKeepsPlainPrefix("a<br>b", Config.allowedHtmlTags, 1);
    BrParts();
    SkipBr();
    StripTagsKeepsPlainText("b", Config.allowedHtmlTags);
  }

  lemma EscapeAb()
    ensures EscapeEach("ab") == "ab"
  {
    EscapeEachKeepsPlainText("ab");
  }

  lemma AbIsTrimmed()
    ensures Trim("ab") == "ab"
  {
    TrimKeepsTrimmed("ab");
  }

  /** An allow-listed tag written as people write it is stripped like any
      other: the `\b` of line 26 is U+0008, so `<br>` is not protected. */
  lemma AllowedTagIsStripped()
    ensures Sanitize(Config, "a<br>b") == "ab"
  {
    BrHasNoBlocks();
    StripBr();
    EscapeAb();
    SanitizeByStages(Config, "a<br>b", "a<br>b", "ab", "ab");
    AbIsTrimmed();
  }

  lemma BackspaceBrHasNoBlocks()
    ensures RemoveDangerousBlocks("<br\U{8}>") == "<br\U{8}>"
  {
    NoBlocksAfterLt("<br\U{8}>");
  }

  lemma StripBackspaceBr()
    ensures StripTags("<br\U{8}>", Config.allowedHtmlTags) == "<br\U{8}>"
  {
    var s := "<br\U{8}>";
    assert "br" in Config.allowedHtmlTags && StartsWithCI(s[1..], "br" + [Backspace]);
    assert Protected(s, Config.allowedHtmlTags);
    StripTagsKeepsPlainText(s[1..], Config.allowedHtmlTags);
  }

  lemma EscapeBackspaceBr()
    ensures EscapeEach("<br\U{8}>") == "&lt;br\U{8}&gt;"
  {
    var s := "<br\U{8}>";
    assert EscapeEach(s) == "&lt;" + EscapeEach(s[1..]);
    assert EscapeEach(s[1..]) == "b" + EscapeEach(s[2..]);
    assert EscapeEach(s[2..]) == "r" + EscapeEach(s[3..]);
    assert EscapeEach(s[3..]) == [Backspace] + EscapeEach(s[4..]);
    assert EscapeEach(s[4..]) == "&gt;";
  }

  lemma EscapedBackspaceBrIsTrimmed()
    ensures Trim("&lt;br\U{8}&gt;") == "&lt;br\U{8}&gt;"
  {
    TrimKeepsTrimmed("&lt;br\U{8}&gt;");
  }

  /** Only an allow-listed name followed by U+0008 is protected; what
      survives is escaped all the same. */
  lemma BackspaceTagIsKeptAndEscaped()
    ensures Sanitize(Config, "<br\U{8}>") == "&lt;br\U{8}&gt;"
  {
    BackspaceBrHasNoBlocks();
    StripBackspaceBr();
    EscapeBackspaceBr();
    SanitizeByStages(Config, "<br\U{8}>", "<br\U{8}>", "<br\U{8}>", "&lt;br\U{8}&gt;");
    EscapedBackspaceBrIsTrimmed();
  }

  lemma ParagraphHasNoBlocks()
    ensures RemoveDangerousBlocks("<p>a</p>&") == "<p>a</p>&"
  {
    NoBlocksAfterLt("<p>a</p>&");
  }

  /** `p` is followed by `>` rather than U+0008, so `<p>` is not
      protected. */
  lemma OpenParagraphIsNotProtected()
    ensures !Protected("<p>a</p>&", Config.allowedHtmlTags)
  {
    var t := "<p>a</p>&";
    forall tag | tag in Config.allowedHtmlTags ensures !StartsWithCI(t[1..], tag + [Backspace]) {
      if tag == "p" {
        assert LowerChar(t[1..][1]) != LowerChar((tag + [Backspace])[1]);
      } else {
        assert LowerChar(t[1..][0]) != LowerChar((tag + [Backspace])[0]);
      }
    }
    assert t[1] != '/';
  }

  lemma SkipOpenParagraph()
    ensures StripTags("<p>a</p>&", Config.allowedHtmlTags) == StripTags("a</p>&", Config.allowedHtmlTags)
  {
    OpenParagraphIsNotProtected();
    TagLenAt("<p>a</p>&", Config.allowedHtmlTags, 1);
    StripTagsDrops("<p>a</p>&", Config.allowedHtmlTags, 3);
    assert "<p>a</p>&"[3..] == "a</p>&";
  }

  lemma CloseParagraphIsNotProtected()
    ensures !Protected("</p>&", Config.allowedHtmlTags)
  {
    var t := "</p>&";
    forall tag | tag in Config.allowedHtmlTags
      ensures !StartsWithCI(t[1..], tag + [Backspace]) && !StartsWithCI(t[2..], tag + [Backspace])
    {
      assert LowerChar(t[1..][0]) != LowerChar((tag + [Backspace])[0]);
      if tag == "p" {
        assert LowerChar(t[2..][1]) != LowerChar((tag + [Backspace])[1]);
      } else {
        assert LowerChar(t[2..][0]) != LowerChar((tag + [Backspace])[0]);
      }
    }
  }

  lemma SkipCloseParagraph()
    ensures StripTags("</p>&", Config.allowedHtmlTags) == StripTags("&", Config.allowedHtmlTags)
  {
    CloseParagraphIsNotProtected();
    TagLenAt("</p>&", Config.allowedHtmlTags, 2);
    StripTagsDrops("</p>&", Config.allowedHtmlTags, 4);
    assert "</p>&"[4..] == "&";
  }

  lemma ParagraphTextIsKept()
    ensures StripTags("a</p>&", Config.allowedHtmlTags) ==
      "a</p>&"[..1] + StripTags("a</p>&"[1..], Config.allowedHtmlTags)
  {
    StripTagsKeepsPlainPrefix("a</p>&", Config.allowedHtmlTags, 1);
  }

  lemma ParagraphParts()
    ensures "a</p>&"[..1] == "a" && "a</p>&"[1..] == "</p>&"
    ensures "a" + "&" == "a&"
  {
  }

  lemma AmpIsKept()
    ensures StripTags("&", Config.allowedHtmlTags) == "&"
  {
    StripTagsKeepsPlainText("&", Config.allowedHtmlTags);
  }

  lemma StripParagraphCloser()
    ensures StripTags("a</p>&", Config.allowedHtmlTags) == "a&"
  {
    ParagraphTextIsKept();
    ParagraphParts();
    SkipCloseParagraph();
    AmpIsKept();
  }

  lemma StripParagraph()
    ensures StripTags("<p>a</p>&", Config.allowedHtmlTags) == "a&"
  {
    SkipOpenParagraph();
    StripParagraphCloser();
  }

  lemma EscapeParagraphText()
    ensures EscapeEach("a&") == "a&amp;"
  {
    assert EscapeEach("a&") == "a" + EscapeEach("&");
  }

  lemma EscapedParagraphTextIsTrimmed()
    ensures Trim("a&amp;") == "a&amp;"
  {
    TrimKeepsTrimmed("a&amp;");
  }

  /** Formatting tags go and the ampersand is escaped:
      `<p>a</p>&` becomes `a&amp;`. */
  lemma FormattedTextIsStrippedAndEscaped()
    ensures Sanitize(Config, "<p>a</p>&") == "a&amp;"
  {
    ParagraphHasNoBlocks();
    StripParagraph();
    EscapeParagraphText();
    SanitizeByStages(Config, "<p>a</p>&", "<p>a</p>&", "a&", "a&amp;");
    EscapedParagraphTextIsTrimmed();
  }

  // ---------------------------------------------------------------------
  // Dangerous blocks
  // ---------------------------------------------------------------------

  lemma SanitizeHello()
    ensures Sanitize(Config, "hello") == "hello"
  {
    OrdinaryTextIsUnchanged(Config, "hello");
  }

  lemma ScriptNames()
    ensures Opener("script") == "<script" && Closer("script") == "</script>"
  {
  }

  /** `s` opens a script block whose first closing tag is `j` characters
      after the name. */
  lemma ScriptBlockAt(s: string, j: nat)
    requires "<script" <= s && |s| > 7 && !IsWordChar(s[7])
    requires j <= |s| - 7 && "</script>" <= s[7 + j..]
    requires forall i :: 7 <= i < 7 + j ==> s[i] != '<'
    ensures BlockLen(s, "script").Some? && BlockLen(s, "script").value == 7 + j + 9
  {
    ScriptNames();
    PrefixStartsWithCI(s, "<script");
    PrefixStartsWithCI(s[7 + j..], "</script>");
    forall i | 7 <= i < 7 + j ensures !StartsWithCI(s[i..], "</script>") {
      FoldsOnlyWithItself('<', s[i]);
      assert s[i..][0] == s[i];
    }
    BlockLenAt(s, "script", j);
  }

  lemma ScriptParts()
    ensures "<script>alert(1)</script>hello"[25..] == "hello"
  {
  }

  lemma HelloKeepsScript()
    ensures RemoveBlocks("hello", "script") == "hello"
  {
    RemoveBlocksKeepsPlainText("hello", "script");
  }

  lemma HelloKeepsOtherBlocks()
    ensures RemoveBlocks(RemoveBlocks(RemoveBlocks("hello", "iframe"), "object"), "embed") == "hello"
  {
    RemoveBlocksKeepsPlainText("hello", "iframe");
    RemoveBlocksKeepsPlainText("hello", "object");
    RemoveBlocksKeepsPlainText("hello", "embed");
  }

  lemma ScriptShape()
    ensures var s := "<script>alert(1)</script>hello";
      "<script" <= s && |s| > 7 && !IsWordChar(s[7]) && "</script>" <= s[16..] &&
      forall i :: 7 <= i < 16 ==> s[i] != '<'
  {
  }

  lemma ScriptBlockLen()
    ensures BlockLen("<script>alert(1)</script>hello", "script").Some?
    ensures BlockLen("<script>alert(1)</script>hello", "script").value == 25
  {
    ScriptShape();
    ScriptBlockAt("<script>alert(1)</script>hello", 9);
  }

  lemma RemoveScriptBlock()
    ensures RemoveBlocks("<script>alert(1)</script>hello", "script") == "hello"
  {
    ScriptBlockLen();
    RemoveBlocksDrops("<script>alert(1)</script>hello", "script", 25);
    ScriptParts();
    HelloKeepsScript();
  }

  lemma HelloHasNoBlocks()
    ensures RemoveDangerousBlocks("hello") == "hello"
  {
    HelloKeepsScript();
    HelloKeepsOtherBlocks();
  }

  lemma ScriptTextHasNoBlocks()
    ensures RemoveDangerousBlocks("<script>alert(1)</script>hello") == "hello"
  {
    RemoveScriptBlock();
    HelloKeepsOtherBlocks();
  }

  /** A script block goes with everything inside it. */
  lemma ScriptBlockIsRemoved()
    ensures Sanitize(Config, "<script>alert(1)</script>hello") == "hello"
  {
    ScriptTextHasNoBlocks();
    HelloHasNoBlocks();
    SanitizeAfterBlocks(Config, "<script>alert(1)</script>hello", "hello");
    SanitizeHello();
  }

  /** Text in which every `<` is followed by `/` opens no script block. */
  lemma OnlyClosersIn(s: string)
    requires forall k :: 0 <= k < |s| && s[k] == '<' ==> k + 1 < |s| && s[k + 1] == '/'
    ensures RemoveBlocks(s, "script") == s
  {
    forall k | 0 <= k < |s| ensures !StartsWithCI(s[k..], Opener("script")) {
      if s[k] == '<' {
        assert LowerChar(s[k..][1]) != LowerChar(Opener("script")[1]);
      }
    }
    RemoveBlocksKeepsUnopened(s, "script");
  }

  lemma InnerShape()
    ensures var s := "<script></script>ipt></script>";
      "<script" <= s && |s| > 7 && !IsWordChar(s[7]) && "</script>" <= s[8..] &&
      forall i :: 7 <= i < 8 ==> s[i] != '<'
  {
  }

  lemma InnerParts()
    ensures "<script></script>ipt></script>"[17..] == "ipt></script>"
  {
  }

  lemma InnerBlockLen()
    ensures BlockLen("<script></script>ipt></script>", "script").Some?
    ensures BlockLen("<script></script>ipt></script>", "script").value == 17
  {
    InnerShape();
    ScriptBlockAt("<script></script>ipt></script>", 1);
  }

  lemma CloserTailIsKept()
    ensures RemoveBlocks("ipt></script>", "script") == "ipt></script>"
  {
    OnlyClosersIn("ipt></script>");
  }

  lemma InnerBlockIsRemoved()
    ensures RemoveBlocks("<script></script>ipt></script>", "script") == "ipt></script>"
  {
    InnerBlockLen();
    RemoveBlocksDrops("<script></script>ipt></script>", "script", 17);
    InnerParts();
    CloserTailIsKept();
  }

  lemma BareParts()
    ensures "<script></script>"[8..] == "</script>" && "<script></script>"[17..] == ""
  {
  }

  lemma BareBlockIsRemoved()
    ensures RemoveBlocks("<script></script>", "script") == ""
  {
    BareParts();
    ScriptBlockAt("<script></script>", 1);
    RemoveBlocksDrops("<script></script>", "script", 17);
  }

  lemma NoScriptOpensAt(s: string)
    requires |s| >= 5 && s[0] == '<' && s[4] == '<'
    requires forall k :: 1 <= k < 4 ==> s[k] != '<'
    ensures forall k :: 0 <= k < 4 ==> BlockLen(s[k..], "script").None?
  {
    ScriptNames();
    assert LowerChar(s[4]) != LowerChar("<script"[4]);
    assert !StartsWithCI(s, "<script");
    forall k | 1 <= k < 4 ensures !StartsWithCI(s[k..], "<script") {
      assert LowerChar(s[k..][0]) != LowerChar("<script"[0]);
    }
    assert s[0..] == s;
  }

  lemma NestedPrefixIsKept(s: string)
    requires |s| >= 5 && s[0] == '<' && s[4] == '<'
    requires forall k :: 1 <= k < 4 ==> s[k] != '<'
    ensures RemoveBlocks(s, "script") == s[..4] + RemoveBlocks(s[4..], "script")
  {
    NoScriptOpensAt(s);
    RemoveBlocksKeepsPrefix(s, "script", 4);
  }

  lemma NestedHead()
    ensures "<scr<script></script>ipt></script>"[..4] == "<scr"
  {
  }

  lemma NestedTail()
    ensures "<scr<script></script>ipt></script>"[4..] == "<script></script>ipt></script>"
  {
  }

  lemma NestedHeadIsKept()
    ensures RemoveBlocks("<scr<script></script>ipt></script>", "script") ==
      "<scr" + RemoveBlocks("<script></script>ipt></script>", "script")
  {
    NestedPrefixIsKept("<scr<script></script>ipt></script>");
    NestedHead();
    NestedTail();
  }

  lemma NestedJoin()
    ensures "<scr" + "ipt></script>" == "<script></script>"
  {
  }

  lemma NestedOuterIsJoined()
    ensures RemoveBlocks("<scr<script></script>ipt></script>", "script") == "<script></script>"
  {
    NestedHeadIsKept();
    InnerBlockIsRemoved();
    NestedJoin();
  }

  /** One pass of block removal is not a fixpoint of itself: removing the
      inner block joins the halves of an outer one, which the regular
      expression does not revisit. */
  lemma BlockRemovalIsNotAFixpoint()
    ensures RemoveBlocks("<scr<script></script>ipt></script>", "script") == "<script></script>"
    ensures RemoveBlocks(RemoveBlocks("<scr<script></script>ipt></script>", "script"), "script") == ""
  {
    NestedOuterIsJoined();
    BareBlockIsRemoved();
  }
}
