/**
 * The companion table (test/script.js:123-172), its start-up check
 * `validateCompanionData` (lines 178-185) and `generateResponse` (lines
 * 294-312), which picks a reply from the active companion's responses by
 * keywords in the user's message.
 */
module Companions {
  import opened Wrappers
  import opened Text

  datatype Responses = Responses(greeting: string, anxious: string, sad: string, stressed: string, default: string)

  datatype Persona = Persona(name: string, title: string, personality: string, responses: Responses)

  const Sarah: Persona := Persona(
    "Sarah",
    "The Empathetic Listener",
    "empathetic",
    Responses(
      "Hello! I'm Sarah, and I'm here to listen "
      + "with an open heart. How are you feeling "
      + "today?",
      "I can sense that you're feeling anxious. "
      + "That's completely normal and valid. Would "
      + "you like to tell me more about what's on "
      + "your mind? Sometimes just talking about our "
      + "worries can help us feel a bit lighter.",
      "I'm so sorry you're feeling sad. Your "
      + "feelings matter, and it's okay to not be "
      + "okay. What's been weighing on your heart "
      + "lately?",
      "Stress can feel overwhelming, and I want you "
      + "to know that you're not alone in this. Let's "
      + "take a moment to breathe together. What's "
      + "causing you the most stress right now?",
      "I hear you, and I want you to know that your "
      + "feelings are valid. Would you like to "
      + "explore this further together?"))

  const Marcus: Persona := Persona(
    "Marcus",
    "The Motivational Coach",
    "motivational",
    Responses(
      "Hey there! I'm Marcus, your personal "
      + "cheerleader! What amazing things are we "
      + "going to accomplish today?",
      "Anxiety is just your mind's way of preparing "
      + "for something important. You're stronger "
      + "than you think! Let's channel that energy "
      + "into something positive. What's one small "
      + "step you can take right now?",
      "I know it feels tough right now, but "
      + "remember: every storm passes. You've got "
      + "incredible strength inside you. What's one "
      + "thing that usually brings you joy? Let's "
      + "focus on that.",
      "Stress is temporary, but your potential is "
      + "limitless! Let's break this down into "
      + "manageable pieces. What's the most important "
      + "thing you need to tackle first?",
      "You've got this! Every challenge is an "
      + "opportunity to grow stronger. What's your "
      + "next move?"))

  const Luna: Persona := Persona(
    "Luna",
    "The Mindfulness Guide",
    "mindful",
    Responses(
      "Welcome! I'm Luna. Let's take a moment to "
      + "breathe and be present together. How are you "
      + "feeling in this moment?",
      "Anxiety is like waves in the ocean - they "
      + "come and go. Let's practice some mindful "
      + "breathing together. Take a deep breath in... "
      + "and slowly release. What's happening in your "
      + "body right now?",
      "Sadness is a natural part of being human, "
      + "like clouds passing through the sky. Let's "
      + "sit with these feelings without judgment. "
      + "What do you notice about your emotions?",
      "Stress often lives in our thoughts about the "
      + "future. Let's bring our attention back to "
      + "this present moment. What can you see, hear, "
      + "or feel right now?",
      "Let's pause and observe what's happening "
      + "within you. There's wisdom in stillness."))

  const Alex: Persona := Persona(
    "Alex",
    "The Practical Problem Solver",
    "practical",
    Responses(
      "Hi! I'm Alex. I'm here to help you work "
      + "through challenges and find practical "
      + "solutions. What would you like to tackle "
      + "today?",
      "Anxiety often comes from uncertainty. Let's "
      + "identify what's within your control and what "
      + "isn't. What specific situation is causing "
      + "you worry?",
      "When we're sad, it helps to understand the "
      + "root cause. Let's explore what's behind "
      + "these feelings. What changed recently that "
      + "might be contributing to this?",
      "Stress usually means we have too much on our "
      + "plate. Let's prioritize and create a plan. "
      + "What are the top three things you need to "
      + "address?",
      "Let's approach this systematically. What's "
      + "the first step we can take to improve this "
      + "situation?"))

  /** Lines 123-172, keyed by id, in the order `Object.keys` and
      `Object.entries` list them. */
  const CompanionTable: seq<(string, Persona)> :=
    [("sarah", Sarah), ("marcus", Marcus), ("luna", Luna), ("alex", Alex)]

  /** `Object.keys(companions)` (lines 421 and 587). */
  const CompanionIds: seq<string> := ["sarah", "marcus", "luna", "alex"]

  /** The entry of `table` under `id`, if any. */
  function LookupIn(table: seq<(string, Persona)>, id: string): (r: Option<Persona>)
    decreases |table|
    ensures r.None? <==> forall i :: 0 <= i < |table| ==> table[i].0 != id
    ensures r.Some? ==> exists i :: 0 <= i < |table| && table[i] == (id, r.value)
  {
    if table == [] then None
    else if table[0].0 == id then Some(table[0].1)
    else
      var r := LookupIn(table[1..], id);
      assert forall i :: 1 <= i < |table| ==> table[1..][i - 1] == table[i];
      r
  }

  /** `companions[companionId]`, for the table's own ids. */
  function Lookup(id: string): Option<Persona> {
    LookupIn(CompanionTable, id)
  }

  /** The ids are exactly the table's keys, and each finds its persona. */
  lemma IdsAreTheKeys()
    ensures |CompanionIds| == |CompanionTable|
    ensures forall i :: 0 <= i < |CompanionIds| ==> CompanionIds[i] == CompanionTable[i].0
    ensures forall i :: 0 <= i < |CompanionIds| ==>
      Lookup(CompanionIds[i]).Some? && Lookup(CompanionIds[i]).value == CompanionTable[i].1
  {
  }

  /** Any other id finds nothing. */
  lemma UnknownIdFindsNothing(id: string)
    requires id !in CompanionIds
    ensures Lookup(id).None?
  {
    assert forall i :: 0 <= i < |CompanionTable| ==> CompanionTable[i].0 == CompanionIds[i];
  }

  // ---------------------------------------------------------------------
  // validateCompanionData (lines 178-185)
  // ---------------------------------------------------------------------

  /** Line 180: a truthy name and title. A `Responses` value always exists, so
      the third test cannot fail. */
  predicate ValidPersona(p: Persona) {
    p.name != "" && p.title != ""
  }

  /** The loop of lines 179-184. It returns the id of the first invalid entry
      (where the source throws), or `None` when every entry passes. */
  method ValidateCompanionData(table: seq<(string, Persona)>) returns (invalid: Option<string>)
    ensures invalid.None? <==> forall i :: 0 <= i < |table| ==> ValidPersona(table[i].1)
    ensures invalid.Some? ==>
      exists i :: 0 <= i < |table| && table[i].0 == invalid.value && !ValidPersona(table[i].1)
        && forall j :: 0 <= j < i ==> ValidPersona(table[j].1)
  {
    var i := 0;
    while i < |table|
      invariant 0 <= i <= |table|
      invariant forall j :: 0 <= j < i ==> ValidPersona(table[j].1)
    {
      if !ValidPersona(table[i].1) {
        return Some(table[i].0);
      }
      i := i + 1;
    }
    return None;
  }

  /** The page's table passes the check. */
  lemma TableIsValid()
    ensures forall i :: 0 <= i < |CompanionTable| ==> ValidPersona(CompanionTable[i].1)
  {
  }

  // ---------------------------------------------------------------------
  // generateResponse (lines 294-312)
  // ---------------------------------------------------------------------

  datatype Mood = Anxious | Sad | Stressed | Neutral

  const AnxiousWords: seq<string> := ["anxious", "anxiety", "worried"]
  const SadWords: seq<string> := ["sad", "depressed", "down"]
  const StressWords: seq<string> := ["stress", "overwhelmed", "busy"]

  /** Lines 296-307: the first group, in priority order, that has a word
      occurring in the lower-cased message. */
  function MoodOf(message: string): Mood {
    var lower := LowerCase(message);
    if Includes(lower, "anxious") || Includes(lower, "anxiety") || Includes(lower, "worried") then Anxious
    else if Includes(lower, "sad") || Includes(lower, "depressed") || Includes(lower, "down") then Sad
    else if Includes(lower, "stress") || Includes(lower, "overwhelmed") || Includes(lower, "busy") then Stressed
    else Neutral
  }

  /** One of the words occurs in `lower`. */
  predicate Mentions(lower: string, words: seq<string>) {
    exists w :: w in words && Includes(lower, w)
  }

  function ReplyFor(r: Responses, mood: Mood): string {
    match mood
    case Anxious => r.anxious
    case Sad => r.sad
    case Stressed => r.stressed
    case Neutral => r.default
  }

  /** Line 310. */
  const FallbackReply: string :=
    "I'm having trouble processing that right now. Could you try rephrasing your message?"

  /** `generateResponse(userMessage)` with `currentCompanion` passed in. With
      no companion the property access of line 300, 302, 304 or 306 throws and
      the handler returns the fallback. */
  function GenerateResponse(current: Option<Persona>, message: string): string {
    match current
    case None => FallbackReply
    case Some(p) => ReplyFor(p.responses, MoodOf(message))
  }

  /** A group of three words is mentioned exactly when one of the three
      occurs. */
  lemma MentionsThree(lower: string, words: seq<string>)
    requires |words| == 3
    ensures Mentions(lower, words) <==>
      Includes(lower, words[0]) || Includes(lower, words[1]) || Includes(lower, words[2])
  {
    if Mentions(lower, words) {
      var w :| w in words && Includes(lower, w);
    }
    if Includes(lower, words[0]) {
      assert words[0] in words;
    }
    if Includes(lower, words[1]) {
      assert words[1] in words;
    }
    if Includes(lower, words[2]) {
      assert words[2] in words;
    }
  }

  /** The selection, stated on the word lists: a group wins exactly when one
      of its words occurs and no word of an earlier group does. */
  lemma MoodExactly(message: string)
    ensures var lower := LowerCase(message);
      && (MoodOf(message) == Anxious <==> Mentions(lower, AnxiousWords))
      && (MoodOf(message) == Sad <==> !Mentions(lower, AnxiousWords) && Mentions(lower, SadWords))
      && (MoodOf(message) == Stressed <==>
            !Mentions(lower, AnxiousWords) && !Mentions(lower, SadWords) && Mentions(lower, StressWords))
      && (MoodOf(message) == Neutral <==>
            !Mentions(lower, AnxiousWords) && !Mentions(lower, SadWords) && !Mentions(lower, StressWords))
  {
    var lower := LowerCase(message);
    MentionsThree(lower, AnxiousWords);
    MentionsThree(lower, SadWords);
    MentionsThree(lower, StressWords);
  }

  /** A word of a group, written in any case anywhere in the message, is
      mentioned. */
  lemma WordAnywhereIsMentioned(a: string, w: string, b: string, words: seq<string>)
    requires LowerCase(w) in words
    ensures Mentions(LowerCase(a + w + b), words)
  {
    LowerCaseConcat(a + w, b);
    LowerCaseConcat(a, w);
    IncludesMiddle(LowerCase(a), LowerCase(w), LowerCase(b));
  }

  /** An anxious word anywhere selects the anxious reply, whatever other
      words the message holds. */
  lemma AnxiousWinsAnywhere(a: string, w: string, b: string)
    requires LowerCase(w) in AnxiousWords
    ensures MoodOf(a + w + b) == Anxious
  {
    WordAnywhereIsMentioned(a, w, b, AnxiousWords);
    MoodExactly(a + w + b);
  }

  /** A word cannot occur in a text at most one character longer whose
      first two characters both differ from the word's first. */
  lemma TooShortToInclude(t: string, w: string)
    requires |w| > 0 && 2 <= |t| <= |w| + 1 && t[0] != w[0] && t[1] != w[0]
    ensures !Includes(t, w)
  {
    forall i | 0 <= i <= |t| ensures !(w <= t[i..]) {
      if i <= 1 {
        assert t[i..][0] == t[i];
      }
    }
  }

  lemma DownloadIsLowerCase()
    ensures LowerCase("download") == "download"
  {
  }

  lemma DownloadHoldsDown()
    ensures Includes("download", "down")
  {
    IncludesMiddle("", "down", "load");
    assert "" + "down" + "load" == "download";
  }

  lemma DownloadIsNotAnxious()
    ensures !Mentions("download", AnxiousWords)
  {
    TooShortToInclude("download", "anxious");
    TooShortToInclude("download", "anxiety");
    TooShortToInclude("download", "worried");
    MentionsThree("download", AnxiousWords);
  }

  /** Words are matched as substrings: "download" holds "down". */
  lemma DownloadIsSad()
    ensures MoodOf("download") == Sad
  {
    DownloadIsLowerCase();
    DownloadHoldsDown();
    DownloadIsNotAnxious();
    MentionsThree("download", SadWords);
    MoodExactly("download");
  }

  /** With no active companion the fallback is returned. */
  lemma NoCompanionGetsFallback(message: string)
    ensures GenerateResponse(None, message) == FallbackReply
  {
  }

  /** A companion's reply is one of its four mood entries. */
  lemma ReplyIsAMoodEntry(p: Persona, message: string)
    ensures var r := p.responses;
      GenerateResponse(Some(p), message) in [r.anxious, r.sad, r.stressed, r.default]
  {
  }

  /** `r`'s greeting is none of its mood entries. */
  predicate GreetsApart(r: Responses) {
    r.greeting !in [r.anxious, r.sad, r.stressed, r.default]
  }

  lemma SarahGreetsApart() ensures GreetsApart(Sarah.responses) {}
  lemma MarcusGreetsApart() ensures GreetsApart(Marcus.responses) {}
  lemma LunaGreetsApart() ensures GreetsApart(Luna.responses) {}
  lemma AlexGreetsApart() ensures GreetsApart(Alex.responses) {}

  /** Each persona's greeting differs from its four mood entries. */
  lemma GreetingsAreDistinct()
    ensures forall i :: 0 <= i < |CompanionTable| ==> GreetsApart(CompanionTable[i].1.responses)
  {
    SarahGreetsApart();
    MarcusGreetsApart();
    LunaGreetsApart();
    AlexGreetsApart();
  }

  /** `generateResponse` never answers with a greeting. */
  lemma GreetingIsNeverAReply(id: string, message: string)
    requires Lookup(id).Some?
    ensures GenerateResponse(Lookup(id), message) != Lookup(id).value.responses.greeting
  {
    var p := Lookup(id).value;
    ReplyIsAMoodEntry(p, message);
    GreetingsAreDistinct();
  }
}
