/**
 * The chat session of test/script.js without its DOM work: the globals
 * `messageCount`, `lastMessageTime` (lines 11-12), `currentCompanion` and
 * `messageHistory` (lines 174-175), and the functions that change them:
 * `checkRateLimit` (75-91), `openChat` (225-254), `closeChatOverlay`
 * (256-261), `addMessage` (263-292) and `sendUserMessageEnhanced` (333-368).
 *
 * The clock (`Date.now()`), the formatted time (`toLocaleTimeString`) and the
 * random companion index are parameters. The reply that
 * `sendUserMessageEnhanced` schedules with `setTimeout` (lines 353-361) is
 * kept in `pendingReplies` and delivered by `DeliverReply`, in whatever order
 * the timers fire.
 */
module Chat {
  import opened Wrappers
  import opened Text
  import opened Security
  import opened Validator
  import opened Sanitizer
  import opened RateLimiter
  import opened Companions

  datatype Sender = User | Companion

  /** A history entry, `{ text: sanitizedText, sender, time }` (line 284). */
  datatype Message = Message(text: string, sender: Sender, time: string)

  /** Line 285. */
  const MaxHistory: nat := 50

  /** Lines 284-287: push, then drop the oldest entry when there are more
      than 50. */
  function PushBounded(h: seq<Message>, m: Message): seq<Message> {
    var pushed := h + [m];
    if |pushed| > MaxHistory then pushed[1..] else pushed
  }

  /** The last `n` elements of `s` (all of them when there are fewer). */
  function LastN(s: seq<Message>, n: nat): (r: seq<Message>)
    ensures |r| == if |s| <= n then |s| else n
    ensures r == s[|s| - |r|..]
  {
    if |s| <= n then s else s[|s| - n..]
  }

  /** Messages pushed one after the other. */
  function PushAll(h: seq<Message>, ms: seq<Message>): seq<Message>
    decreases |ms|
  {
    if ms == [] then h else PushAll(PushBounded(h, ms[0]), ms[1..])
  }

  /** One push keeps the last 50 messages in order: the new one last, the
      oldest dropped only when there would be 51. */
  lemma PushKeepsLastFifty(h: seq<Message>, m: Message)
    requires |h| <= MaxHistory
    ensures PushBounded(h, m) == LastN(h + [m], MaxHistory)
    ensures |h| < MaxHistory ==> PushBounded(h, m) == h + [m]
    ensures |h| == MaxHistory ==> PushBounded(h, m) == h[1..] + [m]
  {
    if |h| == MaxHistory {
      assert (h + [m])[1..] == h[1..] + [m];
    }
  }

  lemma LastNOfLastN(s: seq<Message>, t: seq<Message>, n: nat)
    ensures LastN(LastN(s, n) + t, n) == LastN(s + t, n)
  {
    var l := LastN(s, n);
    var a := LastN(l + t, n);
    var b := LastN(s + t, n);
    assert |a| == |b|;
    forall i | 0 <= i < |a| ensures a[i] == b[i] {
      var k := |l + t| - |a| + i;
      assert a[i] == (l + t)[k];
      assert b[i] == (s + t)[|s + t| - |b| + i];
      if k < |l| {
        assert (l + t)[k] == l[k] == s[|s| - |l| + k];
      } else {
        assert (l + t)[k] == t[k - |l|];
      }
    }
  }

  /** However many messages are added, the history is the last 50 of all of
      them, in order. */
  lemma {:induction false} HistoryIsLastFifty(h: seq<Message>, ms: seq<Message>)
    decreases |ms|
    requires |h| <= MaxHistory
    ensures PushAll(h, ms) == LastN(h + ms, MaxHistory)
  {
    if ms == [] {
      assert h + ms == h;
    } else {
      var m, rest := ms[0], ms[1..];
      PushKeepsLastFifty(h, m);
      var h' := PushBounded(h, m);
      HistoryIsLastFifty(h', rest);
      LastNOfLastN(h + [m], rest, MaxHistory);
      assert h + [m] + rest == h + ms;
    }
  }

  /** Why `sendUserMessageEnhanced` stops. */
  datatype SendError = Invalid(error: ValidationError) | RateLimited | NoActiveSession

  datatype SendOutcome = Sent | Failed(error: SendError)

  /** The page's session state. */
  class ChatApp {
    var messageCount: nat
    var lastMessageTime: int
    var currentCompanion: Option<Persona>
    var messageHistory: seq<Message>
    /** The trimmed user messages whose reply timer has not fired yet. */
    var pendingReplies: seq<string>

    /** The history is bounded, the counter within the maximum, and every
        stored text is sanitized. */
    ghost predicate Valid()
      reads this
    {
      && |messageHistory| <= MaxHistory
      && messageCount <= Config.maxMessagesPerMinute
      && forall i :: 0 <= i < |messageHistory| ==> Inert(messageHistory[i].text)
    }

    function Limiter(): RateState
      reads this
    {
      RateState(messageCount, lastMessageTime)
    }

    /** The page as loaded: lines 11-12 and 174-175. */
    constructor ()
      ensures Valid()
      ensures Limiter() == Initial && currentCompanion == None
      ensures messageHistory == [] && pendingReplies == []
    {
      messageCount := 0;
      lastMessageTime := 0;
      currentCompanion := None;
      messageHistory := [];
      pendingReplies := [];
    }

    /** `checkRateLimit()` with `Date.now()` as `now`; `false` where the
        source throws. */
    method CheckRateLimit(now: int) returns (admitted: bool)
      requires Valid()
      modifies this`messageCount, this`lastMessageTime
      ensures Valid()
      ensures RateDecision(admitted, Limiter()) == RateLimitStep(Config, old(Limiter()), now)
    {
      if now - lastMessageTime > Config.rateLimitWindow {
        messageCount := 0;
        lastMessageTime := now;
      }
      if messageCount >= Config.maxMessagesPerMinute {
        return false;
      }
      messageCount := messageCount + 1;
      lastMessageTime := now;
      return true;
    }

    /** `addMessage(text, sender)` with the formatted time as `time`: the
        sanitized text goes to the end of the bounded history. */
    method AddMessage(text: string, sender: Sender, time: string)
      requires Valid()
      modifies this`messageHistory
      ensures Valid()
      ensures messageHistory == PushBounded(old(messageHistory), Message(Sanitize(Config, text), sender, time))
    {
      var sanitizedText := Sanitize(Config, text);
      SanitizedIsInert(Config, text);
      messageHistory := messageHistory + [Message(sanitizedText, sender, time)];
      if |messageHistory| > MaxHistory {
        messageHistory := messageHistory[1..];
      }
    }

    /** `openChat(companionId)`. An unknown id throws at line 229 before any
        state changes; a known one starts a history holding only the
        greeting. */
    method OpenChat(id: string, time: string) returns (found: bool)
      requires Valid()
      modifies this`currentCompanion, this`messageHistory
      ensures Valid()
      ensures found <==> Lookup(id).Some?
      ensures found ==> currentCompanion == Lookup(id)
      ensures found ==>
        messageHistory == [Message(Sanitize(Config, Lookup(id).value.responses.greeting), Companion, time)]
      ensures !found ==> currentCompanion == old(currentCompanion) && messageHistory == old(messageHistory)
    {
      var companion := Lookup(id);
      if companion.None? {
        return false;
      }
      currentCompanion := companion;
      messageHistory := [];
      AddMessage(companion.value.responses.greeting, Companion, time);
      return true;
    }

    /** The start button and Ctrl+K (lines 420-424, 587-589):
        `Math.floor(Math.random() * 4)` is `pick`. */
    method OpenRandomChat(pick: nat, time: string)
      requires Valid() && pick < |CompanionIds|
      modifies this`currentCompanion, this`messageHistory
      ensures Valid()
      ensures currentCompanion == Some(CompanionTable[pick].1)
      ensures messageHistory == [Message(Sanitize(Config, CompanionTable[pick].1.responses.greeting), Companion, time)]
    {
      IdsAreTheKeys();
      var found := OpenChat(CompanionIds[pick], time);
    }

    /** `closeChatOverlay()`. Replies already scheduled still arrive. */
    method CloseChatOverlay()
      requires Valid()
      modifies this`currentCompanion, this`messageHistory
      ensures Valid()
      ensures currentCompanion == None && messageHistory == []
    {
      currentCompanion := None;
      messageHistory := [];
    }

    /** `sendUserMessageEnhanced()` with the text area's value as `input`.
        The checks run in the source's order: validation, then the rate limit
        (whose counter is used up even when the next check fails), then the
        session. A sent message is stored sanitized; its reply is scheduled
        with the trimmed text as typed. */
    method SendUserMessage(input: string, now: int, time: string) returns (outcome: SendOutcome)
      requires Valid()
      modifies this`messageCount, this`lastMessageTime, this`messageHistory, this`pendingReplies
      ensures Valid()
      ensures var message := Trim(input);
        var verdict := Validation(Config, JsString(message));
        var decision := RateLimitStep(Config, old(Limiter()), now);
        if verdict.Rejected? then
          && outcome == Failed(Invalid(verdict.error))
          && Limiter() == old(Limiter())
          && messageHistory == old(messageHistory) && pendingReplies == old(pendingReplies)
        else
          && Limiter() == decision.state
          && if !decision.admitted then
               && outcome == Failed(RateLimited)
               && messageHistory == old(messageHistory) && pendingReplies == old(pendingReplies)
             else if currentCompanion.None? then
               && outcome == Failed(NoActiveSession)
               && messageHistory == old(messageHistory) && pendingReplies == old(pendingReplies)
             else
               && outcome == Sent
               && messageHistory == PushBounded(old(messageHistory), Message(Sanitize(Config, message), User, time))
               && pendingReplies == old(pendingReplies) + [message]
    {
      var message := Trim(input);
      var verdict := ValidateInput(Config, JsString(message));
      if verdict.Rejected? {
        return Failed(Invalid(verdict.error));
      }
      var admitted := CheckRateLimit(now);
      if !admitted {
        return Failed(RateLimited);
      }
      if currentCompanion.None? {
        return Failed(NoActiveSession);
      }
      AddMessage(message, User, time);
      pendingReplies := pendingReplies + [message];
      return Sent;
    }

    /** The timer callback of lines 353-361 for the `k`-th pending reply: the
        reply is chosen by whichever companion is active when it fires. */
    method DeliverReply(k: nat, time: string)
      requires Valid() && k < |pendingReplies|
      modifies this`messageHistory, this`pendingReplies
      ensures Valid()
      ensures pendingReplies == old(pendingReplies[..k] + pendingReplies[k + 1..])
      ensures messageHistory == PushBounded(old(messageHistory),
        Message(Sanitize(Config, GenerateResponse(currentCompanion, old(pendingReplies[k]))), Companion, time))
    {
      var message := pendingReplies[k];
      pendingReplies := pendingReplies[..k] + pendingReplies[k + 1..];
      var response := GenerateResponse(currentCompanion, message);
      AddMessage(response, Companion, time);
    }
  }
}
