/**
 * `checkRateLimit` (test/script.js:75-91) as a step function on the two
 * globals it mutates, `messageCount` and `lastMessageTime` (lines 11-12).
 * `Date.now()` is the parameter `now`; a thrown "Rate limit exceeded" is an
 * admission of `false`. The method that performs the step on the page's state
 * is `Chat.ChatApp.CheckRateLimit`; this module is its specification.
 */
module RateLimiter {
  import opened Security

  datatype RateState = RateState(messageCount: nat, lastMessageTime: int)

  /** Lines 11-12. */
  const Initial: RateState := RateState(0, 0)

  /** The outcome of one call: whether it returns (rather than throws), and
      the globals after it. */
  datatype RateDecision = RateDecision(admitted: bool, state: RateState)

  /** More than a window has passed since the last admitted message. */
  predicate WindowExpired(cfg: SecurityConfig, st: RateState, now: int) {
    now - st.lastMessageTime > cfg.rateLimitWindow
  }

  /** Lines 79-82: the reset at the start of every call. */
  function AfterReset(cfg: SecurityConfig, st: RateState, now: int): RateState {
    if WindowExpired(cfg, st, now) then RateState(0, now) else st
  }

  /** Lines 84-89. The reset is kept even when the call then throws. */
  function RateLimitStep(cfg: SecurityConfig, st: RateState, now: int): RateDecision {
    var s := AfterReset(cfg, st, now);
    if s.messageCount >= cfg.maxMessagesPerMinute then RateDecision(false, s)
    else RateDecision(true, RateState(s.messageCount + 1, now))
  }

  /** A call after the window has passed starts a new count at 1. */
  lemma ExpiredWindowStartsOver(cfg: SecurityConfig, st: RateState, now: int)
    requires cfg.maxMessagesPerMinute > 0 && WindowExpired(cfg, st, now)
    ensures RateLimitStep(cfg, st, now) == RateDecision(true, RateState(1, now))
  {
  }

  /** Admission, both ways: the window has passed or the count is below the
      maximum. */
  lemma AdmittedExactly(cfg: SecurityConfig, st: RateState, now: int)
    requires cfg.maxMessagesPerMinute > 0
    ensures RateLimitStep(cfg, st, now).admitted <==>
      WindowExpired(cfg, st, now) || st.messageCount < cfg.maxMessagesPerMinute
  {
  }

  /** A rejected call leaves both globals as they were. */
  lemma RejectionChangesNothing(cfg: SecurityConfig, st: RateState, now: int)
    requires cfg.maxMessagesPerMinute > 0
    ensures !RateLimitStep(cfg, st, now).admitted ==> RateLimitStep(cfg, st, now).state == st
  {
  }

  /** An admitted call counts one more message than the count after the reset
      and remembers `now`. */
  lemma AdmissionCountsAndStamps(cfg: SecurityConfig, st: RateState, now: int)
    ensures var d := RateLimitStep(cfg, st, now);
      d.admitted ==>
        && d.state.messageCount == AfterReset(cfg, st, now).messageCount + 1
        && d.state.lastMessageTime == now
        && d.state.messageCount <= cfg.maxMessagesPerMinute
  {
  }

  /** A count within the maximum stays within it. */
  lemma StepKeepsBound(cfg: SecurityConfig, st: RateState, now: int)
    requires st.messageCount <= cfg.maxMessagesPerMinute
    ensures RateLimitStep(cfg, st, now).state.messageCount <= cfg.maxMessagesPerMinute
  {
  }

  /** The globals after calls at the given times, in order. */
  function Run(cfg: SecurityConfig, st: RateState, times: seq<int>): RateState
    decreases |times|
  {
    if times == [] then st else Run(cfg, RateLimitStep(cfg, st, times[0]).state, times[1..])
  }

  /** How many of those calls are admitted. */
  function Admissions(cfg: SecurityConfig, st: RateState, times: seq<int>): nat
    decreases |times|
  {
    if times == [] then 0
    else
      var d := RateLimitStep(cfg, st, times[0]);
      (if d.admitted then 1 else 0) + Admissions(cfg, d.state, times[1..])
  }

  lemma {:induction false} RunKeepsBound(cfg: SecurityConfig, st: RateState, times: seq<int>)
    decreases |times|
    requires st.messageCount <= cfg.maxMessagesPerMinute
    ensures Run(cfg, st, times).messageCount <= cfg.maxMessagesPerMinute
  {
    if times != [] {
      StepKeepsBound(cfg, st, times[0]);
      RunKeepsBound(cfg, RateLimitStep(cfg, st, times[0]).state, times[1..]);
    }
  }

  /** From the page's initial globals, whatever the clock says, the counter
      never exceeds the maximum. */
  lemma CountNeverExceedsMaximum(cfg: SecurityConfig, times: seq<int>)
    ensures Run(cfg, Initial, times).messageCount <= cfg.maxMessagesPerMinute
  {
    RunKeepsBound(cfg, Initial, times);
  }

  /** Calls that all fall within one window after the last admitted message,
      in time order, are admitted at most as often as the count has room for:
      together with the earlier ones, at most the maximum. */
  lemma {:induction false} AtMostMaximumPerWindow(cfg: SecurityConfig, st: RateState, times: seq<int>, start: int)
    decreases |times|
    requires st.messageCount <= cfg.maxMessagesPerMinute && start <= st.lastMessageTime
    requires forall i :: 0 <= i < |times| ==> st.lastMessageTime <= times[i] <= start + cfg.rateLimitWindow
    requires forall i, j :: 0 <= i < j < |times| ==> times[i] <= times[j]
    ensures st.messageCount + Admissions(cfg, st, times) <= cfg.maxMessagesPerMinute
  {
    if times != [] {
      var d := RateLimitStep(cfg, st, times[0]);
      assert !WindowExpired(cfg, st, times[0]);
      assert d.state.lastMessageTime == st.lastMessageTime || d.state.lastMessageTime == times[0];
      assert forall i :: 0 <= i < |times| - 1 ==> times[1..][i] == times[i + 1];
      AtMostMaximumPerWindow(cfg, d.state, times[1..], start);
    }
  }
}
