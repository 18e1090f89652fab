/** The page's `SECURITY_CONFIG` record (test/script.js:2-8): fixed at load
    time and never changed. */
module Security {
  datatype SecurityConfig = SecurityConfig(
    maxMessageLength: nat,
    maxMessagesPerMinute: nat,
    rateLimitWindow: int,        // milliseconds
    allowedHtmlTags: seq<string>,
    sanitizeInput: bool)

  /** The values the page ships with. */
  const Config: SecurityConfig :=
    SecurityConfig(1000, 20, 60000, ["br", "strong", "em", "p"], true)
}
