# CompanionAI chat page: message-safety pipeline and chat session

This project is a Dafny model of the logic in `test/script.js` of the CompanionAI page, a static site. On it a user chats with one of four scripted companions. Everything the page does to a message before it is shown or stored is modelled, along with the session state it guards:

- **Security configuration** (`Security`): `SECURITY_CONFIG` as a record. The page's values are the constant `Config`.
- **Input validation** (`Validator`): `validateInput` makes ordered, short-circuiting checks. The model has a specification function `Validation` and a method `ValidateInput` with the source's early-exit loop.
- **Sanitizing** (`Sanitizer`): `sanitizeInput` works in three stages:
  - dangerous-block removal;
  - the generic tag strip;
  - entity escaping and trimming.

  Each regular expression becomes a scan over suffixes.
- **Rate limiting** (`RateLimiter`): `checkRateLimit` as a step function on the two globals it changes.
- **Companions** (`Companions`):
  - the `companions` table with its exact strings;
  - `validateCompanionData`;
  - `generateResponse` and its keyword priority.
- **The chat session** (`Chat`): class `ChatApp` holds the page's globals `messageCount`, `lastMessageTime`, `currentCompanion` and `messageHistory`. Its methods are:
  - `CheckRateLimit`, `AddMessage`, `OpenChat` and `CloseChatOverlay`;
  - `SendUserMessage`, for `sendUserMessageEnhanced`;
  - `DeliverReply`, for the reply timer.
- **Text helpers** (`Text`):
  - ASCII case folding, for a regular expression's `i` flag and for `toLowerCase`;
  - case-insensitive search;
  - `String.prototype.trim` over the JavaScript whitespace set.

`SanitizerExamples` proves what the sanitizer returns on concrete inputs under the page's own configuration.

Some facts from the code matter for reading the model:

- `validateInput("")` fails with "Invalid input type": `!input` holds for the empty string. The "Message cannot be empty" error is never raised.
- Length is checked before the unsafe patterns.
- The tag regex at line 26 is built from a template literal, so its `\b` is the character U+0008, not a word boundary. Allow-listed tags such as `<br>` and `<strong>` are therefore stripped like any other tag. Only a name followed by U+0008 is spared.
- `sanitizeInput` is not idempotent: `&` becomes `&amp;`, which then becomes `&amp;amp;`.
- The reply is chosen from the trimmed message as typed, not from its sanitized form. It is chosen by the companion active when the timer fires: a chat closed in the meantime gets the fallback reply.
- Closing the chat does not cancel a scheduled reply.
- The rate counter is used up before the session check, so a send without an open chat still counts.

## Model

| member | source | states |
|---|---|---|
| Security.Config | test/script.js:2-8 | the page's `SECURITY_CONFIG`: at most 1000 characters, 20 messages per 60000 ms window, allow-list `br`, `strong`, `em`, `p`, sanitizing on |
| Text.ContainsCI | test/script.js:67 | `/p/i.test(s)` for a pattern without metacharacters: `p` occurs at some position, up to ASCII case (`FindCINoneIffAbsent`) |
| Text.Includes | test/script.js:299-303 | `s.includes(w)`: `w` occurs exactly at some position (`IncludesMiddle`) |
| Text.IsJsWhitespace | test/script.js:36 | the characters `trim` removes: ECMAScript WhiteSpace and LineTerminator: tab, vertical tab, form feed, space, no-break space, U+FEFF, every space separator, line feed, carriage return, U+2028 and U+2029 |
| Text.LowerCase | test/script.js:296 | `toLowerCase` on ASCII letters; it distributes over concatenation (`LowerCaseConcat`) |
| Text.Trim | test/script.js:36 | `trim`: the slice left after removing the JavaScript-whitespace runs at both ends (`TrimBounds`, `TrimmedHasNoOuterWhitespace`, `TrimKeepsTrimmed`) |
| Text.FoldsOnlyWithItself | test/script.js:54-63 | under the `i` flag, for the ASCII patterns of the page, a character that is not an ASCII letter matches only itself |
| Text.LowerCaseConcat | test/script.js:296 | lower-casing distributes over concatenation |
| Text.FindCI | test/script.js:19-22 | a found index is a case-insensitive match of the pattern that fits in the text |
| Text.FindCIIsFirst | test/script.js:19-22 | no match starts before the index found: the closing tag found is the first one |
| Text.FindCINoneIffAbsent | test/script.js:19-22 | the search finds nothing exactly when the pattern occurs nowhere, in any case |
| Text.FindCIAt | test/script.js:19-22 | a match at `j` with none before it is what the search returns |
| Text.PrefixStartsWithCI | test/script.js:60-63 | an exact prefix is a case-insensitive match |
| Text.IndexOf | test/script.js:26 | the first occurrence of a character: it is there, none is before it, and `None` means it is absent |
| Text.IncludesMiddle | test/script.js:299-303 | `includes` finds a word wherever it sits |
| Text.TrailingOfSuffix | test/script.js:36 | the trailing whitespace of a suffix is all whitespace in the whole string, and the character before it is not |
| Text.TrimBounds | test/script.js:36 | `trim` returns the slice between all-whitespace outer parts, whose own ends are not whitespace |
| Text.TrimmedHasNoOuterWhitespace | test/script.js:36 | the result of `trim` neither begins nor ends with whitespace |
| Text.TrimKeepsTrimmed | test/script.js:36 | `trim` leaves a string without outer whitespace unchanged |
| Validator.XssPatterns | test/script.js:53-64 | the ten unsafe patterns, in the order they are tested |
| Validator.Validation | test/script.js:39-72 | the verdict of `validateInput`: type check, length limit, then the patterns in order; characterised by `AcceptedExactly` |
| Validator.ValidateInput | test/script.js:39-73 | the loop that stops at the first matching pattern gives exactly the verdict of the ordered checks |
| Validator.AcceptedExactly | test/script.js:39-72 | accepted iff non-empty, at most 1000 long and no pattern at any position in any case |
| Validator.EmptyIsInvalidType | test/script.js:40-42 | `""` and a non-string fail the type check |
| Validator.NeverEmptyError | test/script.js:48-50 | the empty-message error is never produced |
| Validator.LengthBeforePatterns | test/script.js:44-46 | an over-long message fails as too long even when it holds `<script` |
| Validator.PatternAnywhereIsUnsafe | test/script.js:53-70 | a pattern anywhere, in any case, makes an admissible message unsafe |
| Validator.VerdictIgnoresCase | test/script.js:53-70 | messages equal up to ASCII case get the same verdict |
| Sanitizer.Sanitize | test/script.js:15-37 | `sanitizeInput`: identity when switched off, else block removal, tag strip, escape and trim in that order; its output is inert (`SanitizedIsInert`) |
| Sanitizer.RemoveBlocks | test/script.js:19-22 | one global replace of one element's blocks by the empty string; its scan is characterised by `RemoveBlocksAt` and `RemoveBlocksKeepsPrefix` |
| Sanitizer.StripTags | test/script.js:26 | one global replace of the unprotected tags by the empty string; no tag remains (`StripTagsLeavesNoTag`) |
| Sanitizer.EscapeHtml | test/script.js:29-34 | the five replacements, `&` first; equal to escaping each character once (`EscapeHtmlIsPerCharacter`) |
| Sanitizer.RemoveDangerousBlocks | test/script.js:19-22 | the four block replaces in a row: script, iframe, object, then embed |
| Sanitizer.AllowedNameAt | test/script.js:25-26 | the text begins, in any case, with one allow-listed name followed by U+0008 |
| Sanitizer.Protected | test/script.js:26 | the negative lookahead after `<` fails: an optional `/`, then an allow-listed name and U+0008 (`MatchEndsInBackspace`) |
| Sanitizer.ReplaceAll | test/script.js:30-34 | one `.replace(/c/g, rep)`: every `c` becomes `rep`, every other character stays (`ReplaceAllConcat`, `ReplaceAllAbsent`) |
| Sanitizer.BlockLen | test/script.js:19-22 | a block match is non-empty and lies within the text |
| Sanitizer.BlockLenAt | test/script.js:19-22 | `<name` in any case and a word boundary, then a closing tag in any case with none before it: the block ends right after that closing tag |
| Sanitizer.RemoveBlocksKeepsPrefix | test/script.js:19-22 | characters where no block begins are kept, and the scan resumes after them |
| Sanitizer.RemoveBlocksAt | test/script.js:19-22 | the leftmost block is removed whole, the text before it is kept, and the global replace resumes after the block |
| Sanitizer.TagLen | test/script.js:26 | a tag match has more than two characters and lies within the text |
| Sanitizer.TagLenAt | test/script.js:26 | an unprotected `<` whose first `>` comes after at least one other character begins a tag ending at that `>` |
| Sanitizer.DisabledIsIdentity | test/script.js:16 | with sanitizing switched off the input is returned unchanged |
| Sanitizer.ReplaceAllConcat | test/script.js:30-34 | a global replacement distributes over concatenation |
| Sanitizer.ReplaceAllAbsent | test/script.js:30-34 | replacing a character that is absent changes nothing |
| Sanitizer.EscapeHtmlConcat | test/script.js:29-34 | the escape chain distributes over concatenation |
| Sanitizer.EscapeTail | test/script.js:31-34 | the later replacements leave alone text without their characters |
| Sanitizer.EscapeHtmlChar | test/script.js:29-34 | on one character the chain performs that character's single replacement: `&` first, so no entity is escaped twice |
| Sanitizer.EscapeHtmlIsPerCharacter | test/script.js:29-34 | the chain of five replacements is the per-character escape |
| Sanitizer.EscapeCharIsInert | test/script.js:29-34 | an escaped character has no markup character, and its only `&` begins an entity |
| Sanitizer.EscapedIsInert | test/script.js:29-34 | escaped text has no `<`, `>`, `"` or `'`, and every `&` begins one of the five entities |
| Sanitizer.PrefixOfConcat | test/script.js:29-34 | an entity at the front survives appending |
| Sanitizer.CutKeepsEntity | test/script.js:36 | cutting off trailing whitespace keeps an entity that ends in `;` |
| Sanitizer.EntitySurvivesTrim | test/script.js:36 | `trim` cuts no entity short |
| Sanitizer.SanitizedIsInert | test/script.js:15-37 | the sanitized output has no markup character, every `&` begins an entity, and there is no outer whitespace |
| Sanitizer.SanitizeByStages | test/script.js:15-37 | the result is the trimmed escape of the stripped block-free text |
| Sanitizer.SanitizeAfterBlocks | test/script.js:19-37 | sanitizing depends only on the text after block removal when that text is block-free |
| Sanitizer.RemoveBlocksAddsNothing | test/script.js:19-22 | block removal introduces no character that was absent |
| Sanitizer.RemoveBlocksKeepsUnopened | test/script.js:19-22 | text where no block opens is unchanged by block removal |
| Sanitizer.StripTagsAddsNothing | test/script.js:26 | the tag strip introduces no character that was absent |
| Sanitizer.RemoveBlocksKeepsPlainText | test/script.js:19-22 | text without `<` is unchanged by block removal |
| Sanitizer.StripTagsKeepsPlainPrefix | test/script.js:26 | a `<`-free prefix is kept by the tag strip |
| Sanitizer.StripTagsKeepsPlainText | test/script.js:26 | text without `<` is unchanged by the tag strip |
| Sanitizer.StripTagsKeepsPrefix | test/script.js:26 | characters where no tag begins are kept, and the scan resumes after them |
| Sanitizer.StripTagsAt | test/script.js:26 | the leftmost tag is removed whole, the text before it is kept, and the global replace resumes after the tag |
| Sanitizer.StripTagsLength | test/script.js:26 | the tag strip never lengthens text |
| Sanitizer.EscapeEachKeepsPlainText | test/script.js:29-34 | text without special characters is unchanged by escaping |
| Sanitizer.PlainTextIsEscapedAndTrimmed | test/script.js:15-37 | without `<` only escaping and trimming act |
| Sanitizer.OrdinaryTextIsUnchanged | test/script.js:15-37 | ordinary trimmed text passes through unchanged |
| Sanitizer.MatchHasNoLt | test/script.js:26 | a match of a name without `<` contains no `<` |
| Sanitizer.StartsWithCISamePrefix | test/script.js:26 | a case-insensitive match depends only on the matched prefix |
| Sanitizer.KeptNameIsProtected | test/script.js:26 | an allow-listed name with U+0008 after a `<` is still there once the rest is stripped |
| Sanitizer.KeptCloserIsProtected | test/script.js:26 | the same for `</` followed by an allow-listed name and U+0008 |
| Sanitizer.KeptLtBeginsNoTag | test/script.js:26 | after an unprotected `<` that begins no tag, the stripped rest has no `>` or begins with one |
| Sanitizer.KeptCharBeginsNoTag | test/script.js:26 | a kept character starts no tag in the output either |
| Sanitizer.StripTagsLeavesNoTag | test/script.js:26 | no tag begins anywhere in the stripped text: one pass reaches a fixpoint of the tag regex |
| Sanitizer.MatchEndsInBackspace | test/script.js:26 | the allow-list lookahead requires U+0008 right after the name |
| Sanitizer.NoBackspaceNoProtection | test/script.js:26 | without U+0008 no tag is protected by the allow-list |
| Sanitizer.UnstrippedLt | test/script.js:26 | an unprotected `<` that starts no tag is `<>` or has no `>` after it |
| Sanitizer.StripTagsWithoutBackspace | test/script.js:25-26 | without U+0008 every `<` left after the strip is `<>` or has no `>` after it, so allow-listed tags are not kept |
| SanitizerExamples.SanitizeIsNotIdempotent | test/script.js:29-36 | `&` sanitizes to `&amp;`, and sanitizing again gives `&amp;amp;` |
| SanitizerExamples.AllowedTagIsStripped | test/script.js:25-26 | `a<br>b` sanitizes to `ab` |
| SanitizerExamples.BackspaceTagIsKeptAndEscaped | test/script.js:26-34 | `<br` U+0008 `>` survives the strip and is escaped |
| SanitizerExamples.FormattedTextIsStrippedAndEscaped | test/script.js:15-37 | `<p>a</p>&` sanitizes to `a&amp;`: both tags go and the ampersand is escaped |
| SanitizerExamples.ScriptBlockIsRemoved | test/script.js:19 | `<script>alert(1)</script>hello` sanitizes to `hello` |
| SanitizerExamples.BlockRemovalIsNotAFixpoint | test/script.js:19 | one pass over `<scr<script></script>ipt></script>` leaves a script block that a second pass removes |
| RateLimiter.Initial | test/script.js:11-12 | the globals at page load: count 0 and stamp 0 |
| RateLimiter.AfterReset | test/script.js:79-82 | the reset of the counter and the stamp once the window has passed (`ExpiredWindowStartsOver`) |
| RateLimiter.RateLimitStep | test/script.js:75-91 | one call of `checkRateLimit`: its verdict and the new globals (`AdmittedExactly`, `RejectionChangesNothing`, `AdmissionCountsAndStamps`) |
| RateLimiter.ExpiredWindowStartsOver | test/script.js:79-89 | a call after the window starts a new count at 1 from `now` |
| RateLimiter.AdmittedExactly | test/script.js:79-86 | admitted iff the window has passed or the count is below the maximum |
| RateLimiter.RejectionChangesNothing | test/script.js:79-86 | a rejected call leaves both globals as they were |
| RateLimiter.AdmissionCountsAndStamps | test/script.js:88-90 | an admitted call counts one more than after the reset and stamps `now` |
| RateLimiter.StepKeepsBound | test/script.js:84-89 | one call keeps the count within the maximum |
| RateLimiter.RunKeepsBound | test/script.js:75-91 | any sequence of calls keeps the count within the maximum |
| RateLimiter.CountNeverExceedsMaximum | test/script.js:11-12 | from the initial globals the count never exceeds 20, whatever the clock says |
| RateLimiter.AtMostMaximumPerWindow | test/script.js:75-91 | calls within one window after the last admission are admitted at most as often as the count allows |
| Companions.CompanionTable | test/script.js:123-172 | the four personas under the ids `sarah`, `marcus`, `luna`, `alex`, in declaration order (`IdsAreTheKeys`, `TableIsValid`) |
| Companions.ValidPersona | test/script.js:180 | the test of line 180: a non-empty name and a non-empty title |
| Companions.ReplyFor | test/script.js:299-306 | the read of `responses.anxious`, `.sad`, `.stressed` or `.default` for the mood |
| Companions.FallbackReply | test/script.js:310 | the text returned from the `catch` of `generateResponse` |
| Companions.Lookup | test/script.js:228-232 | `companions[companionId]` on the page's table: the four ids find their personas, any other id finds nothing (`IdsAreTheKeys`, `UnknownIdFindsNothing`) |
| Companions.MoodOf | test/script.js:296-307 | the keyword tests on the lower-cased message, in order (`MoodExactly`) |
| Companions.GenerateResponse | test/script.js:294-312 | the current persona's entry for the mood, or the fallback text without a companion (`ReplyIsAMoodEntry`, `NoCompanionGetsFallback`) |
| Companions.LookupIn | test/script.js:228-232 | `None` iff no entry has the id; otherwise the entry under that id |
| Companions.IdsAreTheKeys | test/script.js:421-422 | the ids are the table's keys, each finding its persona |
| Companions.UnknownIdFindsNothing | test/script.js:228-229 | any other id finds nothing |
| Companions.ValidateCompanionData | test/script.js:178-185 | `None` iff every entry has a name and a title; otherwise the id of the first entry without them |
| Companions.TableIsValid | test/script.js:123-172 | the page's table passes the check of line 180 |
| Companions.MentionsThree | test/script.js:299-303 | a group is mentioned iff one of its three words occurs |
| Companions.MoodExactly | test/script.js:296-307 | a group wins iff one of its words occurs and none of an earlier group does |
| Companions.WordAnywhereIsMentioned | test/script.js:296-303 | a group word in any case anywhere in the message is mentioned |
| Companions.AnxiousWinsAnywhere | test/script.js:299-300 | an anxious word anywhere selects the anxious reply |
| Companions.TooShortToInclude | test/script.js:299-300 | `includes` cannot find a word in a text at most one longer whose first two characters differ from the word's first |
| Companions.DownloadIsSad | test/script.js:301-302 | substring matching: "download" selects the sad reply |
| Companions.NoCompanionGetsFallback | test/script.js:308-311 | with no companion the fallback string is returned |
| Companions.ReplyIsAMoodEntry | test/script.js:299-307 | a companion's reply is one of its four mood entries |
| Companions.SarahGreetsApart | test/script.js:129-133 | the Sarah persona's greeting differs from each of that persona's mood entries |
| Companions.MarcusGreetsApart | test/script.js:141-145 | the Marcus persona's greeting differs from each of that persona's mood entries |
| Companions.LunaGreetsApart | test/script.js:153-157 | the Luna persona's greeting differs from each of that persona's mood entries |
| Companions.AlexGreetsApart | test/script.js:165-169 | the Alex persona's greeting differs from each of that persona's mood entries |
| Companions.GreetingsAreDistinct | test/script.js:123-172 | no persona's greeting equals one of its mood entries |
| Companions.GreetingIsNeverAReply | test/script.js:294-307 | `generateResponse` never returns the greeting |
| Chat.MaxHistory | test/script.js:285 | the history holds at most 50 messages |
| Chat.PushBounded | test/script.js:284-287 | `push` and, above 50, `shift`; it keeps the last 50 (`PushKeepsLastFifty`) |
| Chat.LastN | test/script.js:284-287 | the last `n` messages, as a suffix of the given length |
| Chat.PushKeepsLastFifty | test/script.js:284-287 | one push keeps the last 50: appended below 50, the oldest dropped at 50 |
| Chat.LastNOfLastN | test/script.js:284-287 | keeping the last `n` before appending does not change the last `n` after |
| Chat.HistoryIsLastFifty | test/script.js:284-287 | after any pushes the history is the last 50 of all messages, in order |
| Chat.ChatApp.constructor | test/script.js:11-12 | the initial globals: count 0, stamp 0, no companion, empty history |
| Chat.ChatApp.CheckRateLimit | test/script.js:75-91 | the globals change as the rate-limit step says, and admission is its verdict |
| Chat.ChatApp.AddMessage | test/script.js:263-287 | the sanitized message is pushed onto the bounded history, and the history stays inert and at most 50 |
| Chat.ChatApp.OpenChat | test/script.js:225-254 | a known id sets the companion and a history of only its sanitized greeting; an unknown id changes nothing |
| Chat.ChatApp.OpenRandomChat | test/script.js:420-424 | the picked companion is opened with its greeting |
| Chat.ChatApp.CloseChatOverlay | test/script.js:256-261 | no companion and an empty history |
| Chat.ChatApp.SendUserMessage | test/script.js:333-368 | trim, validate, rate-limit, session check, in that order. Each failure's state is stated. A sent message is stored sanitized and its trimmed text is queued for a reply |
| Chat.ChatApp.DeliverReply | test/script.js:353-361 | the fired reply leaves the queue, and the current companion's response to the trimmed message is pushed sanitized |

## Left out

- Markup the page builds, element lookups, scrolling, focus and the textarea resize (lines 107-120, 196-222, 233-235, 238, 268-281, 370-467, 469-574) are not modelled. They have no effect on the modelled state.
- `secureLog` and `showSecurityAlert` (lines 93-105, 314-331) are not modelled. They only write to the console and the page.
- Theming is not modelled. This covers `updateChatTheme` and the wrapped `openChat` of lines 595-629, which only set styles. `OpenChat` models the original function.
- Devtools and right-click blocking and the `beforeunload` clearing (lines 632-654) are not modelled. They are browser plumbing.
- Time and randomness come in as parameters:
  - `Date.now()` is a parameter `now`.
  - `toLocaleTimeString` is a parameter `time`.
  - `Math.random()` for the companion is a parameter `pick`.
  - The typing delay is not modelled: a pending reply is delivered whenever `DeliverReply` is called, in any order.
- The typing indicator (line 350) and the clearing of the text area (line 347) are not modelled. These are DOM effects.
- The suggestion buttons and the per-companion buttons (lines 394-417) are not modelled. They only call `openChat` or `sendUserMessageEnhanced` after checks on the state and the text length (lines 398 and 409-410).
- Case folding is ASCII only. `/i` without `/u` never maps a non-ASCII character onto an ASCII one, so ASCII folding is exact for the page's patterns, which are all ASCII (lines 19-22, 26, 54-63); it would not be for a pattern with a non-ASCII letter, since `é` and `É` fold together. `toLowerCase` in `generateResponse` also maps some non-ASCII characters, such as U+212A KELVIN SIGN to `k`; the model does not.
- Strings are sequences of Unicode code points, not UTF-16 code units. Lengths differ for characters outside the Basic Multilingual Plane.
- Companions.Lookup: the model knows only the four table ids. `companions[id]` in the source also finds inherited properties such as `constructor`. With that id, `openChat` passes the check of line 228, sets `currentCompanion` to the `Object` function (line 232) and empties the history (line 239), then throws at line 242 because `responses` is undefined; the `catch` runs with that state already changed.
- Companions.ValidPersona: `responses` is always present in the model, so the third test of line 180 cannot fail.
- Sanitizer.Sanitize: allow-listed names are taken as plain words. The source joins them into a regular expression unescaped; the page's four names contain no metacharacter.
- Chat.ChatApp.AddMessage: the `catch` of lines 288-291 is not modelled. Nothing in the modelled part of the body can throw.
