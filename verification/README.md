# GG AI Chat relay, modelled in Dafny

GG AI Chat is a WordPress plugin. It adds a chat widget that talks to one REST endpoint, `gg-ai-chat/v1/message`. The endpoint's handler, `gg_ai_chat_response`, relays the visitor's message to OpenAI's chat-completions API. This project models that handler as one pass over an untrusted request:

1. **Nonce check.** A missing, falsy or unverified `X-WP-Nonce` header is answered 403 "Invalid nonce.".
2. **Body parsing.** `message` is read through `sanitize_text_field`. An empty result is answered 400 "Empty message." before the history is sanitised (the `history` field is read and type-checked first, but nothing depends on it yet). A `history` field that is not an array reads as an empty history.
3. **History sanitiser.** One `foreach` loop keeps, in order, the entries whose lower-cased role is `user` or `assistant` and whose tag-stripped content is non-empty. Every other entry is skipped silently.
4. **Recency bound.** `array_slice($clean, -20)` keeps the last 20 sanitised turns.
5. **Prompt assembly.** The message list is the fixed system turn, then the bounded history, then `{role: "user", content: message}`.
6. **API key check.** A missing, `""` or `"0"` `OPENAI_API_KEY` is answered 500 before any outbound call.
7. **Single outbound call.** Its outcome is mapped to the response:
   - a transport error gives 500 with the transport message;
   - a non-2xx code is echoed, with the upstream `error.message` or "OpenAI error (HTTP code).";
   - a 2xx answer gives `choices[0].message.content`, or a fixed apology.

Modules:

- `PhpValues` (`php_values.dfy`) holds decoded JSON values and the PHP operations the handler uses on them:
  - `isset` on nested reads;
  - truthiness;
  - `(string)` casts, including integer-to-decimal;
  - ASCII `strtolower`.
- `Sanitizer` (`sanitizer.dfy`) holds the history sanitiser:
  - the loop itself is the method `SanitizeHistory`;
  - the method is proved equal to the function `Sanitized`, an order-preserving filter;
  - the lemmas about the sanitiser are proved on `Sanitized`.
- `Prompt` (`prompt.dfy`) holds the recency bound and the message-list assembly.
- `Relay` (`relay.dfy`) holds the handler as a pure function, `Handle`. It takes:
  - the WordPress functions it calls (`Platform`);
  - the API key;
  - the request;
  - the completion service as a function from the outbound request to its outcome.

  The response records the outbound request, if one was made, so "no call was made" can be stated directly.

## Model

| member | source | states |
|---|---|---|
| `PhpValues.Find` | gg-ai-chat.php:44-45 | an array lookup finds nothing exactly when no entry has the key; otherwise the result is an entry stored under the key |
| `PhpValues.IssetGet` | gg-ai-chat.php:44-45 | a read under `isset` succeeds exactly when the value is an array whose lookup of the key finds a non-null value, and then gives that value |
| `PhpValues.Dig` | gg-ai-chat.php:111 | a nested `isset` read that succeeds starts from an array and never gives null; nothing is read out of a missing value |
| `PhpValues.DigTwoKeys` | gg-ai-chat.php:111 | `$v[a][b]` under `isset` is the `isset` read of `b` in the `isset` read of `a`, and absent when that is absent |
| `PhpValues.DigFourKeys` | gg-ai-chat.php:115 | `$v[a][b][c][d]` under `??` reads `a`, then `b`, then the remaining two keys, and is absent as soon as one step is absent |
| `PhpValues.FalsyMatchesStringCast` | gg-ai-chat.php:38 | outside arrays, a value is falsy exactly when its `(string)` cast is "" or "0" |
| `PhpValues.NatToDecimal` | gg-ai-chat.php:111 | the decimal spelling of a number is non-empty, all digits, with no leading zero |
| `PhpValues.DecimalRoundTrip` | gg-ai-chat.php:111 | reading back the decimal spelling of a number gives the number |
| `PhpValues.IntToString` | gg-ai-chat.php:111 | an integer's string is non-empty, starts with '-' exactly when the integer is negative, and the digits after any '-' spell the integer's absolute value, with no leading zero except for 0 itself |
| `PhpValues.LowerChar` | gg-ai-chat.php:54 | `strtolower` on one character: an ASCII capital becomes its small letter, anything else is unchanged |
| `PhpValues.LowerAscii` | gg-ai-chat.php:54 | `strtolower` keeps the length and lower-cases each character in place |
| `PhpValues.LowerAsciiUnchanged` | gg-ai-chat.php:54 | a string without ASCII capitals is unchanged by `strtolower` |
| `PhpValues.LowerAsciiIdempotent` | gg-ai-chat.php:54 | lower-casing twice equals lower-casing once, and the result holds no ASCII capital |
| `Sanitizer.CleanTurn` | gg-ai-chat.php:54-62 | a kept entry has role "user" or "assistant", non-empty content, and the entry's lower-cased role |
| `Sanitizer.FilterMap` | gg-ai-chat.php:52-63 | the shape of the sanitising loop: a filter-and-map over the input, never longer than it |
| `Sanitizer.FilterMapIsOrderedFilter` | gg-ai-chat.php:52-63 | the filter keeps the images of entries at strictly increasing positions, and every other entry is one the guard drops |
| `Sanitizer.FilterMapAppend` | gg-ai-chat.php:52-63 | filtering a concatenation is the concatenation of the filtered parts |
| `Sanitizer.FilterMapEmptyIff` | gg-ai-chat.php:52-63 | the filter gives nothing exactly when the guard drops every entry |
| `Sanitizer.FilterMapKeepsAll` | gg-ai-chat.php:52-63 | when the guard drops nothing, the output is as long as the input |
| `Sanitizer.Sanitized` | gg-ai-chat.php:52-63 | the sanitised history is no longer than the input, and every turn in it has an allowed role and non-empty content |
| `Sanitizer.SanitizeHistory` | gg-ai-chat.php:52-63 | the `foreach` loop that appends kept turns computes exactly `Sanitized` of the input |
| `Sanitizer.SanitizedIsOrderedFilter` | gg-ai-chat.php:52-63 | the output is a subsequence of the input: the sanitised forms of entries at strictly increasing positions; every other entry is one the sanitiser skips |
| `Sanitizer.SanitizedAppend` | gg-ai-chat.php:52-63 | sanitising a concatenation is the concatenation of the sanitised parts, so no kept entry moves |
| `Sanitizer.SanitizedEmptyIff` | gg-ai-chat.php:52-63 | the result is empty exactly when every entry is invalid (an all-invalid history gives `[]`, never an error) |
| `Sanitizer.SanitizedKeepsAllValid` | gg-ai-chat.php:52-63 | when every entry is valid, the output is as long as the input |
| `Sanitizer.CleanTurnStringRole` | gg-ai-chat.php:54-62 | any entry whose `role` is a string r, in any key order and with any other fields, is kept exactly when lower(r) is user/assistant and its stripped content is non-empty, and is kept as `Turn(lower(r), strip(content))` |
| `Sanitizer.KeyOrderIrrelevant` | gg-ai-chat.php:54-62 | `{content, name, role}` is sanitised exactly like `{role, content}` |
| `Sanitizer.EntryKeptIff` | gg-ai-chat.php:54-62 | the entry `{role: r, content: c}` with string fields is kept exactly when lower(r) is user/assistant and strip(c) is non-empty, and is kept as `Turn(lower(r), strip(c))` |
| `Sanitizer.NonStringRoleDropped` | gg-ai-chat.php:54-55 | an entry whose role is present but not a string (an integer, a boolean, an array) is dropped |
| `Sanitizer.UpperCaseRoleKept` | gg-ai-chat.php:54-55 | role "USER" is kept and stored as "user" |
| `Sanitizer.AdminRoleDropped` | gg-ai-chat.php:55 | `{role: "admin", content: "x"}` is dropped |
| `Sanitizer.SystemRoleDropped` | gg-ai-chat.php:54-55 | an entry whose role lower-cases to "system" is dropped |
| `Sanitizer.RolelessEntryDropped` | gg-ai-chat.php:54-55 | an entry that is not an array, or has no role or a null role, is dropped |
| `Sanitizer.RenderAll` | gg-ai-chat.php:62 | writing turns back as `{role, content}` entries keeps their number and order |
| `Sanitizer.CleanRendered` | gg-ai-chat.php:54-62 | a well-formed turn whose content stripping leaves alone survives the sanitiser unchanged |
| `Sanitizer.SanitizeRenderedIsIdentity` | gg-ai-chat.php:52-63 | such turns, written back and sanitised again, come back unchanged |
| `Sanitizer.ResanitizeIsIdentity` | gg-ai-chat.php:52-63 | sanitising is idempotent whenever tag stripping is idempotent |
| `Prompt.Recent` | gg-ai-chat.php:66 | the bounded history has min(n, 20) turns and is exactly the last that many turns, in order |
| `Prompt.RecentWellFormed` | gg-ai-chat.php:66 | bounding keeps every turn well-formed |
| `Prompt.Assemble` | gg-ai-chat.php:69-80 | the message list is two longer than the history, starts with the fixed system turn, ends with the user's message and holds the history unchanged in between |
| `Prompt.CountRole` | gg-ai-chat.php:69-80 | the number of turns carrying a role, at most the list's length; it is the measure the one-system-turn property is stated with |
| `Prompt.CountRoleAppend` | gg-ai-chat.php:69-80 | counting a role over a concatenation adds up the counts of the parts |
| `Prompt.NoSystemInHistory` | gg-ai-chat.php:55 | a history of user and assistant turns holds no system turn |
| `Prompt.BuildMessages` | gg-ai-chat.php:52-80 | the prompt has the bounded history's length plus two, at most 22 turns, starts with the system turn and ends with the user's message |
| `Prompt.ExactlyOneSystemTurn` | gg-ai-chat.php:52-80 | for every client history, the message list holds exactly one system turn, the first; all the others are user or assistant turns |
| `Prompt.HistoryPartIsRecentSuffix` | gg-ai-chat.php:52-80 | the message list has min(n, 20) + 2 turns, and its middle is the last min(n, 20) sanitised turns |
| `Prompt.EmptyHistoryGivesTwoMessages` | gg-ai-chat.php:69-80 | with no history the message list is the system turn and the user's message |
| `Prompt.TwentyFiveValidTurnsGiveTwentyTwoMessages` | gg-ai-chat.php:52-80 | 25 valid history entries give 20 bounded turns and 22 messages |
| `Relay.DecodedBody` | gg-ai-chat.php:43 | an undecodable or falsy body reads as `[]`; any other decoded body is used as it is |
| `Relay.NonceAccepted` | gg-ai-chat.php:38 | a missing, "" or "0" header is never accepted; an accepted header is one `wp_verify_nonce` approves |
| `Relay.MessageReachesPrompt` | gg-ai-chat.php:44-80 | when the nonce passes, the message is non-empty and the key is set, a call is made; the `message` field was present and its `sanitize_text_field` result is the prompt's last turn, as a user turn |
| `Relay.HistoryOf` | gg-ai-chat.php:45 | an array `history` gives its values in order; an absent or non-array one gives the empty history |
| `Relay.Values` | gg-ai-chat.php:53 | `foreach` visits every value of the array, in order |
| `Relay.KeyMissing` | gg-ai-chat.php:83-84 | an undefined, "" or "0" key is missing; a key that is not missing is a non-empty string |
| `Relay.UpstreamErrorText` | gg-ai-chat.php:111 | the error text is the upstream `error.message` when present, and "OpenAI error (HTTP code)." otherwise; never null |
| `Relay.ReplyText` | gg-ai-chat.php:115 | the reply is `choices[0].message.content` when present and the apology when absent; never null |
| `Relay.MapUpstream` | gg-ai-chat.php:103-116 | success exactly for a 2xx code, answered 200; a failure's status is 500 for a transport error and the upstream code otherwise; a transport error carries its message |
| `Relay.Proceed` | gg-ai-chat.php:47-116 | after the nonce, a call is made exactly when the message is non-empty and the key is set |
| `Relay.Handle` | gg-ai-chat.php:35-117 | a call is made exactly when the nonce passes, the message is non-empty and the key is set. That call carries the assembled prompt and the key, and the answer is the mapped upstream outcome. Without a call, the answer is a failure with status 403, 400 or 500 |
| `Relay.NonceCheckedFirst` | gg-ai-chat.php:37-41 | with a rejected nonce the answer is 403 "Invalid nonce.", whatever the body, key or upstream |
| `Relay.FalsyNonceRefused` | gg-ai-chat.php:37-38 | a missing header, "" or "0" is refused with 403 |
| `Relay.EmptyMessageBeforeHistory` | gg-ai-chat.php:47-49 | an empty message is answered 400 "Empty message.", whatever the history, key or upstream |
| `Relay.EmptyMessageRefused` | gg-ai-chat.php:43-49 | once the nonce passes, any request whose message reads as "" is answered 400 "Empty message." |
| `Relay.UndecodableBodyIsEmptyMessage` | gg-ai-chat.php:43-49 | an undecodable body, a falsy one, or one without a non-null message is answered 400 |
| `Relay.NonArrayHistoryIsEmpty` | gg-ai-chat.php:45 | a non-array `history` gives the same answer as no `history` at all |
| `Relay.MissingKeyMakesNoCall` | gg-ai-chat.php:83-86 | a missing key is answered 500 with the configuration message, and no call is made |
| `Relay.NoCallIgnoresGateway` | gg-ai-chat.php:37-86 | when no call is made, the completion service cannot affect the answer |
| `Relay.TransportErrorIs500` | gg-ai-chat.php:103-105 | a transport error is answered 500 with the transport message |
| `Relay.UpstreamErrorEchoed` | gg-ai-chat.php:107-113 | a non-2xx code is the status; the error is the upstream `error.message` or "OpenAI error (HTTP code)." |
| `Relay.SuccessReplyExtracted` | gg-ai-chat.php:115-116 | a 2xx answer is 200, with `choices[0].message.content` or the apology |
| `Relay.UpstreamMessagePassedThrough` | gg-ai-chat.php:110-112 | a 429 with `{"error": {"message": "X"}}` is answered 429 with error "X" |
| `Relay.CompletionBodyReply` | gg-ai-chat.php:115 | the content of a well-formed completion answer is what is read out |
| `Relay.HelloScenario` | gg-ai-chat.php:35-117 | `{message: "hi"}` answered upstream with "Hello!" sends `[system, user "hi"]` and replies "Hello!" with 200 |

## Behaviour of the code that the model keeps

- An upstream failure without `error.message` is answered with "OpenAI error (HTTP code).".
- The browser script sends only `{message}` and keeps no history. So the server only sees the history that a client chooses to send, and no history store is modelled.
- Sanitising twice equals sanitising once only if `wp_strip_all_tags` is idempotent, and that function is not part of this model. So `ResanitizeIsIdentity` takes it as a hypothesis.
- The nonce test is PHP truthiness: `"0"` counts as missing, like `""`. The API-key test is `empty`, which also treats `"0"` as missing.
- The upstream `error.message` and the reply content are passed through as decoded values, not only strings.

## Left out

- WordPress wiring (lines 11-30): script and style enqueueing, `wp_localize_script` and REST route registration are platform plumbing.
- `wp_verify_nonce`, `sanitize_text_field` and `wp_strip_all_tags` are function-valued parameters (`Platform`). Nothing is claimed about their internals.
- The HTTP call `wp_remote_post` is a parameter mapping the outbound request to a transport error or a status code with a decoded body. JSON encoding and decoding are left out: bodies are already-decoded values.
- The `temperature` field (0.7) is left out, because it is a floating-point payload constant. The model id, URL and 30-second timeout are kept as constants. The `Content-Type: application/json` header (line 91) is fixed and is left out of `Outbound`.
- JSON numbers with a fraction or exponent are left out. `Value` has integers only, so the `(string)` cast of a float is not modelled.
- `IntToString`: `json_decode` turns an integer beyond the 64-bit range into a float, whose `(string)` cast reads like "1.0E+19". The model keeps such numbers as `Int` and spells out all their digits.
- Decoded arrays are taken to have distinct keys, as `json_decode` produces them. A lookup finds the first entry with the key.
- PHP warnings are not modelled. A `role` or `content` that is an array raises "Array to string conversion" at lines 54 and 57; the model gives "Array" without any warning.
- `strtolower` is modelled as ASCII-only lower-casing. This is PHP 8.2 and later behaviour; older versions depend on the locale.
- A read like `$s[0]` on a string under `isset` is modelled as absent. On the paths the handler reads, the next, non-numeric key would make it absent anyway.
- The browser script `js/gg-ai-chat.js` is not part of this model: it is DOM construction, display toggling and an asynchronous `fetch`.
- `Handle` is a function over `Sanitized`. The loop `SanitizeHistory` is proved equal to `Sanitized`, but the handler does not call it.
