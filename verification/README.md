# Anonymous stories feed: a verified model of its rules

This project models the string and list rules of a small marketing site's
anonymous "stories" feed. It covers two pieces of code.

The browser script (`assets/js/main.js`):

- escapes user text before it becomes markup;
- trims and checks a submission, defaults its feeling to "Unknown" and
  truncates four metadata fields;
- writes to a remote collection, or falls back to a list in the browser's
  local storage;
- renders the full feed and a five-entry home listing with 160-character
  snippets.

The Go API (`backend/main.go`):

- trims and validates a new post;
- clamps the `limit` query parameter;
- picks the client address from `X-Forwarded-For`;
- hashes that address with a pepper;
- dispatches `/api/posts` on the HTTP method.

Modules, one per concern:

- `Text` (text.dfy): the two runtimes' trims, and truncation. JavaScript's
  `trim` and Go's `strings.TrimSpace` use different whitespace sets.
- `Escape` (escape.dfy): `escapeHtml` as its five chained replacements. A
  per-character reference escape and a decoder are its partners.
- `Stories` (stories.dfy): the submit handler, snippets, the four listings
  and the local-storage list (class `LocalStore`).
- `Api` (api.dfy): validation, `createPost`, `listPosts`, `clientIP`,
  `hashIP` and `handlePosts`.
- `Agreement` (agreement.dfy): where the browser's checks and the API's
  checks agree and where they differ.

Lengths are sequence lengths. The browser's `.length` counts UTF-16 code
units and Go's `len` counts UTF-8 bytes. Both equal the model's length on
ASCII text.

Behaviour of the code worth noting, which the model keeps as written:

- Empty text after trimming returns silently at main.js:181. The
  "Please enter your story." alert at main.js:184-187 can never run.
- The full feed's local fallback (main.js:98-106) renders every stored entry.
  Only the remote query has the 50-entry cap.
- That same fallback shows the stored feeling without defaulting it to
  "Unknown".

## Model

| member | source | states |
|---|---|---|
| `Escape.ReplaceAll` | assets/js/main.js:111-115 | A replace-all of a character absent from the input is the identity; a non-empty replacement never shortens the text |
| `Escape.EscapeHtmlIsEscapeEach` | assets/js/main.js:109-116 | The five chained replacements, `&` first, equal escaping each character on its own to its entity |
| `Escape.EscapeHtmlIsSafe` | assets/js/main.js:109-116 | The output contains no `<`, `>`, `"` or `'`, and every `&` in it begins `&amp;`, `&lt;`, `&gt;`, `&quot;` or `&#039;` |
| `Escape.EscapeHtmlThenUnescape` | assets/js/main.js:110-115 | Decoding the five entities of escaped text, followed by anything, gives back the text followed by the decoded rest |
| `Escape.EscapeHtmlRoundTrip` | assets/js/main.js:110-115 | Decoding the escaped text recovers the input exactly |
| `Escape.EscapeHtmlInjective` | assets/js/main.js:110-115 | Two inputs with the same escaped form are equal |
| `Escape.EscapeHtmlIdentityIffClean` | assets/js/main.js:110-115 | Escaping never shortens its input; it leaves the input unchanged exactly when none of the five special characters occurs |
| `Escape.EscapeHtmlCleanIffClean` | assets/js/main.js:110-115 | The escaped text is free of special characters exactly when the input was |
| `Escape.EscapeHtmlTwiceIffClean` | assets/js/main.js:110-115 | Escaping twice equals escaping once exactly on clean input, so escaping is not idempotent |
| `Escape.EscapeHtmlAmpersand` | assets/js/main.js:111 | A lone `&` escapes to `&amp;` |
| `Escape.EscapeHtmlAmpersandFirst` | assets/js/main.js:111 | A leading `&` becomes `&amp;` in front of the escaped rest, so `&amp;` is escaped again to `&amp;amp;` |
| `Text.Trim` | assets/js/main.js:179 | The trim is never longer than its input, has no whitespace at either end, and is empty exactly when the input is all whitespace |
| `Text.TrimInfix` | assets/js/main.js:179 | The trim is the infix of the input that starts right after the leading whitespace and is followed only by whitespace |
| `Text.TrimIdempotent` | backend/main.go:148-149 | Trimming a trimmed string changes nothing |
| `Text.Truncate` | assets/js/main.js:204-215 | The result is a prefix no longer than the cap, exactly the cap when the input was longer, and the input itself when it fits |
| `Stories.FeelingOrDefault` | assets/js/main.js:180 | An empty feeling becomes "Unknown"; any other feeling is kept; the result is never empty |
| `Stories.CheckSubmission` | assets/js/main.js:179-195 | Empty trimmed text is ignored silently; text over 4000 alerts; then a feeling over 100 alerts; otherwise it accepts the trimmed text and the defaulted feeling, each within bounds |
| `Stories.ClampMetadata` | assets/js/main.js:204-215 | Timezone, language, screen and platform each become a prefix of length min(length, cap), with caps 100, 20, 100 and 200 |
| `Stories.ClampMetadataKeepsShortFields` | assets/js/main.js:204-215 | A metadata field within its cap is left unchanged |
| `Stories.MakeSnippet` | assets/js/main.js:165-167 | The snippet is the first min(160, length) characters, with the ellipsis flag set exactly when the text is longer than 160 |
| `Stories.RenderSnippetSafe` | assets/js/main.js:152-154 | A rendered snippet is safe markup; decoding it yields the shown prefix plus `…` exactly when the text exceeded 160 |
| `Stories.HomeSlice` | assets/js/main.js:159 | The home fallback takes min(5, length) entries, and they are the first ones in order |
| `Stories.HomeFallbackView` | assets/js/main.js:158-168 | The offline placeholder shows exactly when the stored list is empty; otherwise the first five entries show as snippets, feeling defaulted |
| `Stories.HomeRemoteView` | assets/js/main.js:146-155 | The placeholder without the offline mark shows exactly when no post came back; otherwise each post shows as a snippet, in order |
| `Stories.FeedFallbackView` | assets/js/main.js:98-106 | The offline placeholder shows exactly when the stored list is empty; otherwise every stored entry shows with its whole text and stored feeling |
| `Stories.FeedRemoteView` | assets/js/main.js:86-94 | The placeholder shows exactly when no post came back; otherwise every post shows with its whole text and its feeling defaulted |
| `Stories.SafeEllipsis` | assets/js/main.js:154 | The ellipsis holds no markup character and no ampersand |
| `Stories.HomeItemSafe` | assets/js/main.js:167 | Both fields of a home entry are safe markup |
| `Stories.FeedItemSafe` | assets/js/main.js:105 | Both fields of a full-feed entry are safe markup |
| `Stories.ViewsAreSafe` | assets/js/main.js:91-105 | All four listings render only escaped user text |
| `Stories.LocalStore.Load` | assets/js/main.js:42-49 | A missing or unreadable stored value reads as the empty list; otherwise the saved list is returned |
| `Stories.LocalStore.Save` | assets/js/main.js:51-57 | A successful write replaces the stored list; a refused write changes nothing |
| `Stories.Submit` | assets/js/main.js:177-249 | Nothing is written unless the checks pass, and an over-long text or feeling raises its alert text; an accepted post goes to the remote collection with truncated metadata, or else is put in front of the local list, which keeps every earlier entry in order |
| `Stories.HomeAfterUnshift` | assets/js/main.js:244-246 | After the fallback write, the home listing shows the new entry first, then the previous first four |
| `Stories.FeedAfterUnshift` | assets/js/main.js:244-248 | After the fallback write, the full feed shows the new entry first, then every earlier entry unchanged |
| `Api.ValidatePost` | backend/main.go:226-240 | Errors exactly when the story is empty or over 4000, or the feeling is empty or over 100; the first failing check, in that order, names the error |
| `Api.CreatePost` | backend/main.go:134-188 | Invalid JSON or a failing validation of the trimmed values answers 400 with no insert attempted; otherwise the row handed to the insert (stored only when the insert succeeds) holds the trimmed values, the client address and its hash, and the response echoes the trimmed story and feeling |
| `Api.FirstField` | backend/main.go:277-279 | The first comma-separated element is the prefix before the first comma |
| `Api.ForwardedClient` | backend/main.go:274-284 | The forwarded client is the trimmed first comma-separated element of the trimmed header, empty exactly when that element is blank; it has no whitespace at either end and no comma |
| `Api.ForwardedClientSingle` | backend/main.go:274-282 | A header holding one address, with any surrounding whitespace, yields that address |
| `Api.ForwardedClientBlankFirst` | backend/main.go:277-284 | A header whose first element is blank, such as `, 10.0.0.1`, yields no forwarded client |
| `Api.ForwardedClientIsFirstHop` | backend/main.go:274-284 | In `client, proxy, ...` with any surrounding whitespace, the forwarded client is `client` |
| `Api.ClientIP` | backend/main.go:273-290 | A non-empty forwarded client wins; otherwise a non-empty split host; otherwise, when the split fails or gives an empty host, the remote address itself |
| `Api.HexDigit` | backend/main.go:302 | A value below 16 becomes the lower-case hex digit whose value it is |
| `Api.HexByte` | backend/main.go:302 | A byte becomes two lower-case hex digits, high nibble first, whose value is the byte |
| `Api.Hex` | backend/main.go:302 | Hex encoding gives two lower-case hex digits per byte |
| `Api.UnhexHex` | backend/main.go:302 | Decoding the hex gives back the bytes, so the hex determines them |
| `Api.HexPrefix` | backend/main.go:302 | The first 2k hex digits are the hex of the first k bytes |
| `Api.ShortHex` | backend/main.go:302 | The short hash is 12 lower-case hex digits, the hex of the digest's first six bytes |
| `Api.EffectivePepper` | backend/main.go:297-299 | A blank pepper becomes "dev-pepper"; any other pepper is used unchanged; the result is never blank |
| `Api.HashIP` | backend/main.go:293-303 | Empty exactly for a blank address; otherwise 12 lower-case hex digits, the hex of the first six bytes of SHA-256 of `ip + "\|" + pepper` |
| `Api.Atoi` | backend/main.go:194 | A string parses exactly when it is an optional sign followed by one or more digits whose value fits in 64 bits, and then to that value |
| `Api.AtoiRejectsNonDigit` | backend/main.go:194-196 | Any character other than a digit after the optional sign, as in "12abc", "1.5" or "--5", makes the parse fail |
| `Api.ListLimit` | backend/main.go:192-197 | The limit is always in [1, 500]; it is the parsed trimmed parameter when that is in range, else 50 |
| `Api.ShowNat` | backend/main.go:194 | The decimal form of n is a non-empty digit string whose value is n |
| `Api.AtoiShowNat` | backend/main.go:194 | Parsing a decimal form, with or without sign, gives back the number |
| `Api.ListLimitOfNumber` | backend/main.go:192-197 | A limit of 1 to 500, even with surrounding whitespace, is used as written; an absent parameter gives 50 |
| `Api.ScanRows` | backend/main.go:212-221 | When every row scans, the result is all of their posts, in order; when any row fails to scan, there is no result |
| `Api.PostsOf` | backend/main.go:212-221 | The listed posts are the scanned rows' posts, in order |
| `Api.ListPosts` | backend/main.go:190-224 | A failed query or any failed scan answers 500; otherwise the result is the first `limit` rows' posts in order, never more than 500 |
| `Api.Route` | backend/main.go:120-132 | POST creates, GET lists, OPTIONS is a preflight; every other method, compared case-sensitively, is refused |
| `Api.HandlePosts` | backend/main.go:120-132 | Only POST attempts an insert; OPTIONS answers 204; any other unknown method answers 405 |
| `Agreement.ClientAcceptedPassesServer` | backend/main.go:148-153 | A submission the browser accepts also passes the API's trim and validation, unless its text or feeling is all whitespace to Go; on non-ASCII text Go's byte count can still exceed 4000/100 where the browser's count does not |
| `Agreement.WhitespaceFeelingDiverges` | backend/main.go:149 | A whitespace-only feeling passes the browser but the API answers "feeling is required" |
| `Agreement.NextLineStoryDiverges` | backend/main.go:148 | A story made of U+0085 passes the browser but the API answers "story is required" |

## Left out

- DOM work is not modelled: the nav toggle, the modals, the booking form,
  `innerHTML` assignment and showing alerts. Alerts appear only as values.
- The remote document database is not modelled. Its write is a boolean
  (`remoteOk`) and its reads are the posts it returns. Its ordering and its
  `limit(5)`/`limit(50)` belong to the database.
- `JSON.parse`/`JSON.stringify` and local storage are not modelled. The
  stored list is a sequence plus an "unreadable" flag. A stored value that
  parses to something other than an array is not modelled.
- The `waitForFirebaseAndRender` polling with `setTimeout` is timing against
  browser globals and is left out. Its visible effect: when the remote
  database never becomes ready, the home listing is skipped entirely
  (main.js:263-267). Only a failed query reaches the home fallback that
  `HomeFallbackView` models.
- Date formatting is locale dependent and is left out. The dates are opaque
  strings and the client clock is a parameter.
- `escapeHtml`'s `String(str)` coercion of non-strings is not modelled.
  `undefined` would render as "undefined". A missing field is modelled as "".
- `listPosts` never checks the cursor's error after its loop, so a cursor
  that fails part-way answers 200 with the rows read so far. The model's
  `Db.rows` are all rows in the query's order before its `LIMIT`, which
  `ListPosts` applies itself; a cursor that stops early is a shorter `rows`.
- Agreement.ClientAcceptedPassesServer: lengths are counted in characters,
  so the lemma holds as stated on ASCII text only. The browser counts UTF-16
  code units and Go counts UTF-8 bytes, so on non-ASCII text (1500 × "€" is
  1500 units but 4500 bytes) the API can answer "too long" where the browser
  accepted.
- SQL is left out: the schema, `migrate` and its `addCols` loop, the insert,
  the `ORDER BY` and the `created_at` read-back with its fallback to now. The
  database is a `Db` value of answers.
- The HTTP server, `writeJSON`, `handleHealth`, `main` and `ensureDir` are
  left out. An empty list is encoded as JSON `null`, which is not modelled.
- The CORS wrapper's headers are left out. The wrapper also answers OPTIONS
  with 204 before `handlePosts` runs, and that is not modelled.
- SHA-256 and `net.SplitHostPort` are foreign calls. They are
  function-valued parameters (`Env`). The `IP_HASH_PEPPER` and `PORT`
  environment variables are plain strings.
- Concurrent submissions are not modelled. The script does not guard
  against a second submit while one is in flight.
- HandlePosts: its contract names only the branch taken and its status
  class. What the create and list branches return is stated by
  `CreatePost` and `ListPosts`.
