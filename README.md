# Authenticated-session pipeline of the stream resolver, in Dafny

This project models the session and request logic of a small service that
resolves playable stream descriptors for a video by impersonating a mobile
browser. It covers three source files:

- `server.js` keeps two process-wide cells, `cookiesHeader` and
  `cookiesReady`. `fetchRemoteCookies` refreshes them from a cookie service,
  accepting `{cookies: [...]}` or a bare array. The `/streams/:id` handler
  checks readiness, fetches the watch page with the current header and
  extracts the embedded `ytInitialPlayerResponse`. It then concatenates the
  progressive and adaptive formats, picks the player-script URL (with a fixed
  fallback), passes both to the decipher library and maps the outcome to
  503 / 404 / 500 / 200.
- `sig_stuff/agent.js` turns flat cookie records into tough-cookie cookies and
  fills a jar. When no element is named `SOCS`, it first appends a baseline
  `SOCS=CAI` consent record to the caller's own array. It also parses `Cookie`
  header strings and decides which jar a dispatcher is bound to
  (`createAgent`, `createProxyAgent`).
- `old/fetch.js` is the command-line variant. It extracts the same payload and
  lists the usable streams: a `{mime, url}` entry per format whose
  `url || signatureCipher` is present, numbered from 1, shown through the
  `url=` parameter of the cipher string.

Modules: `Results` (Option/Result/Outcome), `Text` (JavaScript `split`, `join`
and `startsWith`), `PlayerResponse` (the payload scan shared by both
extractors, the parsed-document datatypes, the formats concatenation),
`Server`, `Agent` and `LegacyFetch`.

The payload regular expression `/ytInitialPlayerResponse\s*=\s*(\{.*?\});/s`
has two definitions here. One is a deterministic scan (`ScanPayload`). The
other is a declarative statement of what a match is (`IsRegexMatch`). A lemma
proves that the scan returns exactly the capture group of the leftmost match.

The model has two classes, where the source changes state in place:

- `Server.SessionCell` holds the two server cells.
- `Agent.CookieArray` is the caller's array that `addCookies` pushes onto.

`Agent.CookieJar` is the jar, seen as the append-only record of its
`setCookieSync` calls. Everything else is datatypes and functions. Outside
inputs are values or function parameters:

- the cookie-service response;
- the watch-page fetch;
- `JSON.parse`;
- `Cookie.parse`;
- `sig.decipherFormats`.

The model follows the code, including where its behaviour is easy to get
wrong:

- Readiness is not monotonic. Any failed refresh sets `cookiesReady = false`,
  even after an earlier success (server.js:27-28). Only the header survives a
  failure. There are two cells, not a three-state machine.
- The server's header is built from the upstream cookies alone. It never
  contains an injected `SOCS` (server.js:16, 21).
- After `addCookies` the number of `SOCS` entries is the original number, or
  one when there was none. A caller's array with two `SOCS` entries keeps both.
- Cookies parsed from a string are tough-cookie `Cookie` instances. They have
  a `key` and no `name`, so `c.name === "SOCS"` never matches them.
  `addCookiesFromString` therefore always appends the default consent cookie,
  even when the string already sets `SOCS`
  (`Agent.StringCookiesAlwaysGetConsentCookie`).
- The payload capture is lazy. It ends at the first `};` after the opening
  `{`, not at a balanced closing brace.

## Model

| member | source | states |
|---|---|---|
| `Text.Split` | sig_stuff/agent.js:63 | JavaScript `split` on one character: at least one piece, and no piece contains the separator |
| `Text.JoinOfSplit` | sig_stuff/agent.js:62-63 | joining the pieces of a split with the separator gives back the original string |
| `Text.SplitOfJoin` | server.js:16 | splitting a join of separator-free pieces gives back exactly those pieces |
| `PlayerResponse.ScanPayload` | server.js:39-40 | when the expression matches, the capture starts with `{`, ends with `}` and has at least two characters |
| `PlayerResponse.MatchAtIsRegexMatch` | server.js:39 | one scan attempt at a position succeeds with a span exactly when the expression matches there with that capture (marker, `\s*`, `=`, `\s*`, `{`, lazy run up to the first `};`) |
| `PlayerResponse.ScanPayloadIsLeftmostRegexMatch` | server.js:39-40 | the scan returns `c` exactly when `c` is the capture group of the leftmost match of the expression |
| `PlayerResponse.ScanPayloadFailsIffNoMatch` | server.js:39-40 | the scan fails exactly when the expression matches at no position of the page |
| `PlayerResponse.MatchAt` | server.js:39 | one attempt at a position: a found span starts at a `{` and ends after a `}` followed by `;`; `MatchAtIsRegexMatch` proves it is exactly the expression's match there |
| `PlayerResponse.LeftmostMatch` | server.js:39 | the first position from `from` on where an attempt succeeds; `LeftmostMatchIsLeftmost` proves that every attempt before it, or every attempt when there is none, fails |
| `PlayerResponse.AllFormats` | server.js:78-81 | progressive formats then adaptive formats, a missing list counting as empty: length is the sum, and every entry keeps its list's order |
| `Server.AcceptedCookies` | server.js:15-26 | a refresh accepts exactly an object with an array `cookies` (tried first) or a bare array; a request error, a falsy body or any other shape is rejected |
| `Server.CookieHeader` | server.js:16-21 | the `'; '`-join of the `name=value` pairs (no contract of its own); `HeaderSplitsIntoPairs` proves it splits back into exactly the upstream pairs, in order |
| `Server.Refreshed` | server.js:12-31 | after a refresh the session is ready exactly when the response was accepted; on success the header is the `'; '`-join of the upstream pairs; on any failure the header is the previous one |
| `Server.SessionCell.constructor` | server.js:9-10 | the cells start with an empty header and not ready |
| `Server.SessionCell.FetchRemoteCookies` | server.js:12-31 | the in-place update of the two cells equals `Refreshed` of their previous values; readiness equals acceptance; a failure leaves the header untouched |
| `Server.AfterRefreshes` | server.js:33-35 | the cells after a series of refreshes: after a non-empty series readiness is the acceptance of the last one; `AfterRefreshesState` states the header too |
| `Server.AfterRefreshesState` | server.js:33-35 | after the startup refresh and any number of timer refreshes, readiness is decided by the last refresh alone, and the header is the one built by the last successful refresh, or the initial one if none succeeded |
| `Server.ReadinessNotMonotonic` | server.js:27-28 | there is a ready session that a failed refresh makes not ready |
| `Server.RefreshIdempotent` | server.js:12-31 | repeating a refresh with the same response changes nothing further |
| `Server.HeaderSplitsIntoPairs` | server.js:16 | when names and values contain no `;`, the header splits on `;` into exactly one piece per upstream cookie, in upstream order, so nothing (no `SOCS`) is added or dropped |
| `Server.WatchRequestFor` | server.js:49-54 | the watch-page request carries the session header verbatim, the `watch?v=` URL of the video, and the fixed mobile user agent and referer |
| `Server.ExtractPlayerResponse` | server.js:38-42 | without a match it fails with `ytInitialPlayerResponse not found`; otherwise the result is the JSON parse of the capture |
| `Server.FetchPlayerResponse` | server.js:45-57 | a session that is not ready fails with the not-loaded message and no request; otherwise the page error propagates, or the page is extracted |
| `Server.PlayerScriptUrl` | server.js:83-90 | the script URL always starts with `https://www.youtube.com`; it is that origin followed by a truthy `assets.js`, and otherwise the fixed fallback player URL |
| `Server.HandleStreams` | server.js:65-103 | the status is one of 200, 404, 500, 503; 503 exactly when not ready, with the not-loaded message; 200 exactly when the body is the streams body, which carries the requested video id |
| `Server.StatusMapping` | server.js:72-102 | when ready: 404 exactly when the fetched document lacks `streamingData`, with the fixed `No streamingData found in player response.` body; 500 exactly when fetching, extraction, parsing or deciphering threw, with `{error}` carrying that error's message |
| `Server.SuccessCarriesDecipherOutput` | server.js:91-98 | a 200 body's `formats` is the decipher output verbatim, for the concatenated formats and the chosen script URL, with the document's title |
| `Server.MissingPayloadIs500` | server.js:72-102 | a page where the expression matches nowhere gives a 500 carrying the extraction message, not a 404 |
| `Server.AdaptiveOnlyFormats` | server.js:78-81 | with no progressive formats the decipher input is exactly the adaptive formats, in order |
| `Agent.ConvertSameSite` | sig_stuff/agent.js:6-17 | `"strict"` maps to strict and `"lax"` to lax, each exactly; every other input, missing ones included, maps to none |
| `Agent.ConvertSameSiteOfName` | sig_stuff/agent.js:6-17 | converting the name of a converted value yields the same value |
| `Agent.ConvertCookie` | sig_stuff/agent.js:19-32 | a `Cookie` instance is returned unchanged; a record's `name` becomes `key`, expiry is seconds × 1000 ms or `"Infinity"`, sameSite goes through `ConvertSameSite`, the other members carry over |
| `Agent.WithConsentCookie` | sig_stuff/agent.js:38-50 | the caller's array after the consent check always has a `SOCS` and keeps the caller's elements as its prefix; `ConsentCookieAppendedOnlyIfAbsent`, `SocsCountAfterConsentCheck` and `ConsentCheckIdempotent` state the rest |
| `Agent.ConsentCookieAppendedOnlyIfAbsent` | sig_stuff/agent.js:38-50 | after the consent check a `SOCS` is present; the caller's elements keep their places; an array with a `SOCS` is unchanged; otherwise exactly one consent record (`CAI`, `.youtube.com`, `/`, secure, lax) is appended at the end |
| `Agent.SocsCountAfterConsentCheck` | sig_stuff/agent.js:38-50 | the number of `SOCS` elements after the check is the original number, or one when it was zero |
| `Agent.ConsentCheckIdempotent` | sig_stuff/agent.js:38-50 | applying the consent check again changes nothing |
| `Agent.JarCalls` | sig_stuff/agent.js:51-53 | one `setCookieSync` call per element; `JarCallsInOrder` states each call |
| `Agent.JarCallsInOrder` | sig_stuff/agent.js:51-53 | one `setCookieSync` call per element, in array order, each with the converted element and `https://www.youtube.com` |
| `Agent.AddCookies` | sig_stuff/agent.js:34-54 | anything but an array fails with `cookies must be an array` before the jar is touched; otherwise the caller's array gains the consent record in place when it had no `SOCS`, and the jar receives every element of the resulting array in order |
| `Agent.ParsedCookies` | sig_stuff/agent.js:62-65 | `split` pieces mapped through `Cookie.parse` and filtered: never more cookies than segments; `ParsedCookiesConcat`, `ParsedCookiesKeepsExactlyAccepted` and `ParsedCookiesAllAccepted` state order and membership |
| `Agent.ParsedCookiesConcat` | sig_stuff/agent.js:62-65 | parsing distributes over concatenation of segments, so kept cookies are in segment order |
| `Agent.ParsedCookiesKeepsExactlyAccepted` | sig_stuff/agent.js:62-65 | a cookie is kept exactly when some segment parses to it, and there are never more cookies than segments |
| `Agent.ParsedCookiesAllAccepted` | sig_stuff/agent.js:62-65 | when every segment parses, the result is their parses one for one, in order |
| `Agent.CookiesFromString` | sig_stuff/agent.js:60-66 | the array handed on holds one `Cookie` instance per parsed `;`-segment, in order |
| `Agent.StringCookiesAlwaysGetConsentCookie` | sig_stuff/agent.js:38 | cookies parsed from a string never count as `SOCS`, so the consent record is always appended to them |
| `Agent.AddCookiesFromString` | sig_stuff/agent.js:56-67 | a non-string or empty string fails with `cookies must be a string` and leaves the jar alone; otherwise the jar receives the parsed cookies in segment order, followed by the consent record |
| `Agent.CreateAgent` | sig_stuff/agent.js:69-81 | a truthy `opts.cookies` is reused with its jar and `cookies` is ignored; otherwise a fresh jar is filled by `addCookies` (`undefined` meaning `[]`, any other non-array failing) and bound into a copy of the options, with `localAddress` carried over |
| `Agent.DefaultAgent` | sig_stuff/agent.js:98 | the default agent's fresh jar holds exactly one cookie, the consent cookie |
| `Agent.NormalizeProxyArg` | sig_stuff/agent.js:85 | a string option becomes `{uri}` with nothing else; an options object is used as is |
| `Agent.CreateProxyAgent` | sig_stuff/agent.js:83-96 | falsy `cookies` mean `[]`; a non-array fails; otherwise a fresh jar is filled by `addCookies` and both dispatchers are built from the normalised options |
| `LegacyFetch.ExtractPlayerResponse` | old/fetch.js:12-16 | the same capture and failure contract as the server's extraction, with this variant's message |
| `LegacyFetch.CandidateFormats` | old/fetch.js:39-43 | a missing `streamingData` gives no candidates; otherwise the progressive then adaptive formats |
| `LegacyFetch.ToEntry` | old/fetch.js:44 | `{mime, url: f.url \|\| f.signatureCipher}` (no contract of its own); `StreamListMembership` and `StreamListAllUsable` state how entries relate to formats |
| `LegacyFetch.Usable` | old/fetch.js:45 | the entry survives `.filter(f => f.url)` (no contract of its own); `StreamListMembership` proves the list holds exactly the entries of usable formats |
| `LegacyFetch.StreamList` | old/fetch.js:43-45 | every listed entry has a truthy URL |
| `LegacyFetch.StreamListBound` | old/fetch.js:43-45 | the list is never longer than the candidate formats |
| `LegacyFetch.StreamListConcat` | old/fetch.js:43-45 | listing distributes over concatenation, so entries keep the order of their formats |
| `LegacyFetch.StreamListMembership` | old/fetch.js:43-45 | an entry is listed exactly when some format whose `url \|\| signatureCipher` is truthy maps to it |
| `LegacyFetch.StreamListAllUsable` | old/fetch.js:43-45 | when every format has a usable URL, the list is their `{mime, url}` entries one for one, in order |
| `LegacyFetch.DisplayTarget` | old/fetch.js:50 | the string handed to `decodeURIComponent` (no contract of its own); `DisplayTargetIsFirstUrlParameter`, `DisplayTargetWithoutUrlParameter` and `DisplayTargetShape` state it |
| `LegacyFetch.DisplayTargetIsFirstUrlParameter` | old/fetch.js:50 | the displayed string is the value of the first `&`-piece starting with `url=` when that value is non-empty, and the whole URL otherwise |
| `LegacyFetch.DisplayTargetWithoutUrlParameter` | old/fetch.js:50 | without a `url=` piece the whole URL is displayed |
| `LegacyFetch.DisplayTargetShape` | old/fetch.js:50 | the displayed string is the whole URL, or a non-empty value that is one of its `&`-pieces once `url=` is put in front |
| `LegacyFetch.Listing` | old/fetch.js:48-50 | one line per listed entry, numbered by its 1-based position, with its mime type and display string |
| `LegacyFetch.StreamListing` | old/fetch.js:30-51 | extraction errors propagate; otherwise the lines are exactly `Listing` of the filtered entries of the candidate formats, numbered consecutively from 1 and never more than the candidate formats |

## Left out

- Outbound HTTP (`axios.get` to the cookie service and the watch page), Express route registration and `app.listen`: I/O. Responses enter as values (`Server.CookiesFetch`) or as the `page` function.
- `setInterval`, the 5-hour period and async interleaving: a refresh is one discrete method call, and a series of them is `Server.AfterRefreshes`.
- Console logging and `fs.writeFileSync`: output only.
- `sig.decipherFormats`: a black box, passed in as `decipher`. Its output is carried through untouched, and any Error it throws becomes a 500.
- `JSON.parse`: a parameter. The parsed document keeps only `streamingData` (with optional `formats` and `adaptiveFormats`), `assets.js` and `videoDetails.title`. A truthy `formats` or `adaptiveFormats` member that is not an array is not modelled: spreading a string would contribute its characters, and spreading a non-iterable value would throw.
- The axios `timeout: 10000000` option: there is no clock in the model.
- tough-cookie internals: `setCookieSync` domain and path checks and the errors they can throw; `canonicalDomain`, recorded as `Agent.CanonicalDomain(raw)` and not computed; and `Cookie.parse`, a parameter. The jar is the append-only list of its `setCookieSync` calls, so replacement of a cookie with the same key, domain and path is not modelled.
- `new Date(expirationDate * 1000)`: `expirationDate` is whole seconds and the expiry is whole milliseconds. Fractional seconds and Date objects are not modelled.
- The consent record's `session: false` member: `convertCookie` never reads it.
- `decodeURIComponent` (percent-decoding, section 2.1 of RFC 3986, plus UTF-8) and the URIError it can throw: the model stops at the string passed to it.
- The undici `CookieAgent` and `ProxyAgent` and the `HttpsProxyAgent`: represented by the options they are built from. Their own errors, for example on an unparsable proxy URI or an `options` argument that is neither a string nor an object, are not modelled.
- Members of `opts` other than `cookies` and `localAddress`: `Object.assign` copies them, but nothing in the core reads them.
- Cookie-service list elements: `name` and `value` are the strings a template literal renders them to. A `null` element of a cookie array, for which `c.name` throws, is not modelled.
- `null` or `undefined` elements of the array given to `addCookies`: `c.name` throws a TypeError on them at sig_stuff/agent.js:38, but `Agent.CookieInput` holds only records and `Cookie` instances, so that throw is not modelled.
- Character model: strings are sequences of Unicode scalar values, not UTF-16 code units.
