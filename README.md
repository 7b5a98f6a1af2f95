# Edge worker with a LaunchDarkly ad flag — Dafny model

This project models an edge-worker hook. For every inbound request it
builds a LaunchDarkly multi-kind context from the request headers and the
runtime's geolocation, and asks an external evaluator for the boolean flag
`enable-ads`. It answers with an HTML page that carries an advertisement
block only when the flag is on. When evaluation fails it answers with a
fixed error page and status 500. A second hook, on the response path,
stamps the header `X-EdgeWorker-LaunchDarkly: enabled` on every outgoing
response.

Modules, one per concern of `main.ts`:

- `Js` (js.dfy): `undefined`-able values, truthiness, and `||` on strings.
- `Headers` (headers.dfy): header maps, from name to list of values, and `getHeader(name)?.[0]`.
- `Strings` (strings.dfy): substring search, and `/A|B|…/.test(s)` for literal alternatives. It also holds the pair-avoidance facts used to show that a fixed text does *not* contain a string.
- `Context` (context.dfy): `createLDContext`.
- `Page` (page.dfy): `createResponse`. The template text is written as lists of short fragments that join to exactly the characters of the source's template literal.
- `Handler` (handler.dfy): `onClientRequest`. It is a function of the request and of the evaluator, with the evaluator passed in as a total function.
- `Egress` (egress.dfy): `onClientResponse`. The outgoing response is a class with a header map that the hook updates in place.

## Model

| member | source | states |
|---|---|---|
| `Js.Falsy` | main.ts:15 | a possibly-`undefined` string is falsy exactly when it is `undefined` or the empty string |
| `Headers.FirstValue` | main.ts:14-15 | `getHeader(name)?.[0]` is `undefined` exactly when the header is missing or has no values; otherwise it is the header's first value |
| `Js.Or` | main.ts:14 | `v \|\| fallback`: an absent or empty value gives the fallback; otherwise the value itself, which is non-empty |
| `Strings.MatchesHere` | main.ts:9 | the anchored alternation matches exactly when some alternative is a prefix of the subject |
| `Strings.RegexTest` | main.ts:9 | the unanchored, case-sensitive test `/Mobile\|Android\|iPhone\|iPad/.test(s)` holds exactly when some alternative occurs as a substring of `s` |
| `Context.UserAgent` | main.ts:8 | the matched subject is `unknown` when the first `User-Agent` value is falsy, and otherwise that value; it is never empty |
| `Context.Country` | main.ts:19 | `request.userLocation?.country` is `undefined` exactly when there is no location or the location has no country; otherwise it is that location's country |
| `Context.CreateLDContext` | main.ts:7-28 | kind `multi`, fixed location and device keys; user anonymous exactly when the first `X-User-ID` value is missing or empty, key `anonymous` then, otherwise the key is that value (even if it is the word `anonymous`); country is the runtime's when present and non-empty, else `unknown`; `isMobile` exactly when the user agent subject contains one of the four indicators |
| `Context.MissingUserAgentIsNotMobile` | main.ts:8-9 | with no usable `User-Agent` value the subject is `unknown` and the device is not mobile |
| `Context.NoIndicator` | main.ts:9 | a string avoiding the pairs `ob`, `An`, `iP` contains none of the four indicators |
| `Context.DesktopIsNotMobile` | main.ts:8-9 | the desktop user agent `Mozilla/5.0 (Windows NT 10.0; Win64; x64)` is not mobile |
| `Context.PhoneIsMobile` | main.ts:8-9 | an iPhone user agent is mobile |
| `Page.CreateResponse` | main.ts:31-57 | the page starts with the template text before the slot and ends with the text after it; between them lies exactly the ad block when `showAds`, and nothing when not |
| `Page.AdPageAdvertises` | main.ts:32-51 | the page rendered with the flag on contains `Advertisement` |
| `Page.PlainPageHasNoAd` | main.ts:36-56 | the page rendered with the flag off contains `Advertisement` nowhere |
| `Page.AdvertisementIffShowAds` | main.ts:31-57 | the rendered page contains `Advertisement` if and only if `showAds` |
| `Page.GreetingAlwaysShown` | main.ts:49 | both variants contain `Hello from EdgeWorker!` |
| `Page.AdBlockSplicedIn` | main.ts:32-51 | the ad variant is the plain variant with the ad block inserted right after the template prefix, and is longer by exactly the block's length |
| `Handler.OnClientRequest` | main.ts:59-89 | always `Content-Type: text/html`; status 200 exactly when the evaluator (asked for `enable-ads` with the request's context and default `false`) yields a value, with the page rendered for that value; otherwise status 500 with the fixed error page |
| `Handler.OnlyTheFlagMatters` | main.ts:63-66 | two evaluators that agree on this request's question give the same response |
| `Handler.FailureHidesError` | main.ts:74-87 | every rejection, whatever its error, gives the same 500 response with the error page |
| `Handler.ErrorPageSaysUnavailable` | main.ts:77-85 | the error page contains `Service Unavailable` |
| `Handler.ErrorPageHasNoAd` | main.ts:77-85 | the error page contains no `Advertisement` |
| `Handler.ErrorPageHasNoGreeting` | main.ts:77-85 | the error page contains no `Hello from EdgeWorker!` |
| `Handler.AdsShownIffFlagOn` | main.ts:66-87 | the body shows the advertisement exactly when the evaluator yields `true` |
| `Handler.GreetingIffEvaluated` | main.ts:66-87 | the body shows the greeting exactly when the evaluator yields a value (either one) |
| `Egress.Annotated` | main.ts:98 | after the marker is set, `X-EdgeWorker-LaunchDarkly` holds exactly `["enabled"]`; every other header is still there with its values unchanged; no header is added but the marker |
| `Egress.AnnotatedIdempotent` | main.ts:98 | setting the marker twice is the same as setting it once |
| `Egress.EgressResponse.SetHeader` | main.ts:98 | `setHeader` replaces the header's values with the one given value and changes no other header |
| `Egress.OnClientResponse` | main.ts:91-99 | the response's new header map is the old one with the marker set (`Annotated`) |

## Left out

- Logging (`logger.log`, `logger.error`, main.ts:61, 68, 75, 95) is not modelled. Its only effect on a result is that the catch block's `err?.toString()` (main.ts:75) can throw, as the Handler.FailureHidesError line below explains. The request's `path` is read only for logging, so it is not part of the model either, and neither is the `request` argument of `onClientResponse`.
- The LaunchDarkly evaluator (`evaluateFlagFromCustomFeatureStore`, from `ldClient.js`) is not part of this model. The handler receives it as a function from (flag key, context, default) to an outcome, `Success(value)` or `Failure(error)`. Its own default-value and fallback policy happens inside it and is not modelled.
- Handler.FailureHidesError: the rejection value is assumed to convert to a string, so the model types it as `string`. A rejection value whose `toString` is missing or throws (an `Object.create(null)`, say) makes the catch block throw at main.ts:75, before `respondWith(500, …)` at main.ts:87. `onClientRequest` then rejects without responding; that escape is not modelled.
- The `await` is not modelled. The handler is a function of the evaluator's settled outcome.
- `try/catch` also guards `createLDContext`, `createResponse` and `respondWith`. In the model the first two are total and cannot throw. A throw from the runtime's `respondWith` is not modelled.
- Handler.OnClientRequest: `respondWith` is modelled as the returned `Response` record, not as a call on a runtime object, so calling it twice is not modelled.
- The runtime's request and response objects are not modelled beyond a header map (name to list of values) and the optional `userLocation.country`. Header names are compared exactly. The runtime's case-insensitive header lookup is not modelled.
- Strings are sequences of Unicode code points (the ad block's emoji is one character). JavaScript's UTF-16 code units are not modelled. They do not affect any substring test here.
- Strings.RegexTest models only a regular expression that is an alternation of literal strings with no flags, the only kind the source uses. It does not model general regular expressions.
- The markup is not parsed. Beyond its exact text, only the substrings named above are reasoned about.

A missing header or country gets its default. An empty first value gets the default too, because JavaScript `||` and `!` treat `""` as falsy (main.ts:8, 14-15, 19).
