# Privacy request filter: a Dafny model

This project models the decision logic of a browser extension's background
script (`background.js`). It registers listeners on the `chrome.webRequest`
hooks, and those listeners do three things:

- They cancel requests. A request is cancelled when its resource type is
  blocked, when it is third-party, when its URL names a fingerprinting API,
  or when it is a stylesheet.
- They strip the first `Cookie` header from outgoing requests and the first
  `Set-Cookie` header from incoming responses.
- They drop every outgoing header named in one of two blocklists. One list
  is fingerprinting headers. The other is browser/OS headers: `User-Agent`
  and the client hints.

Header names are matched after ASCII lower-casing. That makes the match
case-insensitive, as section 5.1 of RFC 9110 requires.

Modules:

- `Headers`: header entries and case folding.
- `HeaderFilters`: the blocklist filter (`Array.prototype.filter`) and its
  laws.
- `FirstMatch`: what the indexed `splice`/`break` loop does to a header list.
- `Listeners`: the header listeners as imperative code.
  - `HeaderArray` is a JavaScript array object that `splice` changes in place.
  - The `details` objects are classes whose header-array field the
    listeners either mutate (cookie strips) or replace by a fresh filtered
    array (blocklists).
- `RequestRules`: the third-party classifier and the three `onBeforeRequest`
  rules.
  - URL parsing is a parameter `hostOf: string -> Option<string>`.
  - `None` stands for `new URL(...)` throwing.
- `Pipeline`: how the listeners of one event combine.
  - This is composition, not code of the extension.
  - A request is cancelled when some listener cancels.
  - The header listeners run one after the other, in registration order.
  - The module also holds the worked scenarios.

Behaviour of the code that the model keeps:

- **Bad URLs.** An unparsable initiator, referrer or url makes `new URL`
  throw, and nothing catches it (background.js:4-6). `IsThirdParty` and
  `ResourceRule` therefore return `Throws`; there is no fallback that treats
  the bad value as absent.
- **Short-circuit.** Because `||` short-circuits, a request of a blocked type
  is cancelled before any URL is parsed.
- **Empty strings.** `details.initiator ? ... : null` is a truthiness test,
  so an empty initiator or referrer counts as absent.
- **Several cookie headers.** With two or more `Cookie` headers, only the
  first is removed; the same holds for `Set-Cookie` (see
  `ScenarioSecondSetCookieSurvives`). `RemoveFirstIdempotentIff` and
  `StripTimesCount` state exactly what each pass removes.

## Model

| member | source | states |
|---|---|---|
| `Headers.Lower` | background.js:36 | lower-casing keeps the length and leaves no upper-case ASCII letter |
| `Headers.IsNamed` | background.js:36 | the test `h.name.toLowerCase() === name`; `IsNamedIff` characterises it |
| `Headers.LowerIdempotent` | background.js:36 | lower-casing twice is lower-casing once |
| `Headers.IsNamedIff` | background.js:36 | against a lower-case name, a header matches exactly when its name has the same length and each character equals the name's or is that letter's upper-case form, so `Cookie`, `COOKIE` and `cOoKiE` all match `cookie` |
| `HeaderFilters.Blocked` | background.js:80 | the filter callback's negated test `blocked.includes(h.name.toLowerCase())` |
| `HeaderFilters.FilterOut` | background.js:79-81 | the filtered list is no longer than the input, every survivor comes from the input, and no survivor's lower-cased name is in the blocklist |
| `HeaderFilters.FilterOutSpec` | background.js:79-81 | the output is an order-preserving subsequence of the input; every unblocked header keeps its number of occurrences; blocked ones have none |
| `HeaderFilters.FilterOutNothingBlocked` | background.js:79-81 | a list with no blocked header passes through unchanged |
| `HeaderFilters.FilterOutAppend` | background.js:79-81 | filtering distributes over concatenation |
| `HeaderFilters.FilterOutIdempotent` | background.js:79-81 | applying a blocklist filter twice equals applying it once |
| `HeaderFilters.FilterOutTwice` | background.js:139-141 | the browser/OS filter after the fingerprinting filter equals one filter with the union of both lists |
| `HeaderFilters.FilterOutCommute` | background.js:139-141 | two blocklist filters give the same result in either order |
| `HeaderFilters.FilterOutSameMembers` | background.js:131-136 | a filter depends only on which names its list holds, not on their order or repetition |
| `FirstMatch.RemoveFirst` | background.js:35-40 | the strip shortens the list by one exactly when some header matches, and otherwise keeps its length |
| `FirstMatch.FirstNamedIndex` | background.js:35-36 | when some header matches, there is a lowest matching index, where the loop stops |
| `FirstMatch.RemoveFirstAt` | background.js:35-40 | with a first match at index k, the result is the input without entry k: later matches and all other entries stay in order |
| `FirstMatch.RemoveFirstUnchangedIff` | background.js:35-40 | the list is unchanged if and only if no header matches |
| `FirstMatch.CountNamedPositive` | background.js:36 | a positive count of matching headers is the same as some header matching |
| `FirstMatch.RemoveFirstCount` | background.js:35-40 | one pass lowers the number of matching headers by exactly one when there is one |
| `FirstMatch.RemoveFirstIdempotentIff` | background.js:35-40 | the strip is idempotent on a list if and only if the list holds at most one matching header |
| `FirstMatch.StripTimesCount` | background.js:35-40 | after n passes, max(c - n, 0) of the c matching headers remain, so c passes are needed and c - 1 leave one |
| `FirstMatch.FilterOutRemoveFirst` | background.js:35-40 | one strip does not change what a remove-all filter for the same name keeps |
| `FirstMatch.StripTimesKeepsFilter` | background.js:35-40 | any number of strips leaves the remove-all filter's result unchanged |
| `FirstMatch.StripAllMatches` | background.js:53-58 | repeating the strip once per matching header equals removing all matching headers |
| `FirstMatch.RemoveFirstFilterOutCommute` | background.js:35-40 | the cookie strip commutes with a blocklist filter that does not list the name |
| `FirstMatch.FilterOutKeepsCount` | background.js:79-81 | a blocklist that does not list the name keeps every matching header |
| `FirstMatch.StripAfterFilterIdempotentIff` | background.js:35-40 | strip-after-filter run again on its own output changes it if and only if the input held two or more matching headers |
| `Listeners.HeaderArray.Splice` | background.js:37 | `splice(i, 1)` removes the entry at i in place, and later entries shift down |
| `Listeners.SpliceFirstNamed` | background.js:35-40 | the loop leaves the array holding exactly `RemoveFirst` of its old contents |
| `Listeners.BlockOutgoingCookies` | background.js:32-43 | the request's own header array loses its first `cookie` entry and is returned |
| `Listeners.BlockIncomingCookies` | background.js:50-61 | the response's own header array loses its first `set-cookie` entry and is returned |
| `Listeners.ReplaceFiltered` | background.js:79-81 | the field now holds a fresh array with the filtered contents, and the array the host passed in is unchanged |
| `Listeners.BlockFingerprintingHeaders` | background.js:68-84 | the request headers are replaced by the fingerprinting-blocklist filter of the old ones |
| `Listeners.BlockBrowserOSHeaders` | background.js:130-144 | the request headers are replaced by the browser/OS-blocklist filter of the old ones |
| `RequestRules.IsThirdParty` | background.js:2-11 | throws if and only if a present initiator, a present referrer or the url does not parse; never true without an initiator and a referrer |
| `RequestRules.IsThirdPartyIff` | background.js:8-10 | when all URLs parse: third-party if and only if some present origin's hostname differs from the target's |
| `RequestRules.NoOriginNotThirdParty` | background.js:4-10 | without an initiator and a referrer the result is false, or a throw when the url does not parse |
| `RequestRules.DifferentInitiatorIsThirdParty` | background.js:4-10 | a present, parsable initiator with another hostname gives true, provided the referrer (if any) parses |
| `RequestRules.Origins` | background.js:4-5 | the origins compared are the present initiator and referrer values, none empty |
| `RequestRules.ResourceRule` | background.js:15-25 | a blocked type cancels whatever the URLs; otherwise allow if and only if the request is not third-party; throw if and only if the type is not blocked and a URL does not parse |
| `RequestRules.Present` | background.js:4-5 | the truthiness test on `details.initiator` / `details.referrer`: absent or empty counts as missing |
| `RequestRules.Includes` | background.js:104 | `url.includes(api)`; `IncludesIff` characterises it |
| `RequestRules.SomeIncluded` | background.js:104 | `fingerprintingAPIs.some(...)`; `SomeIncludedIff` characterises it |
| `RequestRules.FingerprintingApiRule` | background.js:91-110 | the listener body: cancel when some API name is included in the url; `FingerprintingApiRuleIff` characterises it |
| `RequestRules.IncludesIff` | background.js:104 | `includes` is true if and only if the substring occurs at some index |
| `RequestRules.SomeIncludedIff` | background.js:104 | `some` is true if and only if some listed name is included in the url |
| `RequestRules.FingerprintingApiRuleIff` | background.js:91-110 | cancel if and only if one of the eight API names occurs in the url; every other url is allowed |
| `RequestRules.ApiOccurrenceCancels` | background.js:92-107 | one occurrence of one API name at any index cancels |
| `RequestRules.StylesheetRule` | background.js:117-123 | cancel if and only if the type is `stylesheet` |
| `RequestRules.StylesheetRuleSubsumed` | background.js:16-21 | whatever the stylesheet rule cancels, the first rule cancels too |
| `Pipeline.AnyListenerCancels` | background.js:14-126 | a blocked type is always cancelled; some listener cancels if and only if the resource rule or the API rule does |
| `Pipeline.SanitizeRequestHeaders` | background.js:35-141 | no surviving request header is in either blocklist |
| `Pipeline.SanitizeResponseHeaders` | background.js:53-58 | the response headers lose one entry exactly when a `set-cookie` header is present |
| `Pipeline.SanitizeRequestHeadersAsOneFilter` | background.js:35-141 | the three request listeners equal the cookie strip after one filter with both lists |
| `Pipeline.SanitizeRequestHeadersOrderFree` | background.js:35-141 | the result does not depend on the order in which the three request listeners run |
| `Pipeline.SanitizeRequestHeadersIdempotentIff` | background.js:35-141 | re-sanitising changes the output if and only if the input held two or more `cookie` headers |
| `Pipeline.ScenarioScriptCancelled` | background.js:16-21 | a same-host script is cancelled because of its type |
| `Pipeline.ScenarioCrossOriginCancelled` | background.js:9-19 | an XHR to a.com initiated by b.com is third-party and cancelled |
| `Pipeline.ScenarioApiUrlCancelled` | background.js:104 | a url containing `navigator.geolocation.getCurrentPosition` is cancelled |
| `Pipeline.ScenarioRequestHeaders` | background.js:35-141 | `Cookie`, `User-Agent`, `Accept` becomes `Accept` alone |
| `Pipeline.ScenarioResponseHeaders` | background.js:53-58 | `Set-Cookie`, `Content-Type` becomes `Content-Type` alone |
| `Pipeline.ScenarioSecondSetCookieSurvives` | background.js:53-58 | of two `Set-Cookie` headers only the first is removed |

## Left out

- Listener registration is not modelled. This covers the `addListener`
  calls, the `<all_urls>` filters and the `blocking` options (host platform
  setup).
- How the browser merges the results of several listeners on one event is
  host behaviour. `Pipeline` states its compositions as assumptions, not as
  facts about the browser.
- `console.log` calls are left out: they do not affect any decision.
- URL parsing (the WHATWG URL Standard behind `new URL`) is a parameter. The
  model fixes only what the code does with the hostname it yields, or with
  the throw.
- `Headers.Lower`: folds ASCII letters only. JavaScript's full Unicode
  `toLowerCase` also maps some non-ASCII characters to ASCII, such as the
  Kelvin sign to `k`. HTTP header names are ASCII tokens.
- Header entries carry `name` and `value`. The host's alternative
  `binaryValue` field is not used by the code and is not modelled.
- The `details` fields that the listeners only log (`url` in the header
  events) are not modelled.
- What the host does when a listener throws is host behaviour and is not
  modelled. `IsThirdParty` and `ResourceRule` return `Throws`, and the
  model says nothing about what follows.
- Pipeline.AnyListenerCancels: counts a throwing listener as not
  cancelling, because a listener that throws returns no `{ cancel: true }`.
  A request whose resource rule throws is therefore cancelled only when
  another listener cancels it. Whether the host then lets it through is
  not modelled.
