# DeepLinkNow Android SDK — a Dafny model

This project models the core of the DeepLinkNow Android SDK (`DLN` in
`src/main/java/com/deeplinknow/DeepLinkNow.kt`) as immutable datatypes and pure
functions, and proves properties of that model. It covers:

- **Domain allowlist** (`Domains`). The allowlist starts as `deeplinknow.com` and
  `deeplink.now`. `isValidDomain` accepts exact members plus two case-sensitive
  suffix rules. The merge of verified custom domains from the `init` response
  only ever adds names.
- **Deep links** (`DeepLinks`). `parseDeepLink` and `handleDeepLinkInternal` work on
  a URL already split into host, path and query pairs, as in RFC 3986 section 3:
  host in section 3.2.2, path in section 3.3, query in section 3.4.
- **Install referrer** (`Referrer`):
  - the regex extraction of `fp_id` and `deeplink_id`;
  - the choice of lookup query;
  - the one-shot `referrer_data` cache in the `dln_referrer` preferences, modelled
    as a map;
  - `processInstallReferrer`;
  - the lazy getters `getReferrerData` and `getDeferredDeepLink`.
- **Fingerprint** (`Fingerprints`, with `Int32` and `Text`):
  - `simpleHash`, a 32-bit wrapping ×31 rolling hash over UTF-16 code units,
    rendered with `Int.toString(16)`;
  - the `|`-joined hardware-fingerprint components;
  - the screen-metric selection (overrides, then the 320–1440 × 480–2960 window,
    then the configuration fallback);
  - the `Fingerprint` payload record.
- **Clipboard** (`Clipboard`):
  - the `dln://` token probe;
  - `checkClipboard`, which takes the host as `split("://")[1].split("/")[0]` and
    gates on initialisation and the allowlist.
- **SDK lifecycle** (`Sdk`):
  - the companion's instance slot and its single pending-callback slot;
  - `init` as two explicit steps: constructing the instance, then `initializeSDK`;
  - `getInstance`, `setDeepLinkCallback`, `handleDeepLink` and `registerPendingCallback`;
  - a `Reclaim` event for the weak reference being cleared;
  - traces of events, with lemmas that hold over any trace.

Inputs from the outside world are parameters:

- the reply of each HTTP request, as `Reply<T>`: `NoResponse` for a transport
  failure, a non-2xx status or an empty body (the request helper returns
  `""` for an empty body, which Gson decodes to `null`); `Malformed` for a body the JSON
  decoder throws on; `Decoded(v)` otherwise;
- the referrer string the platform service returns;
- the clipboard text;
- clock readings;
- platform reads (OS version, model, locale, time zone, `ANDROID_ID`, display metrics).

Two consequences of the code that a reader might not expect:

- **Duplicate query names.** `Uri.getQueryParameter` returns the first value
  for a name, so `QueryParams` keeps the first value
  (`DeepLinks.QueryParamsCases`).
- **Clipboard host.** The host is `split("://")[1].split("/")[0]`, so it also
  stops at a second `://`: `a://host://x` yields `host`.
  `Clipboard.ClipboardHost` states exactly this.

## Model

| member | source | states |
|---|---|---|
| `Domains.IsValidDomain` | src/main/java/com/deeplinknow/DeepLinkNow.kt:549-567 | a host is valid exactly when it is in the set, or is `deeplinknow.com`/`deeplink.now` or a name ending in `.` followed by one of them |
| `Domains.MergeVerified` | src/main/java/com/deeplinknow/DeepLinkNow.kt:525-529 | the merged set is the old set plus exactly the names of the custom domains that have a name and `verified == true` |
| `Domains.ApplyInitResponse` | src/main/java/com/deeplinknow/DeepLinkNow.kt:517-532 | a missing response leaves the set unchanged; a decoded one only adds, its accepted names |
| `Domains.MergeIdempotent` | src/main/java/com/deeplinknow/DeepLinkNow.kt:523-532 | merging the same response twice gives the set the first merge gave |
| `Domains.MergeKeepsValidity` | src/main/java/com/deeplinknow/DeepLinkNow.kt:523-532 | every host valid before a merge is valid after it, and the two built-ins stay in the set |
| `Domains.MergeValidatesExactlyVerified` | src/main/java/com/deeplinknow/DeepLinkNow.kt:525-529 | a name never listed as verified stays invalid after the merge; a name listed with `verified == true` becomes valid |
| `Domains.LookalikesRejected` | src/test/java/com/deeplinknow/DLNUnitTest.kt:59-62 | `fakedeeplinknow.com`, `invalid-domain.com` and the upper-case `DeepLinkNow.com` are rejected by the initial set |
| `Domains.SubdomainsAccepted` | src/main/java/com/deeplinknow/DeepLinkNow.kt:555-563 | `app.deeplinknow.com` and `go.deeplink.now` are accepted by the suffix rules |
| `DeepLinks.QueryParams` | src/main/java/com/deeplinknow/DeepLinkNow.kt:576-581 | the parameter map has one key per distinct query name, holding the first value given for it |
| `DeepLinks.QueryParamsCases` | src/main/java/com/deeplinknow/DeepLinkNow.kt:577-580 | two distinct names give both values; a repeated name keeps its first value, not its last |
| `DeepLinks.ParseDeepLink` | src/main/java/com/deeplinknow/DeepLinkNow.kt:569-587 | null exactly when the host (empty if absent) is invalid or the URI is opaque, whose query names throw into the catch; otherwise the raw path (`""` if absent) and the query map |
| `DeepLinks.Route` | src/main/java/com/deeplinknow/DeepLinkNow.kt:610 | the route is the path with exactly one leading `/` removed, if present; `""` without a path |
| `DeepLinks.HandleDeepLink` | src/main/java/com/deeplinknow/DeepLinkNow.kt:594-646 | handled exactly when the URI is hierarchical and its host is valid, with or without a callback; the callback, if registered, is invoked once with the route and the query map |
| `DeepLinks.HandleAgreesWithParse` | src/main/java/com/deeplinknow/DeepLinkNow.kt:569-646 | a link is handled exactly when it parses; the callback gets the parsed map, and its route is the parsed path less at most one leading `/` |
| `DeepLinks.ParseCases` | src/test/java/com/deeplinknow/DLNUnitTest.kt:64-88 | a primary-domain link with two query names parses to its raw path and both values; a string with no host, whatever its path and query, is rejected by parse and by handle when the empty name is not a registered domain |
| `DeepLinks.EmptyNameAcceptsHostless` | src/main/java/com/deeplinknow/DeepLinkNow.kt:569-646 | with the empty name registered, a link with no host, whatever its path and query, parses to its path and query map and is handled |
| `DeepLinks.OpaqueRejected` | src/main/java/com/deeplinknow/DeepLinkNow.kt:569-646 | an opaque URI such as `mailto:x` passes the host check when the empty name is registered, yet parse gives null and handle gives false with no invocation |
| `Referrer.FirstIdStart` | src/main/java/com/deeplinknow/DeepLinkNow.kt:289-290 | the search finds the leftmost position where `key=` is followed by a character other than `&`, or reports none |
| `Referrer.RunBeforeAmp` | src/main/java/com/deeplinknow/DeepLinkNow.kt:286-287 | the captured group is the longest prefix free of `&` |
| `Referrer.ExtractId` | src/main/java/com/deeplinknow/DeepLinkNow.kt:286-293 | no id exactly when no `key=` is followed by a non-`&`; otherwise a non-empty `&`-free id, the maximal run after the leftmost such match |
| `Referrer.ParseReferrerString` | src/main/java/com/deeplinknow/DeepLinkNow.kt:282-298 | `fp_id` and `deeplink_id` are extracted independently |
| `Referrer.ParsedIdsAreSendable` | src/main/java/com/deeplinknow/DeepLinkNow.kt:282-298 | every id the parser returns is non-empty and free of `&` |
| `Referrer.LookupQuery` | src/main/java/com/deeplinknow/DeepLinkNow.kt:300-306 | no query without ids; `fp_id=` is preferred when both are present, otherwise `deeplink_id=` |
| `Referrer.LookupQueryCarriesId` | src/main/java/com/deeplinknow/DeepLinkNow.kt:282-306 | extracting the chosen key from the query gives back the id that was sent |
| `Referrer.LookupResult` | src/main/java/com/deeplinknow/DeepLinkNow.kt:310-324 | only a decoded response with `success` yields a deep link, the one it carries; failures and undecodable bodies yield none |
| `Referrer.HasProcessedReferrer` | src/main/java/com/deeplinknow/DeepLinkNow.kt:357-359 | processed exactly when the `referrer_data` key is present, whatever it holds; any readable cached data implies processed |
| `Referrer.ProcessedMarkIsReferrerKey` | src/main/java/com/deeplinknow/DeepLinkNow.kt:357-359 | writing or removing `processed_at` never changes the mark, an unreadable `referrer_data` still counts, and `processed_at` alone does not |
| `Referrer.CachedReferrer` | src/main/java/com/deeplinknow/DeepLinkNow.kt:340-355 | cached data is returned exactly when `referrer_data` holds a decodable entry |
| `Referrer.CacheReferrer` | src/main/java/com/deeplinknow/DeepLinkNow.kt:327-338 | afterwards the cache reads back the written data, `processed_at` holds the time, and every other key is unchanged |
| `Referrer.ProcessInstallReferrer` | src/main/java/com/deeplinknow/DeepLinkNow.kt:361-396 | with `referrer_data` present it only loads the cache; with a missing or empty referrer or no id nothing changes; otherwise exactly one lookup and the data stored |
| `Referrer.ProcessingIsAtMostOnce` | src/main/java/com/deeplinknow/DeepLinkNow.kt:357-396 | two successive runs send at most one lookup between them, and a run after one that looked up neither fetches nor changes anything |
| `Referrer.FailedLookupStillStored` | src/main/java/com/deeplinknow/DeepLinkNow.kt:382-393 | a lookup with no response still marks the referrer processed, storing data with no deep link |
| `Referrer.UnreadableEntryBlocksProcessing` | src/main/java/com/deeplinknow/DeepLinkNow.kt:357-366 | an undecodable `referrer_data` still counts as processed: no fetch, no lookup, nothing loaded |
| `Referrer.Load` | src/main/java/com/deeplinknow/DeepLinkNow.kt:711-714 | the cache is read only when nothing is loaded yet; loaded data is kept as it is |
| `Referrer.GetReferrerData` | src/main/java/com/deeplinknow/DeepLinkNow.kt:721-732 | the getter returns the data the lazy load leaves in the instance |
| `Referrer.GetDeferredDeepLink` | src/main/java/com/deeplinknow/DeepLinkNow.kt:708-719 | the deep link is present exactly when loaded data carries one |
| `Referrer.GettersAreStable` | src/main/java/com/deeplinknow/DeepLinkNow.kt:708-732 | a second read returns the same answer and leaves the state as the first read left it |
| `Referrer.ProcessedDataReadBack` | src/main/java/com/deeplinknow/DeepLinkNow.kt:340-355 | after a run that looked up, a fresh instance reads back exactly the stored data and the looked-up deep link |
| `Text.Split` | src/main/java/com/deeplinknow/DeepLinkNow.kt:692 | the pieces of a split are never empty as a list, contain no delimiter, and join back to the input |
| `Text.SplitJoin` | src/main/java/com/deeplinknow/DeepLinkNow.kt:426 | splitting a joined list on a character absent from its elements gives the list back |
| `Text.IntToString` | src/main/java/com/deeplinknow/DeepLinkNow.kt:405 | the rendering starts with `-` exactly for negative numbers, and has no leading zero: after a `-` the first digit is not `0`, and a non-negative rendering starts with `0` only for zero |
| `Text.IntRoundTrip` | src/main/java/com/deeplinknow/DeepLinkNow.kt:405 | parsing the signed rendering in bases 2 to 16 gives the number back |
| `Text.CanonicalIsRendering` | src/main/java/com/deeplinknow/DeepLinkNow.kt:405 | the rendering is canonical (optional `-`, no leading zero, no `-0`), and it is the only canonical text that reads back to its integer |
| `Text.CanonicalNatIsRendering` | src/main/java/com/deeplinknow/DeepLinkNow.kt:405 | a digit string without a leading zero is exactly the rendering of the value it reads as |
| `Int32.Wrap` | src/main/java/com/deeplinknow/DeepLinkNow.kt:402-403 | the 32-bit result lies in the `Int` range, is congruent modulo 2^32, and leaves `Int` values alone |
| `Fingerprints.Utf16` | src/main/java/com/deeplinknow/DeepLinkNow.kt:400-401 | a character below U+10000 is one code unit, itself; any other is a high and a low surrogate that decode back to it |
| `Fingerprints.RollingHash` | src/main/java/com/deeplinknow/DeepLinkNow.kt:399-404 | the loop's hash is always a 32-bit `Int` |
| `Fingerprints.LoopStepIsTimes31` | src/main/java/com/deeplinknow/DeepLinkNow.kt:402-403 | `(h shl 5) - h + c`, wrapped, followed by `h and h`, is `h * 31 + c` modulo 2^32 |
| `Fingerprints.RollingHashIsWrappedPolynomial` | src/main/java/com/deeplinknow/DeepLinkNow.kt:399-404 | the wrapped loop equals the base-31 polynomial of the code units taken modulo 2^32 |
| `Fingerprints.HashHex` | src/main/java/com/deeplinknow/DeepLinkNow.kt:398-406 | the text is the `Int.toString(16)` rendering of the wrapped polynomial, the same text `SimpleHash` returns; it reads back to that value and starts with `-` exactly when it is negative |
| `Fingerprints.SimpleHash` | src/main/java/com/deeplinknow/DeepLinkNow.kt:398-406 | the loop computes the signed hex of the wrapped polynomial; the empty string gives `"0"` |
| `Fingerprints.Components` | src/main/java/com/deeplinknow/DeepLinkNow.kt:416-424 | platform and OS version first, then width, height and ratio text in that order with absent ones dropped, then language and time zone |
| `Fingerprints.HardwareFingerprint` | src/main/java/com/deeplinknow/DeepLinkNow.kt:408-428 | the result is the `Int.toString(16)` text of the wrapped hash of the `|`-joined components, and reads back to that hash |
| `Fingerprints.JoinedComponentsDetermineComponents` | src/main/java/com/deeplinknow/DeepLinkNow.kt:416-427 | two `|`-free component lists that join to the same string are the same list |
| `Fingerprints.SelectScreen` | src/main/java/com/deeplinknow/DeepLinkNow.kt:440-484 | both size overrides win, with the ratio override or the density; otherwise raw pixels inside the inclusive window, else the fallback, with the density |
| `Fingerprints.RawSizeOutsideWindowNeverUsed` | src/main/java/com/deeplinknow/DeepLinkNow.kt:458-483 | without both overrides, a raw size outside the window never reaches the fingerprint |
| `Fingerprints.PixelRatioOverrideAloneIgnored` | src/main/java/com/deeplinknow/DeepLinkNow.kt:445-451 | a pixel-ratio override without both size overrides changes nothing |
| `Fingerprints.BuildFingerprint` | src/main/java/com/deeplinknow/DeepLinkNow.kt:486-511 | platform `android`; OS version, model, language and time zone copied from the device; empty advertising and vendor ids; the web-style user agent around `<os>; <model>`; the selected screen both reported and hashed |
| `Clipboard.HasDeepLinkToken` | src/main/java/com/deeplinknow/DeepLinkNow.kt:665-679 | true exactly when there is clipboard text starting with `dln://` |
| `Clipboard.TokenIffSchemePrefix` | src/main/java/com/deeplinknow/DeepLinkNow.kt:671 | the probe accepts a text exactly when it is `dln://` followed by some rest |
| `Clipboard.ClipboardHost` | src/main/java/com/deeplinknow/DeepLinkNow.kt:692 | no host without `://`; otherwise the text after the first `://` up to the next `/`, the next `://` or the end |
| `Clipboard.HostAfterScheme` | src/main/java/com/deeplinknow/DeepLinkNow.kt:692 | for `scheme://host` followed by nothing, a path or another `://`, the host found is that host |
| `Clipboard.CheckClipboard` | src/main/java/com/deeplinknow/DeepLinkNow.kt:681-706 | the clipboard text is returned, unchanged, exactly when the SDK is initialised, a host is found and the host is valid |
| `Clipboard.PrimaryLinkReturned` | src/androidTest/java/com/deeplinknow/DLNInstrumentedTest.kt:82-85 | `https://deeplinknow.com/path` is returned by an initialised SDK |
| `Clipboard.ForeignLinkWithheld` | src/androidTest/java/com/deeplinknow/DLNInstrumentedTest.kt:66-75 | `https://invalid-domain.com` and an empty clipboard are not returned |
| `Clipboard.TokenProbeCases` | src/androidTest/java/com/deeplinknow/DLNInstrumentedTest.kt:66-80 | `dln://…` passes the token probe; `https://…` and an empty clipboard do not |
| `Sdk.NewInstance` | src/main/java/com/deeplinknow/DeepLinkNow.kt:174-185 | a new instance holds just the built-in domains, with no response, referrer data or callback |
| `Sdk.Init` | src/main/java/com/deeplinknow/DeepLinkNow.kt:745-770 | `init` replaces the instance with a new one and keeps the pending callback and the store |
| `Sdk.GetInstance` | src/main/java/com/deeplinknow/DeepLinkNow.kt:773-775 | the live instance, or `NotInitialized` exactly when there is none |
| `Sdk.IsInitialized` | src/main/java/com/deeplinknow/DeepLinkNow.kt:734-736 | initialised exactly when the weak reference yields an instance, that is when `getInstance` succeeds |
| `Sdk.InitializeSDK` | src/main/java/com/deeplinknow/DeepLinkNow.kt:514-539 | undecodable init JSON escapes and changes nothing; otherwise domains merged, referrer processed, pending callback installed and slot cleared |
| `Sdk.RegisterPendingCallback` | src/main/java/com/deeplinknow/DeepLinkNow.kt:541-547 | a pending callback replaces the instance's callback, and the slot is empty afterwards |
| `Sdk.SetDeepLinkCallback` | src/main/java/com/deeplinknow/DeepLinkNow.kt:778-786 | with an instance the callback is set on it and the slot is untouched; without one, the slot takes the callback |
| `Sdk.HandleDeepLink` | src/main/java/com/deeplinknow/DeepLinkNow.kt:789-796 | without an instance the link is not handled and nothing is invoked; otherwise the instance's dispatch |
| `Sdk.CheckClipboard` | src/main/java/com/deeplinknow/DeepLinkNow.kt:681-706 | through `getInstance`: `NotInitialized` exactly when there is no live instance; otherwise the clipboard text, unchanged, exactly when it has a host valid on the live instance's set |
| `Sdk.HasDeepLinkToken` | src/main/java/com/deeplinknow/DeepLinkNow.kt:665-679 | through `getInstance`: `NotInitialized` exactly when there is no live instance; otherwise true exactly for clipboard text starting with `dln://` |
| `Sdk.ReadReferrer` | src/main/java/com/deeplinknow/DeepLinkNow.kt:721-732 | through `getInstance`: `NotInitialized` exactly when there is no live instance; otherwise the loaded data or else the cache, remembered by the instance |
| `Sdk.ReadDeferredDeepLink` | src/main/java/com/deeplinknow/DeepLinkNow.kt:708-719 | through `getInstance`: `NotInitialized` exactly when there is no live instance; otherwise the same lazy load, answering with the deep link exactly when the loaded data carries one |
| `Sdk.Step` | src/main/java/com/deeplinknow/DeepLinkNow.kt:738-797 | an event sends at most one lookup, only from `initializeSDK` on an unprocessed store, which it then marks; only `handleDeepLink` invokes the callback |
| `Sdk.StepKeepsBuiltIns` | src/main/java/com/deeplinknow/DeepLinkNow.kt:180 | every event keeps both built-ins in the live instance's set |
| `Sdk.RunKeepsBuiltIns` | src/main/java/com/deeplinknow/DeepLinkNow.kt:180 | over any trace the live instance keeps both built-ins |
| `Sdk.AtMostOneLookup` | src/main/java/com/deeplinknow/DeepLinkNow.kt:357-396 | over any trace of `initializeSDK` runs that do not overlap, at most one lookup is sent, none from a processed store, and the processed mark is never lost |
| `Sdk.FreshProcessLookups` | src/main/java/com/deeplinknow/DeepLinkNow.kt:357-396 | a new process sends at most one lookup over any trace of runs that do not overlap, and none when its store is already processed |
| `Sdk.ValidityIsMonotone` | src/main/java/com/deeplinknow/DeepLinkNow.kt:523-532 | a host valid on the live instance stays valid through every event except a new `init` or the reference being cleared |
| `Sdk.PendingLastWriteWins` | src/main/java/com/deeplinknow/DeepLinkNow.kt:782-785 | without an instance only the last callback set is kept |
| `Sdk.PendingOverwritesDirect` | src/main/java/com/deeplinknow/DeepLinkNow.kt:537-547 | a callback set before `init` overwrites one set directly on the instance before `initializeSDK` ran |
| `Sdk.MalformedInitSkipsFlush` | src/main/java/com/deeplinknow/DeepLinkNow.kt:517-538 | when the init JSON cannot be decoded, the pending callback stays pending and no lookup is sent |
| `Sdk.EarlyLinkIsDropped` | src/main/java/com/deeplinknow/DeepLinkNow.kt:789-796 | a link handled before `init` changes nothing, so the events after it behave as if it never happened |
| `Sdk.BuiltInHostHandledAfterInit` | src/main/java/com/deeplinknow/DeepLinkNow.kt:753-764 | right after `init`, before `initializeSDK`, links on the built-in domains and their subdomains are handled |
| `Sdk.OnlyHandleInvokes` | src/main/java/com/deeplinknow/DeepLinkNow.kt:629-638 | a trace without `handleDeepLink` calls never invokes the callback |
| `Sdk.CompletedInitClearsPending` | src/main/java/com/deeplinknow/DeepLinkNow.kt:541-547 | after a completed `initializeSDK` the slot is empty, and a second run leaves the callback alone |

## Left out

- HTTP transport (`makeRequest`, OkHttp, headers and the endpoint URL). Each request is one input outcome.
- Gson serialisation and decoding. Decoding is an abstract input. Gson leaves an absent field null, and three such decoded `InitResponse` values are not modelled. In each the source throws a `NullPointerException` after `initResponse = response` has already been stored, and the domain set is not changed (DeepLinkNow.kt:524-528). The model's fields are never null.
  - a response whose `app` is absent;
  - a response whose `custom_domains` is absent;
  - a `custom_domains` list holding a JSON `null` element.
- `fetchInstallReferrer`, the platform referrer service with its connection callbacks. Every outcome is one `Option<string>` input.
- `GlobalScope.launch` and the `WeakReference` singleton. Scheduling becomes the order of events, and the collector clearing the reference becomes the `Reclaim` event.
  - The launched `initializeSDK` runs against whatever instance is live when it starts. Two `init` calls can therefore run it twice on the newer instance. The model has that trace only with the two runs one after the other.
  - An exception escaping `initializeSDK` is not caught by `GlobalScope`. It reaches the thread's uncaught-exception handler, and Android's default handler ends the process. The model records only that the run ended (`Threw`) with the state unchanged.
- `Sdk.MalformedInitSkipsFlush`, and every trace that goes on after a `Threw` run, describe only an application that installs a non-fatal uncaught-exception handler. Under the default handler the process ends at that point.
- `Sdk.InitializeSDK` is one atomic step. The source suspends three times: the init request (DeepLinkNow.kt:517), the referrer fetch (370) and the lookup (382). Two behaviours are therefore not reachable in the model:
  - A link handled after the domain merge but before the flush of the pending callback returns true and invokes nothing.
  - A run takes its instance A when it starts (768). If a newer `init` happens while the run is suspended, the run continues on A: it flushes the pending callback into the discarded A and clears the slot, so the live instance never gets that callback.
  - Two overlapping runs, as from two `init` calls within one network round trip, can both find the store unprocessed at 362 before either caches the referrer at 393. Each then sends its own lookup at 382.
- `Sdk.AtMostOneLookup` and `Sdk.FreshProcessLookups`: the bound of one lookup holds only for `initializeSDK` runs that do not overlap. Overlapping runs can send one lookup each, as above.
- Instance methods called on a stale `DLN` reference that the application kept after a newer `init`. Every instance method here acts on the live instance.
- Float arithmetic:
  - the fallback sizes (`Math.round` of dp × density) are given integers;
  - `Float.toString` of the density and of the pixel-ratio override is given text.
- Platform reads and time formatting: `Instant.now`, `DateTimeFormatter`, `Build`, `Locale`, `TimeZone` and `Settings.Secure`. These are parameters.
- `android.net.Uri` parsing and percent-decoding. The model starts from the decomposed URL, so a `getQueryParameter` that finds no value for a listed name is not modelled.
- The callback's own behaviour. Its invocation is recorded, and an exception it throws is caught by the source without changing the result.
- `findDeferredUser` and the `MatchResponse` records. The request is a network call around `getFingerprint`, which `Fingerprints.BuildFingerprint` models. Its `gson.fromJson` (DeepLinkNow.kt:660) sits outside any `try`, so a malformed match body throws to the caller instead of giving null.
- Logging.
- `Fingerprints.Utf16`: characters are Dafny `char`s (Unicode scalar values). A lone surrogate, which a Kotlin `String` can hold, cannot be expressed.
