# Address validation service — Dafny model

The service takes a free-form US address and sends it to an address-validation
provider. It reads the provider's result in two pure steps:

- the **address standardizer** derives number, street, city, state, zip and ZIP+4
  from the structured components, the first address line and the postal code;
- the **deliverability assessor** turns the region code, the USPS DPV
  (delivery point validation) confirmation code and two verdict flags into an
  ordered list of issues, a `missingSecondary` flag and an `isDeliverable` verdict.

Around these sit three small decision layers:

- the `POST /validate-address` handler, covering request checking, status
  selection, payload assembly and when to ask for suggestions;
- the filter that turns places-autocomplete predictions into suggestion strings;
- the server's API-key gate, plus the switch that turns rate limiting on.

The project models all of it as immutable datatypes with `Option` fields over
`string = seq<char>` and total functions. I/O is always a parameter: the
provider's result (or what it threw) and the places HTTP response are values or
functions handed in. The route's reply records the outbound calls it made, so
statements like "no provider call on a bad request" can be written down.

Modules, one per source file or concern:

| module | file | models |
|---|---|---|
| `Wrappers` | wrappers.dfy | `Option`, `Result` |
| `JsString` | js_string.dfy | JavaScript truthiness, `trim`, `indexOf`, `split`/`join` on one character, ASCII `toUpperCase` |
| `ValidationTypes` | validation_types.dfy | the provider result shape and its optional-chaining accessors |
| `AddressStandardizer` | address_standardizer.dfy | `findComponent`, `deriveStreet`, `deriveNumber`, `standardizeAddress` |
| `Deliverability` | deliverability.dfy | `DeliverabilityIssue`, `isMissingSecondary`, `assessDeliverability` |
| `PlacesAutocomplete` | places_autocomplete.dfy | `getAddressSuggestions` guards and the prediction map/filter |
| `ValidateAddressRoute` | validate_address_route.dfy | the `/validate-address` handler's decisions |
| `ApiKeyGate` | api_key_gate.dfy | the `onRequest` key gate and the rate-limit switch |

Four behaviours of the code that are easy to misread:

- `isDeliverable` includes the region check (src/domain/deliverability.ts:52).
  The verdict is therefore deliverable exactly when the collected issue list is
  empty, so forcing the list empty on a deliverable verdict
  (src/domain/deliverability.ts:60) never changes anything. `DeliverableIffNoIssues`
  proves this.
- The number's leading token is cut at the first single space (`split(' ')`);
  tabs and other whitespace do not end it. The whole token is kept when its first character is an ASCII
  digit.
- A code with no hyphen and more than 5 characters always has a remainder after
  the first 5 characters. So the "no remainder, ZIP+4 unset" branch
  (src/domain/addressStandardizer.ts:59) can never run, and `SplitPostalCode`
  always sets ZIP+4 in that case.
- Rate limiting is on only when `RATE_LIMIT_ENABLED` is exactly `"true"`
  (src/server.ts:20). An unset variable leaves it off, although the comment at
  src/server.ts:19 reads as if it were on by default. `RateLimitNeedsExactTrue`
  proves the unset case.

## Model

| member | source | states |
|---|---|---|
| JsString.Trim | src/routes/validateAddress.ts:11-17 | `trim()` returns the infix of the input that neither starts nor ends with whitespace, and everything removed on either side is whitespace. The result is empty exactly when the input is all whitespace. |
| JsString.TrimIdempotent | src/routes/validateAddress.ts:17 | Trimming the already-trimmed address changes nothing. |
| JsString.IndexOf | src/domain/addressStandardizer.ts:52-53 | The first-occurrence helper behind `includes('-')` and `split`. It gives the position of the first occurrence of the character, with no earlier occurrence, and is absent exactly when the character does not occur. |
| JsString.Split | src/domain/addressStandardizer.ts:53 | `split(c)` returns at least one piece, and no piece contains the separator. There is exactly one piece when the separator does not occur. |
| JsString.SplitHead | src/domain/addressStandardizer.ts:53 | The first piece of a split is the text before the first separator. The other pieces are the split of the text after it. |
| JsString.JoinSplit | src/domain/addressStandardizer.ts:53 | Joining the pieces of a split with the separator gives back the original string. |
| JsString.SplitJoin | src/domain/addressStandardizer.ts:53 | Splitting the join of separator-free pieces gives back exactly those pieces. |
| JsString.BeforeAfterSeparated | src/domain/addressStandardizer.ts:53 | Cutting `x + c + y` at its first `c`, when `x` has no `c`, gives `x` and `y`. |
| JsString.UpperIsUs | src/domain/deliverability.ts:32-33 | Under ASCII upper-casing, exactly "US", "Us", "uS" and "us" become "US". |
| JsString.ToUpperAscii | src/domain/deliverability.ts:32 | Upper-casing keeps the length, maps each ASCII lower-case letter to its capital, and leaves every other character unchanged. |
| AddressStandardizer.FindIn | src/domain/addressStandardizer.ts:17-18 | Gives the text of the first component of the requested type. When that first match has no text, the result is absent even if a later match has text. With no match, the result is absent. |
| AddressStandardizer.FindComponent | src/domain/addressStandardizer.ts:13-19 | A result without a component list gives absent. Otherwise it is the first-match lookup over that list. |
| AddressStandardizer.DeriveStreet | src/domain/addressStandardizer.ts:22-28 | A non-empty `route` component wins. Otherwise the first address line is returned verbatim, or absent. |
| AddressStandardizer.StreetFromRoute | src/domain/addressStandardizer.ts:22-24 | If the first `route` component has non-empty text, the standardized street is that text, whatever the address lines hold. |
| AddressStandardizer.StreetFromFirstLine | src/domain/addressStandardizer.ts:26-27 | With no component list, or a first `route` match without usable text, the street is `addressLines[0]` verbatim, or absent. |
| AddressStandardizer.FirstToken | src/domain/addressStandardizer.ts:38 | The first token is the prefix of the line up to its first single space. It contains no space. |
| AddressStandardizer.DeriveNumber | src/domain/addressStandardizer.ts:31-40 | A non-empty `street_number` component wins. Otherwise there is a number exactly when the first line is non-empty and its first token starts with an ASCII digit. That number is the whole first token: a space-free prefix of the line that ends at the line's first space or at its end. |
| AddressStandardizer.NumberFromLeadingToken | src/domain/addressStandardizer.ts:35-39 | For a first line `token + " " + rest`, the number is the whole token ("123A") when it starts with a digit, and absent ("Main") otherwise. |
| AddressStandardizer.NumberFromSpacelessLine | src/domain/addressStandardizer.ts:35-39 | For a first line with no space, the number is the whole line ("123") when it starts with a digit, and absent otherwise. |
| AddressStandardizer.SplitPostalCode | src/domain/addressStandardizer.ts:51-63 | An absent or empty code sets nothing. A hyphenated code gives zip = the text before the first hyphen, and ZIP+4 = `zip-second` when the second segment is non-empty, else the code itself. A code longer than 5 gives zip = the first 5 characters and ZIP+4 = `zip-rest`. Codes of length 1 to 5 give zip = the code and no ZIP+4. Whenever zip is set it is a prefix of the code. |
| AddressStandardizer.StandardizeAddress | src/domain/addressStandardizer.ts:44-73 | City and state are `locality` and `administrativeArea`, untransformed. Street and number come from their derivations. Zip and ZIP+4 come from the postal-code split, and zip is a prefix of the postal code. |
| AddressStandardizer.ZipPlus4ExtendsZip | src/domain/addressStandardizer.ts:51-63 | Whenever ZIP+4 is set, zip is set too, and ZIP+4 starts with zip followed by a hyphen. |
| AddressStandardizer.SplitPostalCodeIdempotent | src/domain/addressStandardizer.ts:51-63 | Splitting a produced ZIP+4 again yields the same zip and the same ZIP+4, so the split is a normalisation. |
| AddressStandardizer.HyphenatedExample | src/domain/addressStandardizer.ts:52-55 | "12345-6789" gives zip "12345" and ZIP+4 "12345-6789". |
| AddressStandardizer.UnhyphenatedExamples | src/domain/addressStandardizer.ts:51-62 | "123456789" gives zip "12345" and ZIP+4 "12345-6789". "12345" gives zip "12345" and no ZIP+4. An absent code gives neither. |
| AddressStandardizer.HyphenatedCodeKept | src/domain/addressStandardizer.ts:52-55 | A code `base-suffix` with hyphen-free parts keeps `base` as zip and the code itself as ZIP+4. This includes the trailing-hyphen case. |
| AddressStandardizer.SecondHyphenDropped | src/domain/addressStandardizer.ts:53-55 | For `base-suffix-tail` with a non-empty suffix, ZIP+4 is `base-suffix`: everything from the second hyphen on is dropped. |
| Deliverability.WireNameInjective | src/domain/deliverability.ts:3-8 | Distinct issues have distinct wire strings. |
| Deliverability.IsMissingSecondary | src/domain/deliverability.ts:19-22 | True exactly when the DPV code is "S" or "D". |
| Deliverability.RegionIsUs | src/domain/deliverability.ts:32-33 | The region counts as US exactly when it is absent, empty, or "US" in any letter case. Any other code is non-US. |
| Deliverability.PushFlagged | src/domain/deliverability.ts:28-49 | Running the checks in turn and pushing each flagged issue yields exactly the flagged issues among the checks, and nothing else. |
| Deliverability.PushFlaggedInCheckOrder | src/domain/deliverability.ts:33-49 | Checks run in check order push their issues in check order. |
| Deliverability.FlaggedIffApplies | src/domain/deliverability.ts:33-47 | Each test as the assessor writes it (the upper-cased region test, `isMissingSecondary`, strict `=== true`, `=== false`, `!== 'Y'`) is exactly the stated condition for its issue. A non-US region is stated as a present code outside "", "US", "Us", "uS" and "us". |
| Deliverability.CollectIssues | src/domain/deliverability.ts:28-49 | An issue is collected exactly when its own condition applies. NON_US_ADDRESS applies for a non-US region. MISSING_SECONDARY applies for DPV S or D. UNCONFIRMED_COMPONENTS applies only for a strict `true`. INSUFFICIENT_ADDRESS applies only for a strict `false`. DPV_NOT_CONFIRMED applies for anything but "Y", including absent. The list has no duplicates and follows the fixed check order. |
| Deliverability.AssessDeliverability | src/domain/deliverability.ts:25-65 | Deliverable exactly when no condition applies, which implies DPV "Y" and no missing secondary. The emitted issues are exactly the applicable ones, in check order. `missingSecondary`, `dpvConfirmation` and `dpvFootnotes` are passed through whatever the verdict. |
| Deliverability.DeliverableIffNoIssues | src/domain/deliverability.ts:51-60 | Deliverable exactly when the collected list is empty. The emitted list always equals the collected list, so the suppression is a no-op. |
| Deliverability.MissingSecondaryImpliesDpvNotConfirmed | src/domain/deliverability.ts:36-49 | MISSING_SECONDARY never appears without DPV_NOT_CONFIRMED. |
| Deliverability.InCheckOrderUnique | src/domain/deliverability.ts:33-49 | Two issue lists in check order with the same members are equal. |
| Deliverability.IssuesDeterminedByConditions | src/domain/deliverability.ts:28-60 | Any list in check order holding exactly the applicable issues is the emitted list. The conditions alone determine the output. |
| Deliverability.ConfirmedUsExample | src/domain/deliverability.ts:51-60 | DPV "Y", complete, no unconfirmed components and region "US" is deliverable with no issues. |
| Deliverability.SecondaryMissingExample | src/domain/deliverability.ts:36-49 | An "S" code gives missingSecondary and an undeliverable verdict that lists both MISSING_SECONDARY and DPV_NOT_CONFIRMED. |
| Deliverability.ForeignRegionExample | src/domain/deliverability.ts:32-34 | Region "CA" gives an undeliverable verdict that lists NON_US_ADDRESS. |
| PlacesAutocomplete.DisplayText | src/services/googlePlacesAutocomplete.ts:35-38 | A non-empty description, else a non-empty `main_text`, else the empty string. |
| PlacesAutocomplete.Kept | src/services/googlePlacesAutocomplete.ts:35-43 | A prediction survives the filter exactly when it has a non-empty description or a non-empty `main_text`, and a present, non-empty `place_id`. |
| PlacesAutocomplete.SuggestionTexts | src/services/googlePlacesAutocomplete.ts:32-44 | Returns at most one string per prediction, every string non-empty. Each is the display text of a kept prediction, that is one with display text and a non-empty `place_id`. No kept predictions gives `[]`, and all kept gives one per prediction. |
| PlacesAutocomplete.KeptPositions | src/services/googlePlacesAutocomplete.ts:39-44 | Lists, in increasing order, exactly the positions of predictions that survive the filter. |
| PlacesAutocomplete.SuggestionTextsInOrder | src/services/googlePlacesAutocomplete.ts:33-44 | The k-th suggestion is the display text of the k-th kept prediction, so prediction order is preserved. |
| PlacesAutocomplete.GetAddressSuggestions | src/services/googlePlacesAutocomplete.ts:11-47 | A missing key, blank input, a thrown request, a missing body or missing `predictions` all give `[]`. Otherwise the result is the filtered predictions for the untrimmed input, and never an empty string. |
| ValidateAddressRoute.VerdictCalls | src/routes/validateAddress.ts:20-30 | The provider is called first. The suggestion call is made exactly when suggestions are fetched. There are two calls in that case and one otherwise, all carrying the same address. |
| ValidateAddressRoute.ShouldFetchSuggestions | src/routes/validateAddress.ts:24-28 | Suggestions are fetched exactly when the verdict is undeliverable and the issues include INSUFFICIENT_ADDRESS, UNCONFIRMED_COMPONENTS or DPV_NOT_CONFIRMED. |
| ValidateAddressRoute.UpstreamMessage | src/routes/validateAddress.ts:61 | A thrown `Error` gives its own message. Any other thrown value gives "Unknown error". |
| ValidateAddressRoute.VerdictReply | src/routes/validateAddress.ts:20-56 | The payload echoes the trimmed input and the formatted address. Verdict, issues and DPV metadata come from the assessment, and `metadata.zipPlus4` equals `standardized.zipPlus4`. Status is 200 exactly when deliverable, else 422. Suggestions are fetched, with the same address, exactly when triggered, and are `[]` otherwise. |
| ValidateAddressRoute.HandleValidateAddress | src/routes/validateAddress.ts:10-63 | A non-string or whitespace-only body gives 400 INVALID_REQUEST with no outbound call. A provider failure gives 502 UPSTREAM_ERROR with its message and nothing else. A success gives the 200/422 verdict reply. |
| ValidateAddressRoute.CallsUseTrimmedAddress | src/routes/validateAddress.ts:17-30 | Past the body check, the trimmed address is non-empty, the provider is called first, and every outbound call carries that trimmed address. |
| ValidateAddressRoute.SuggestionTrigger | src/routes/validateAddress.ts:24-28 | Suggestions are fetched exactly when the DPV code is not "Y", a component is unconfirmed or the address is incomplete. A non-US region alone never triggers them. |
| ValidateAddressRoute.VerdictStatusReflectsIssues | src/routes/validateAddress.ts:48-56 | On a verdict reply the status is 200 exactly when the reported issue list is empty. |
| ValidateAddressRoute.DeliverableFetchesNothing | src/routes/validateAddress.ts:26-30 | A deliverable verdict has no suggestions and makes no suggestion call. |
| ValidateAddressRoute.SuggestionsFromPlaces | src/routes/validateAddress.ts:30 | Wired to the places filter, every suggestion in a verdict reply is non-empty. |
| ApiKeyGate.RequestPath | src/server.ts:43 | The path is the URL, or `""` when absent, up to its first '?'. It contains no '?'. |
| ApiKeyGate.ProvidedKey | src/server.ts:46-47 | The presented key is the header value itself, or the first element when the value arrives as an array. It is absent exactly when the header delivers no value. |
| ApiKeyGate.OnRequest | src/server.ts:40-55 | With no configured key every request passes. With a key, the request is refused with 401 UNAUTHORIZED exactly when the path is not "/health" and the presented key is absent or differs from the configured one. |
| ApiKeyGate.PathIgnoresQuery | src/server.ts:43 | A query string after '?' does not change the path. |
| ApiKeyGate.HealthPath | src/server.ts:43 | "/health" and "/health?…" both have the path "/health". |
| ApiKeyGate.HealthIsOpen | src/server.ts:43-44 | "/health" and "/health?…" pass the gate whatever key is configured or presented. |
| ApiKeyGate.ConfiguredKeyPasses | src/server.ts:49 | Presenting exactly the configured key passes on any path. |
| ApiKeyGate.FirstListedKeyDecides | src/server.ts:46-47 | A header value that arrives as an array is judged by its first element. |
| ApiKeyGate.JoinedHeaderRejected | src/server.ts:46-54 | The joined string "k, x" is not the configured key "k", so the gate answers 401. |
| ApiKeyGate.RateLimitNeedsExactTrue | src/server.ts:20 | Only the exact string "true" turns rate limiting on. "TRUE", "True", "1" and absent leave it off. |
| ApiKeyGate.RateLimitEnabled | src/server.ts:20 | Rate limiting is on for the setting "true". An absent setting, or any other text, leaves it off. |

## Left out

- The provider client (src/services/googleAddressValidation.ts) is not part of this model. It builds the request and wraps network errors. Its result, or what it threw, is the `upstream` parameter of the route.
- The places HTTP request (query parameters, API key, 3-second timeout) is not modelled. `fetch` maps the input text to the response or to a throw.
- Fastify wiring is not modelled: plugin and route registration, the text body parser, `/health` itself, `listen`, `process.exit`, logging and `console.log`. It is I/O only.
- `Number(...)` parsing of `PORT`, `RATE_LIMIT_MAX` and `RATE_LIMIT_WINDOW_MS` and their defaults are not modelled. They are JavaScript numeric coercion with no decision logic.
- Rate-limit enforcement is left out. It is an external library; only the switch that enables it is modelled.
- src/schemas/validateAddress.ts is not part of this model. The route does not use it.
- async/await, timeouts and concurrency are left out. They do not affect any decision.
- Provider fields the code never reads are left out: granularities, inferred/replaced flags, `confirmationLevel`, the other USPS flags and `metadata`.
- JSON `null` is not modelled. Every optional field is either present or absent (`undefined`).
- A prediction that is not an object, which would throw inside the map and be caught, is not modelled. Every prediction is a record.
- JsString.ToUpperAscii: maps only ASCII letters. It does not model full Unicode `toUpperCase`, such as "ß" becoming "SS".
- ApiKeyGate.ProvidedKey: Node joins a repeated `x-api-key` header into one comma-separated string, so `ValueList` models only the code's defensive branch for a `string[]` header value. The joining itself happens in Node and is not modelled; a joined value reaches the gate as `SingleValue`.
- Deliverability.RegionIsUs: upper-cases ASCII letters only. So "uſ" and "Uſ" (U+017F, LATIN SMALL LETTER LONG S) count as non-US here, but the code treats them as US, because JavaScript's `toUpperCase` turns them into "US".
- AddressStandardizer.SplitPostalCode: counts characters as Unicode scalar values. JavaScript's `length` and `slice` count UTF-16 code units, so the two differ for codes that contain characters outside the Basic Multilingual Plane.
