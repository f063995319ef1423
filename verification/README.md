# PayPal API client: a Dafny model

This project models the behaviour of the `npm-paypal-api` TypeScript client
for the PayPal REST API. Four classes carry that behaviour:

- `PayPalClient` holds the client credentials, picks the API host and keeps a
  cached OAuth 2.0 access token. `getAccessToken` answers from the cache while
  the token is fresh. Otherwise it calls the token endpoint with HTTP Basic
  credentials. An error answer makes it throw and cache nothing. A granted
  token is stored with its expiry.
- `PayPal` is the older single-class client. Its token cache is overwritten
  from every answer without an error check. It wraps order capture, order
  creation and order lookup, each with its own status rule, plus webhook
  signature verification.
- `PayPalOrdersClient.createOrder` merges the caller's headers with three
  headers that the client always sets.
- `PayPalWebhooksManagementClient.verifyWebhookSignature` serialises the
  caller's fields with a placeholder `webhook_event` value. It then replaces
  the first quoted placeholder with the raw webhook body. The intent is that
  PayPal receives the event exactly as it was delivered. That holds when the
  raw body has no `$` and no caller field is the placeholder or ends with a
  double quote followed by it; the findings below show inputs where it fails.

Modules, one file each:

- `Wrappers`: `Option` and `Result`.
- `EcmaString`: StringIndexOf and `String.prototype.replace` with a string
  pattern, as ECMA-262 (2024 edition) defines them in sections 6.1.4.1 and
  22.1.3.19. This includes the expansion of `$` patterns by GetSubstitution
  (section 22.1.3.19.1).
- `Utf8` and `Base64`: the UTF-8 encoding of the credentials and base64 as
  section 4 of RFC 4648 defines it, with a decoder and the round trip.
- `FlatJson`: objects as ordered property lists. It covers object spread and
  property assignment, and `JSON.stringify` of a flat object whose values are
  strings (escaped as section 7 of RFC 8259 requires) or raw text.
- `Http`: hosts, paths, the request and response records that stand in for
  `fetch`, and the Basic (section 2 of RFC 7617) and Bearer `Authorization`
  values.
- `TokenClient`: `PayPalClient` as a class with a state-changing
  `GetAccessToken`, proved against the function `Refresh`.
- `LegacyPayPal`: `PayPal` as a class, with its own `Refresh`, URL builders,
  status rules and request builders.
- `OrdersClient` and `WebhooksClient`: the two thin clients over a shared
  `PayPalClient`.
- `WebhookBody`: the verification body, both as the clients write it (the
  splice) and as it is meant to be (the raw event written into the
  `webhook_event` slot).

The clock, the token endpoint and the API are parameters. `now` is the clock
reading taken for the expiry check. `later` is the reading taken when the new
expiry is computed. The token answer and the API response are passed in and
consulted only when the request is made. Every method returns the requests
it would send, so contracts can state what goes on the wire.

## Model

| member | source | states |
|---|---|---|
| Http.BaseUrl | src/classes/PayPalClient.ts:78 | the host is the sandbox host exactly when the client is set up for the sandbox, and the live host exactly when it is not |
| Http.BasicAuthorization | src/classes/PayPalClient.ts:93 | the token request's `Authorization` value starts with `Basic `, and the rest decodes as base64 to the UTF-8 bytes of `clientId:secret` |
| Http.Bearer | src/classes/PayPalOrdersClient.ts:57 | an API call's `Authorization` value is `Bearer ` followed by the token, unchanged |
| Http.TokenRequest | src/classes/PayPalClient.ts:88-96 | the token request is a POST to the host's token path, with no body and exactly two headers: the Basic credentials and the form content type |
| Http.BasicAuthorizationRecoversCredentials | src/classes/PayPalClient.ts:93 | a server that splits the decoded credentials at the first colon recovers the client ID and the secret, provided the client ID has no colon |
| Base64.DecodeEncode | src/classes/PayPalClient.ts:93 | decoding the base64 encoding of any byte string gives that byte string back |
| EcmaString.IndexOfFrom | src/classes/PayPalWebhooksManagementClient.ts:49 | the result is the first index at or after `from` where the pattern occurs, or none when it occurs nowhere there |
| EcmaString.GetSubstitution | src/classes/PayPalWebhooksManagementClient.ts:49 | a replacement with no `$` is inserted as it is |
| EcmaString.ReplaceAtFirstOccurrence | src/classes/PayPalWebhooksManagementClient.ts:49 | `replace` keeps the text before and after the first occurrence and puts the substituted replacement in between |
| EcmaString.ReplaceVerbatim | src/classes/PayPalWebhooksManagementClient.ts:49 | with no `$` in the replacement, the result is prefix + replacement + suffix; its length is the old length minus the pattern plus the replacement; the replacement occurs at the match |
| FlatJson.Assign | src/classes/PayPalWebhooksManagementClient.ts:39-44 | assigning a key adds it to the keys, keeps keys distinct, and gives it the new value; every other key keeps its value; existing keys keep their positions; nothing else changes |
| FlatJson.SpreadGet | src/classes/PayPalWebhooksManagementClient.ts:41 | after a spread, a key the fields name has the value of the last field with that name, and every other key keeps its value in the target |
| FlatJson.SpreadKeeps | src/classes/PayPalWebhooksManagementClient.ts:41 | spreading fields keeps any property that holds of the target and of every field |
| FlatJson.UnescapeEscape | src/classes/PayPalWebhooksManagementClient.ts:49 | reading back a string escaped the way `JSON.stringify` escapes it gives the string back |
| FlatJson.StringifySlot | src/classes/PayPalWebhooksManagementClient.ts:49 | the serialised object is the text before property `i`'s value, that value, and the text after it |
| FlatJson.EscapedEndsWithQuoted | src/classes/PayPalWebhooksManagementClient.ts:49 | if the escaped text of a string ends with a double quote and a word without backslashes, the string itself ends that way |
| FlatJson.QuotedWordOccurrence | src/classes/PayPalWebhooksManagementClient.ts:49 | the literal `JSON.stringify` writes for a string holds the quoted inert word exactly when the string is that word or ends with a double quote followed by it |
| FlatJson.FirstQuotedWordAtSlot | src/classes/PayPalWebhooksManagementClient.ts:49 | if property `i` holds a plain word and nothing before it looks like that word, the first occurrence of the quoted word is property `i`'s value |
| TokenClient.Refresh | src/classes/PayPalClient.ts:81-109 | a call fetches exactly when the cache is not fresh; a returned token is the one now cached; an error answer throws the fixed message and leaves the cache as it was; a hit changes nothing |
| TokenClient.FirstCallFetches | src/classes/PayPalClient.ts:74-83 | a new client's first call fetches, at any time |
| TokenClient.HitReturnsCachedToken | src/classes/PayPalClient.ts:83-86 | with a token that expires strictly after now, the call returns it, fetches nothing and changes nothing |
| TokenClient.ExpiryIsStrict | src/classes/PayPalClient.ts:83 | a token that expires at the current second counts as expired, so the call fetches |
| TokenClient.RejectionKeepsCache | src/classes/PayPalClient.ts:98-103 | an error answer throws and keeps both cache fields |
| TokenClient.GrantIsStored | src/classes/PayPalClient.ts:105-108 | a granted token is stored with expiry `later + expires_in` and returned |
| TokenClient.SecondCallHits | src/classes/PayPalClient.ts:83-106 | after a grant with a positive lifetime, a second call at the same time returns the same token without fetching |
| TokenClient.FreshCacheFetchesNothing | src/classes/PayPalClient.ts:83-86 | a run of calls that all find the cache fresh makes no fetch and leaves the cache unchanged |
| TokenClient.SameInstantFetchesAtMostOnce | src/classes/PayPalClient.ts:83-106 | calls at the same time, each of which would be granted a positive lifetime, fetch at most once between them |
| TokenClient.PayPalClient.constructor | src/classes/PayPalClient.ts:58-79 | the options are kept, the host is chosen by the sandbox flag, the token is absent and the expiry is 0 |
| TokenClient.PayPalClient.GetAccessToken | src/classes/PayPalClient.ts:81-109 | the new cache, the result and the fetch count are those of `Refresh`; the token request is sent exactly when it fetches |
| LegacyPayPal.Refresh | src/classes/PayPal.ts:65-88 | a call fetches exactly when the cache is not fresh; a fetch overwrites both fields from the answer; the returned token is always the cached one; a hit changes nothing |
| LegacyPayPal.FirstCallFetches | src/classes/PayPal.ts:43-70 | a new client's first call fetches, because its expiry is undefined |
| LegacyPayPal.HitReturnsCachedToken | src/classes/PayPal.ts:67-70 | with a token that expires strictly after now, the call returns it and changes nothing |
| LegacyPayPal.MissingTokenFetchesAgain | src/classes/PayPal.ts:82-87 | an answer without `access_token` returns no token and leaves none cached, so the next call fetches again |
| LegacyPayPal.SecondCallHits | src/classes/PayPal.ts:67-85 | after a fetch that got a token with a positive lifetime, a second call at the same time is a hit that returns the same token |
| LegacyPayPal.AgreesOnGrant | src/classes/PayPal.ts:65-88 | on a granted token, the older client fetches in the same cases as `PayPalClient`, returns the same token and ends with the same cache |
| LegacyPayPal.DiffersOnRejection | src/classes/PayPal.ts:82-87 | on an error answer, `PayPalClient` throws and keeps its cache, while `PayPal` returns no token and caches none |
| LegacyPayPal.BearerHeader | src/classes/PayPal.ts:102 | a missing token is sent as `Bearer undefined`; otherwise the value is the bearer value of the token |
| LegacyPayPal.OrderUrl | src/classes/PayPal.ts:164 | the order URL is the orders collection, a slash, and the ID exactly as given |
| LegacyPayPal.CaptureUrl | src/classes/PayPal.ts:97 | the capture URL is the order URL followed by `/capture` |
| LegacyPayPal.OrderUrlInjective | src/classes/PayPal.ts:164 | different IDs give different order URLs |
| LegacyPayPal.UnescapedIdReachesCapture | src/classes/PayPal.ts:97 | because the ID is not escaped, the order URL of `id/capture` is the capture URL of `id` |
| LegacyPayPal.CaptureOutcome | src/classes/PayPal.ts:112-117 | capture returns the parsed body exactly when the status is 200 or 201, and throws its message otherwise |
| LegacyPayPal.OkOutcome | src/classes/PayPal.ts:149-154 | order creation and lookup return the parsed body exactly when the status is 200, and throw their message otherwise |
| LegacyPayPal.StatusRulesDiffer | src/classes/PayPal.ts:112-154 | the capture rule and the creation and lookup rule disagree exactly at status 201 |
| LegacyPayPal.JsonHeaders | src/classes/PayPal.ts:100-104 | an authorised JSON call carries exactly `Authorization` and `Content-Type: application/json` |
| LegacyPayPal.CaptureRequest | src/classes/PayPal.ts:97-108 | capture is a POST of the serialised options to the capture URL, with the JSON headers |
| LegacyPayPal.CreateOrderRequest | src/classes/PayPal.ts:127-145 | order creation is a POST to the orders collection that passes the idempotency key on unchanged as `PayPal-Request-Id` |
| LegacyPayPal.GetOrderRequest | src/classes/PayPal.ts:164-171 | lookup is a GET of the order URL with only the `Authorization` header and no body |
| LegacyPayPal.PayPal.constructor | src/classes/PayPal.ts:49-58 | the options are kept, the host is chosen by the sandbox flag, and both cache fields are undefined |
| LegacyPayPal.PayPal.GetAccessToken | src/classes/PayPal.ts:65-88 | the new cache, the returned token and the fetch count are those of `Refresh`; the token request is sent exactly when it fetches |
| LegacyPayPal.PayPal.CaptureOrderPayment | src/classes/PayPal.ts:95-118 | the cache moves as `Refresh` says; the capture request carries the token obtained; the result follows the capture status rule |
| LegacyPayPal.PayPal.CreateOrder | src/classes/PayPal.ts:125-155 | the cache moves as `Refresh` says; the creation request carries the token obtained; the result follows the 200-only rule |
| LegacyPayPal.PayPal.GetOrder | src/classes/PayPal.ts:162-181 | the cache moves as `Refresh` says; the lookup carries the token obtained; the result follows the 200-only rule |
| LegacyPayPal.PayPal.VerifyWebhookSignature | src/classes/PayPal.ts:191-217 | the cache moves as `Refresh` says; the request posts the spliced body, built from the whole options object, with the token obtained; when the raw event has no `$` and the options are plain, that body is the raw event in the `webhook_event` slot; the answer is returned whatever the status |
| OrdersClient.CreateOrderHeaders | src/classes/PayPalOrdersClient.ts:52-59 | the header names are the caller's plus `Prefer`, `Authorization` and `Content-Type`; those three carry the client's values; every other caller header keeps its value |
| OrdersClient.FixedHeadersWin | src/classes/PayPalOrdersClient.ts:56-58 | whatever the caller passes under one of the three fixed names makes no difference to the headers sent |
| OrdersClient.CreateOrderRequest | src/classes/PayPalOrdersClient.ts:49-61 | order creation is a POST of the serialised order to the orders collection with the merged headers |
| OrdersClient.PayPalOrdersClient.constructor | src/classes/PayPalOrdersClient.ts:40-43 | the client keeps the shared `PayPalClient` |
| OrdersClient.PayPalOrdersClient.CreateOrder | src/classes/PayPalOrdersClient.ts:45-64 | the token is obtained once, first; if that throws, nothing is sent and the same error is thrown; otherwise the request carries that token and the parsed answer is returned whatever the status |
| WebhookBody.QuotedSentinelLength | src/classes/PayPalWebhooksManagementClient.ts:49 | the replaced pattern is 14 characters long |
| WebhookBody.SentinelQuoted | src/classes/PayPalWebhooksManagementClient.ts:43-49 | serialising the placeholder value gives exactly the pattern that is replaced |
| WebhookBody.SignatureBody | src/classes/PayPalWebhooksManagementClient.ts:39-44 | the placeholder is the `webhook_event` value whatever the caller passed; no key repeats; the keys are the caller's and `webhook_event` |
| WebhookBody.SignatureBodyKeepsFields | src/classes/PayPalWebhooksManagementClient.ts:39-44 | every key other than `webhook_event` has in the body the value the caller's fields give it, and a key they do not name is absent |
| WebhookBody.EventIndex | src/classes/PayPalWebhooksManagementClient.ts:39-44 | the `webhook_event` slot holds the placeholder and no property before it has that key |
| WebhookBody.SpliceAtSlot | src/classes/PayPalWebhooksManagementClient.ts:49 | when nothing before a slot looks like its word and the raw text has no `$`, replacing the first quoted word writes the raw text in place of that slot's value |
| WebhookBody.SentinelInSlot | src/classes/PayPalWebhooksManagementClient.ts:43-49 | before splicing, the quoted placeholder fills the `webhook_event` slot of the serialised body |
| WebhookBody.SentinelAlwaysOccurs | src/classes/PayPalWebhooksManagementClient.ts:43-49 | the quoted placeholder always occurs, so the replacement always happens, and its first occurrence is no later than the `webhook_event` slot |
| WebhookBody.SplicedAtFirstOccurrence | src/classes/PayPalWebhooksManagementClient.ts:49 | the spliced body keeps the text around the first quoted placeholder and puts the substituted raw event there |
| WebhookBody.VerbatimBodyAtSlot | src/classes/PayPalWebhooksManagementClient.ts:49 | the corrected body is prefix + raw + suffix around the `webhook_event` slot, for every raw event; the raw event occurs there character for character; the length is the serialised length minus 14 plus the raw length |
| WebhookBody.SplicedIsVerbatim | src/classes/PayPalWebhooksManagementClient.ts:39-49 | with no `$` in the raw event and plain caller fields, the spliced body equals the corrected body |
| WebhookBody.PlainWithoutTrailingUnderscores | src/classes/PayPal.ts:193-203 | fields whose keys and values are empty or do not end in `_` are plain; this covers options whose `rawBody` is the event as a JSON object |
| WebhookBody.DollarPatternsExpanded | src/classes/PayPalWebhooksManagementClient.ts:49 | the raw event `$$` is spliced in as one `$`, so the spliced body is one character shorter than the corrected one |
| WebhookBody.CapturedByEarlierValue | src/classes/PayPalWebhooksManagementClient.ts:39-49 | in a body whose first value is a quote followed by the word and whose second value is the word, the splice lands in the first value: the spliced body still ends with the second value's closing quote, while the corrected body ends with the raw text |
| WebhookBody.EarlierFieldCaptured | src/classes/PayPalWebhooksManagementClient.ts:39-49 | a caller value `"__RAW_BODY__` captures the splice: the spliced body differs from the corrected one |
| WebhookBody.VerifyRequest | src/classes/PayPalWebhooksManagementClient.ts:51-60 | the verification request is a POST of the body to the verification path, with exactly the JSON content type and the given `Authorization` |
| WebhooksClient.PayPalWebhooksManagementClient.constructor | src/classes/PayPalWebhooksManagementClient.ts:25-28 | the client keeps the shared `PayPalClient` |
| WebhooksClient.PayPalWebhooksManagementClient.VerifyWebhookSignature | src/classes/PayPalWebhooksManagementClient.ts:37-63 | if getting the token throws, nothing is sent and the same error is thrown; otherwise the request posts the spliced body with that token, and the answer is returned whatever the status; when the raw event has no `$` and the fields are plain, the body posted is the raw event in the `webhook_event` slot |

## Left out

- `fetch`, the transport and `response.json()`: requests are returned as values and responses are parameters. A body that fails to parse as JSON, which makes `response.json()` throw, is not modelled.
- `luxon`'s clock: times are whole seconds in `now` and `later`, not floating-point seconds, and `expires_in` is an integer.
- A token answer without `expires_in`: the expiry is then whatever `luxon` computes from an undefined duration; the legacy model stores `later + expiresIn` for some integer.
- Concurrency: two overlapping `getAccessToken` calls can both fetch; calls are modelled one at a time.
- `JSON.stringify` of nested values: request bodies other than the webhook verification body are passed already serialised. The verification body is modelled for flat objects whose values are strings, which is what the caller's fields are. JavaScript's ordering of integer-like keys ahead of other keys is not modelled; keys keep insertion order.
- Lone UTF-16 surrogates in strings: characters are Unicode scalar values, so well-formed `JSON.stringify` escaping of lone surrogates does not arise.
- `Buffer.from(...).toString("base64")` is modelled by its definition (UTF-8, then section 4 of RFC 4648). `Base64.Decode` accepts any values in the unused padding bits.
- How `fetch` combines headers whose names differ only in case, and header order: headers are a map keyed by exact name.
- The older client's option names and types: its options object, the `rawBody` field among them, is a list of string pairs, whatever their names.
- WebhookBody.SplicedIsVerbatim: the condition is exact for each field taken alone (`FlatJson.QuotedWordOccurrence`) but only sufficient for the body. A field serialised after the `webhook_event` slot, or a `$` that starts no replacement pattern, is harmless but is excluded.
- TokenClient.Refresh: a token answer with neither `error` nor `access_token` cannot be expressed, since `TokenClient.TokenResponse` is either a grant or a rejection. At src/classes/PayPalClient.ts:105-108 such an answer stores and returns `undefined`, and the next call fetches again.
- LegacyPayPal.PayPal.CaptureOrderPayment: the default `{}` for the capture options is not modelled; the caller always passes the serialised options.
- LegacyPayPal.BearerHeader: an answer with `"access_token": null` is not told apart from one without the field. The source sends `Bearer null` for the first and `Bearer undefined` for the second; the model sends `Bearer undefined` for both.

## Findings

| source | as written | input that shows it | evidently intended | confidence | as-written member | corrected member |
|---|---|---|---|---|---|---|
| src/classes/PayPalWebhooksManagementClient.ts:49 | the raw body is the replacement string of `replace`, so `$$`, `$&`, `` $` `` and `$'` in it are expanded (the same line is at src/classes/PayPal.ts:203) | raw body `$$`, any plain fields | the raw body is inserted character for character | not executed | WebhookBody.DollarPatternsExpanded | WebhookBody.VerbatimBodyAtSlot |
| src/classes/PayPalWebhooksManagementClient.ts:39-49 | the first occurrence of `"__RAW_BODY__"` is replaced, and it can lie inside an earlier caller value | a field whose value is `"__RAW_BODY__` (serialised as `"\"__RAW_BODY__"`, which contains the pattern), raw body `{}` | the raw body replaces the `webhook_event` value | not executed | WebhookBody.EarlierFieldCaptured | WebhookBody.VerbatimBodyAtSlot |
