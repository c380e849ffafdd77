# Developer portal: bearer-token gate, browser session and PKCE encoder

A Dafny model of the core of a small developer portal. The backend (FastAPI, `backend/app.py`) sits
behind a Cognito bearer-token gate. It verifies the JWT in the `Authorization` header against the
pool's JSON Web Key Set (JWKS). It fetches that key set once and caches it for the life of the
process. Once a caller is authorized, it serves three things from AWS:
- ECS metrics, sorted by time;
- the tail of a service's log stream;
- documents from an S3 bucket.

The React frontend keeps the Cognito tokens in `localStorage` (`frontend/src/App.jsx`). It builds
PKCE verifiers and challenges with a base64url encoder (`LoginButton.jsx`). It labels chart axes
with `formatX` (`Health.jsx`).

| module (file) | models |
|---|---|
| `Common` (common.dfy) | Option, Result, bytes, the HTTP error FastAPI answers with |
| `Auth` (auth.dfy) | issuer and JWKS URL derivation, `split()[-1]` on the header, the first-match key lookup, the exception-to-status mapping of `verify_token`, the cache over a run of requests |
| `Backend` (backend.dfy) | class `Service`: the `JWKS` global and `fetch_jwks`, `verify_token`, `auth_required` and the authorized endpoints |
| `Handlers` (handlers.dfy) | the stable timestamp sort and the metrics loop, the empty-result rules of the logs endpoint, the key fallback and 404 of the docs endpoint |
| `Strings` (strings.dfy) | `indexOf`, `split`, `join`, `slice` on strings |
| `Health` (health.dfy) | `formatX` |
| `Base64Url` (base64url.dfy) | `btoa`, then the url-safe replacements and padding strip; a decoder; code verifier and S256 code challenge |
| `JsNumbers` (jsnumbers.dfy) | `String(number)`, `Number(string)`, `parseInt`, integer-or-NaN arithmetic |
| `Session` (session.dfy) | class `Browser`: `localStorage`, the `token` state and the URL hash; `refreshToken`, `captureTokens`, `logout` |

Oracles stand for the code the model cannot see. Each is a function-typed parameter or field:
- the JWKS HTTP fetch, `jwt.get_unverified_header` and `jwt.decode` (`Auth.Oracles`);
- CloudWatch, CloudWatch Logs and S3 (parameters of the handlers);
- the token endpoint (`Session.Exchange`);
- SHA-256;
- Python's `round`;
- UTF-8 decoding.

The clock is a parameter. `refreshToken` reads it after its request returns, so that reading is a
separate parameter. The environment the backend reads at start-up (region, pool and client id,
`CLUSTER_NAME`, `DOCS_BUCKET`, `DOCS_KEY`) is fixed when a `Backend.Service` is constructed.

## Model

| member | source | states |
|---|---|---|
| Auth.Issuer | backend/app.py:27 | the issuer exists exactly when the pool id is set and non-empty |
| Auth.JwksUrl | backend/app.py:28 | the JWKS URL exists exactly when the pool id is set and non-empty |
| Auth.IssuerAndJwksUrlDetermineThePool | backend/app.py:27-28 | the pool id can be read back from the issuer, and the issuer from the JWKS URL: both are built as "https://cognito-idp." + region + ".amazonaws.com/" + pool id, then + "/.well-known/jwks.json" |
| Auth.IssuerIsInjective | backend/app.py:27 | within one region, two configurations with the same issuer have the same pool id |
| Auth.RunLength | backend/app.py:74 | the length of the leading non-whitespace run, which stops at the first whitespace character |
| Auth.Words | backend/app.py:74 | `split()`: every word is non-empty and contains no whitespace |
| Auth.TrimEnd | backend/app.py:74 | strips only trailing whitespace and leaves a string that does not end in whitespace |
| Auth.FinalRun | backend/app.py:74 | the longest whitespace-free suffix, preceded by whitespace or the start |
| Auth.WordsOfSpaces | backend/app.py:74 | a whitespace-only string has no words |
| Auth.RunLengthAppend | backend/app.py:74 | appending text after a whitespace character does not change the leading run |
| Auth.RunLengthAppendSpaces | backend/app.py:74 | appending text that starts with whitespace does not change the leading run |
| Auth.WordsAppendSpaces | backend/app.py:74 | trailing whitespace adds no word |
| Auth.RunLengthOfNoSpace | backend/app.py:74 | a whitespace-free string is one run |
| Auth.RunLengthStopsAtSpace | backend/app.py:74 | the run ends no later than the first whitespace |
| Auth.WordsAppendWord | backend/app.py:74 | a word after whitespace becomes the last element of `split()` |
| Auth.LastOfWords | backend/app.py:74 | `split()` is empty exactly for all-whitespace input; otherwise its last element is the last whitespace-delimited segment |
| Auth.FinalRunAfterSpace | backend/app.py:74 | a whitespace-free word after whitespace is the final segment |
| Auth.BearerPrefixIsOptional | backend/app.py:74 | for any non-empty whitespace-free token, "Bearer " followed by the token and the bare token both yield the token |
| Auth.TrailingRun | backend/app.py:74 | the length of the whitespace-free run at the end, which is preceded by whitespace or the start |
| Auth.TrailingRunAfterSpace | backend/app.py:74 | after whitespace, the final run is exactly the word that follows |
| Auth.WordsOfTrimmed | backend/app.py:74 | for text not ending in whitespace, the last element of `split()` is its final run |
| Auth.FindKey | backend/app.py:54 | returns the first key whose `kid` equals the header's; not found exactly when every key has a `kid` and none matches; a key without `kid` reached before any match raises KeyError |
| Auth.FirstMatchIsUnique | backend/app.py:54 | the first matching key is unique |
| Auth.Rewrap | backend/app.py:66-69 | every exception caught in `verify_token` becomes a 401; a JWTError detail is prefixed "Token error: " |
| Auth.FetchResult | backend/app.py:39-45 | the key set is fetched only while the cache is empty and a URL is set; otherwise the cache is returned; a failed fetch raises |
| Auth.CacheAfterFetch | backend/app.py:39-45 | a populated cache never changes; an empty cache stays empty unless a fetch succeeds, and then holds exactly what was fetched |
| Auth.CheckToken | backend/app.py:50-69 | every failure inside the `try` is 401; a failed fetch, header parse or decode gives the `Rewrap` of that failure ("Token error: " + reason for a JWTError, str(e) otherwise); no key set, no `keys`, an entry without `kid` and an unknown kid give the `Rewrap` of the exception Python raises there; a successful decode with the first matching key gives exactly its claims, and conversely success means the fetched key set has keys, the header parsed, and that decode returned these claims |
| Auth.Verify | backend/app.py:47-69 | unset pool or client id gives 500 "Cognito not configured" (outside the `try`); an error is 500 exactly when unconfigured and 401 otherwise |
| Auth.VerifySuccess | backend/app.py:50-65 | a successful verification used the key set now in the cache, the first matching key, RS256, the client id as audience and the issuer; the claims are the decode oracle's result |
| Auth.UnknownKidIsRefused | backend/app.py:54-56 | with a cached key set in which no key matches, the answer is 401 "401: Unknown token key" and the cache is kept |
| Auth.MatchingTokenIsAccepted | backend/app.py:50-65 | whether the key set was cached or is fetched by this very request, a matching key and a successful decode return the claims, and the cache then holds that key set |
| Auth.HeaderToken | backend/app.py:71-74 | absent or empty header: 401 "Missing Authorization header"; whitespace-only: the framework's 500; otherwise the last segment |
| Auth.Authorize | backend/app.py:71-75 | header errors come before verification; otherwise the result is `verify_token` of the extracted token |
| Auth.PopulatedCacheIsFinal | backend/app.py:41-45 | once the cache holds a key set, no later request fetches and the cache keeps it |
| Auth.AtMostOneSuccessfulFetch | backend/app.py:41-45 | over any run of requests at most one fetch succeeds; if the cache ends empty, every fetch failed |
| Backend.Service.FetchJwks | backend/app.py:39-45 | new cache and result as `Auth.CacheAfterFetch`/`Auth.FetchResult`; requests only the configured URL and only while empty, and counts the request as failed exactly when the fetch fails; a populated cache is returned without a request; a failure leaves the cache empty |
| Backend.Service.VerifyToken | backend/app.py:47-69 | result and new cache as `Auth.Verify`; one request to the JWKS URL exactly when configured with an empty cache (none otherwise, so a populated cache fetches nothing), counted as failed exactly when the fetch fails |
| Backend.Service.AuthRequired | backend/app.py:71-75 | result and new cache as `Auth.Authorize`; one request to the JWKS URL exactly when the header yields a token and the service is configured with an empty cache, counted as failed exactly when the fetch fails; a header error makes no request |
| Backend.Service.MetricsEndpoint | backend/app.py:87-88 | an authorization error is returned unchanged; for an authorized caller, success exactly when both CloudWatch queries succeed, with exactly the two metric names as keys, each holding its series, and otherwise the first failure's 500 "Metrics fetch failed: ..."; the cluster is the configured `CLUSTER`; the JWKS request and failure counts grow as in `AuthRequired`, so a populated cache fetches nothing |
| Backend.Service.LogsEndpoint | backend/app.py:113-114 | an authorization error is returned unchanged; otherwise `Handlers.GetLogs`; the JWKS request and failure counts grow as in `AuthRequired`, so a populated cache fetches nothing |
| Backend.Service.DocsEndpoint | backend/app.py:141-142 | an authorization error is returned unchanged; otherwise `Handlers.GetDocs` with the configured `DOCS_BUCKET` and `DOCS_KEY`; the JWKS request and failure counts grow as in `AuthRequired`, so a populated cache fetches nothing |
| Handlers.InsertIsPermutation | backend/app.py:106 | insertion adds exactly the new datapoint |
| Handlers.InsertKeepsAscending | backend/app.py:106 | insertion keeps ascending order by timestamp |
| Handlers.InsertWithTimestamp | backend/app.py:106 | among equal timestamps, the inserted datapoint goes first |
| Handlers.AscendingCons | backend/app.py:106 | a head no later than every element of an ascending tail keeps the order ascending |
| Handlers.WithTimestampCons | backend/app.py:106 | the datapoints with a given timestamp, in order, are the head when it has that timestamp followed by those of the tail |
| Handlers.InsertSortsHead | backend/app.py:106 | inserting the head into a sorted permutation of the tail gives a sorted permutation of the whole |
| Handlers.SortByTimestamp | backend/app.py:106 | ascending by timestamp and a permutation of the datapoints |
| Handlers.SortIsStable | backend/app.py:106 | datapoints with equal timestamps keep their order, as Python's `sorted` guarantees |
| Handlers.Series | backend/app.py:106-107 | one rounded value per datapoint, in ascending timestamp order; a missing "Datapoints" member is an empty list |
| Handlers.MetricQuery | backend/app.py:94-105 | the query for one metric names the metric, the cluster and the service, is in the `AWS/ECS` namespace, ends now, starts an hour (3600 s) before and has 60-second periods, asking for the average |
| Handlers.CollectedKeys | backend/app.py:93-107 | after the first k names were answered, the map the loop builds has exactly those names as keys |
| Handlers.CollectedValues | backend/app.py:93-107 | after the first k names were answered, each of them maps to the series of its own answer |
| Handlers.MetricNamesDistinct | backend/app.py:93 | the two metric names differ, so neither entry overwrites the other |
| Handlers.Metrics | backend/app.py:89-110 | succeeds exactly when both queries succeed; the result has exactly the keys CPUUtilization and MemoryUtilization, each holding its series; otherwise the first failing query gives 500 "Metrics fetch failed: ..." |
| Handlers.LogGroup | backend/app.py:115 | the log group is "/ecs/" followed by the service name, from which the service can be read back |
| Handlers.TailRequest | backend/app.py:127-132 | the events request names the service's group and the newest stream, and asks for the last 50 events (not from the head) |
| Handlers.Messages | backend/app.py:133 | one line per event, its message |
| Handlers.GetLogs | backend/app.py:115-138 | a missing log group or a vanished stream (ResourceNotFound), or no streams, gives no lines rather than an error; otherwise the newest stream's messages; other failures give 500 "Logs fetch failed: ..." |
| Handlers.LogsFailure | backend/app.py:135-138 | ResourceNotFound gives no lines; anything else gives 500 with the message |
| Handlers.DocKey | backend/app.py:144 | the path, or the default key when the path is empty |
| Handlers.GetDocs | backend/app.py:143-151 | success exactly when the object is read and decodes; NoSuchKey, and only NoSuchKey, is 404 "Document <key> not found in <bucket>"; any other S3 error and a decode failure are 500 "Docs fetch failed: " + the error's message |
| Strings.IndexOf | frontend/src/components/Health.jsx:21 | the first occurrence of the character |
| Strings.Split | frontend/src/components/Health.jsx:21 | at least one piece; joining the pieces with the separator gives back the input; no piece contains the separator |
| Strings.SplitJoin | frontend/src/App.jsx:52 | splitting parts joined with a separator none of them holds gives the parts back |
| Strings.IndexOfAfter | frontend/src/App.jsx:52 | the first separator in a + sep + b is right after a when a holds none |
| Strings.Prefix | frontend/src/components/Health.jsx:21 | `slice(0, n)` is the prefix of length min(n, length) |
| Health.FormatX | frontend/src/components/Health.jsx:21 | without 'T' the input comes back unchanged; with one, at most 5 characters with no 'T', a prefix of the text between the first 'T' and the next 'T' (or the end), of length min(5, that text's length) |
| Base64Url.UrlValue | frontend/src/components/LoginButton.jsx:8-9 | a character has a url-safe digit value exactly when it is in [A-Za-z0-9-_], and that value maps back to it |
| Base64Url.UrlValueOfDigit | frontend/src/components/LoginButton.jsx:8-9 | each url-safe digit decodes to its value |
| Base64Url.Sextets | frontend/src/components/LoginButton.jsx:8 | n bytes make (4n+2)/3 six-bit groups, which is 4n/3 rounded up |
| Base64Url.Padding | frontend/src/components/LoginButton.jsx:8 | `btoa` pads with '=' to a multiple of four characters |
| Base64Url.Base64 | frontend/src/components/LoginButton.jsx:8 | `btoa` of n bytes has 4 characters per started group of three bytes |
| Base64Url.ReplaceAll | frontend/src/components/LoginButton.jsx:9 | a global one-character replacement keeps the length, leaves no occurrence of the replaced character, turns every occurrence of the replaced character into the replacement and keeps every other character |
| Base64Url.StripTrailingPad | frontend/src/components/LoginButton.jsx:9 | `replace(/=+$/, "")` keeps a prefix that does not end in '=' and removes only '=' characters |
| Base64Url.Base64UrlEncode | frontend/src/components/LoginButton.jsx:7-9 | the encoder's output is no longer than `btoa`'s, has no '+' or '/', and does not end in '=' |
| Base64Url.UrlDigits | frontend/src/components/LoginButton.jsx:8-9 | one url-safe character per six-bit group |
| Base64Url.UrlEncode | frontend/src/components/LoginButton.jsx:8-9 | length (4n+2)/3 and only url-safe characters |
| Base64Url.StdDigitsAppend | frontend/src/components/LoginButton.jsx:8 | the digits of two runs of six-bit groups are the digits of each, in order |
| Base64Url.Base64Step | frontend/src/components/LoginButton.jsx:8 | a full group of three bytes adds its four digits and no padding |
| Base64Url.Base64IsDigitsThenPadding | frontend/src/components/LoginButton.jsx:8 | standard base64 is the digits of the six-bit groups followed by the padding |
| Base64Url.StripTrailingPadOfPadding | frontend/src/components/LoginButton.jsx:9 | `/=+$/` removes exactly the trailing padding |
| Base64Url.Base64UrlEncodeIsUrlEncode | frontend/src/components/LoginButton.jsx:8-9 | `btoa` then the three replacements equals direct url-safe encoding without padding |
| Base64Url.EncodeAlphabet | frontend/src/components/LoginButton.jsx:8-9 | the output has only [A-Za-z0-9-_]: no '+', '/' or '=' |
| Base64Url.EncodeLength | frontend/src/components/LoginButton.jsx:8-9 | the output has 4n/3 characters, rounded up |
| Base64Url.QuantumBits | frontend/src/components/LoginButton.jsx:8 | the four six-bit groups of three bytes carry exactly those bytes' bits |
| Base64Url.QuantumOfBits | frontend/src/components/LoginButton.jsx:8 | the bytes read from four six-bit groups split back into the same groups |
| Base64Url.BytesOfSextetsStep | frontend/src/components/LoginButton.jsx:8 | a full group of three bytes survives splitting and regrouping |
| Base64Url.BytesOfSextets | frontend/src/components/LoginButton.jsx:8 | regrouping the six-bit groups gives back the bytes |
| Base64Url.SextetsOfBytes | frontend/src/components/LoginButton.jsx:8 | a sequence of six-bit groups that decodes is the grouping of what it decodes to |
| Base64Url.SextetsOfBytesStep | frontend/src/components/LoginButton.jsx:8 | four six-bit groups that decode are the grouping of the three bytes they give |
| Base64Url.UrlSextets | frontend/src/components/LoginButton.jsx:8-9 | reads back every url-safe character, and fails exactly on a character outside the alphabet |
| Base64Url.UrlSextetsOfDigits | frontend/src/components/LoginButton.jsx:8-9 | reading the url-safe digits gives back the six-bit groups |
| Base64Url.DecodeEncode | frontend/src/components/LoginButton.jsx:8-9 | decoding the encoding gives back the bytes |
| Base64Url.EncodeDecode | frontend/src/components/LoginButton.jsx:8-9 | every string that decodes is the encoding of what it decodes to |
| Base64Url.Utf8 | frontend/src/components/LoginButton.jsx:22-23 | `TextEncoder.encode` gives, in total, at least as many bytes as characters and at most four times as many, and for ASCII text exactly the character codes |
| Base64Url.CodeVerifier | frontend/src/components/LoginButton.jsx:19 | 32 random bytes give a 43-character verifier of unreserved characters (RFC 7636 section 4.1), which decodes back to the bytes |
| Base64Url.CodeChallenge | frontend/src/components/LoginButton.jsx:22-23 | the challenge has 43 url-safe characters and decodes to the SHA-256 digest of the verifier's UTF-8 bytes (RFC 7636 section 4.2) |
| JsNumbers.Add | frontend/src/App.jsx:36 | NaN in either operand gives NaN; otherwise the sum |
| JsNumbers.Scale | frontend/src/App.jsx:36 | NaN stays NaN; otherwise the product |
| JsNumbers.Decimal | frontend/src/App.jsx:40 | a non-empty string of digits with no sign and no leading zero |
| JsNumbers.DecimalValue | frontend/src/App.jsx:40 | the decimal numeral reads back as its number |
| JsNumbers.ToString | frontend/src/App.jsx:64 | `String` of a number (what `setItem` stores) is non-empty: the digits of a non-negative number, a minus sign then digits for a negative one |
| JsNumbers.Number | frontend/src/App.jsx:75 | "" is 0; a numeral with an optional minus sign is its value |
| JsNumbers.NumberOfToString | frontend/src/App.jsx:71-75 | whatever number setItem stores, NaN included, reads back unchanged |
| JsNumbers.TrimStart | frontend/src/App.jsx:59 | removes exactly the leading white space |
| JsNumbers.DigitRun | frontend/src/App.jsx:59 | the longest prefix of digits in the radix |
| JsNumbers.DigitRunOfDigits | frontend/src/App.jsx:59 | a digit string followed by a non-digit is read whole |
| JsNumbers.ParseInt | frontend/src/App.jsx:59 | nothing but white space is NaN, and a negative result needs a leading '-' after the white space |
| JsNumbers.ParseIntOfDecimal | frontend/src/App.jsx:59 | `parseInt` of a decimal numeral is its value |
| JsNumbers.Unsigned | frontend/src/App.jsx:59 | what `parseInt` reads after the sign is never negative |
| JsNumbers.TrimStartOfSpaces | frontend/src/App.jsx:59 | a prefix of white space is removed whole |
| JsNumbers.ParseIntSkipsSpace | frontend/src/App.jsx:59 | leading white space does not change `parseInt` |
| JsNumbers.ParseIntOfSigned | frontend/src/App.jsx:59 | a '-' negates what follows it; a '+' or no sign leaves it unchanged |
| JsNumbers.UnsignedOfDigitsThen | frontend/src/App.jsx:59 | decimal digits are read up to the first non-digit, and the text after them is ignored |
| JsNumbers.UnsignedOfHex | frontend/src/App.jsx:59 | after "0x" or "0X", hexadecimal digits are read up to the first other character |
| JsNumbers.UnsignedWithoutDigits | frontend/src/App.jsx:59 | without a digit after the sign the result is NaN |
| JsNumbers.ParseIntOfDigitsThen | frontend/src/App.jsx:59 | a signed decimal numeral followed by other text parses as the numeral's signed value |
| Session.Get | frontend/src/App.jsx:71-72 | `getItem` returns the stored string, or null for a missing key |
| Session.JsString | frontend/src/App.jsx:39 | a missing `access_token` is stored as "undefined" |
| Session.ParseQuery | frontend/src/App.jsx:52 | `new URLSearchParams` parses the '&'-separated pieces of the query once `DropMark` has removed the leading '?'; no name holds '=' and neither part holds '&' |
| Session.DropMark | frontend/src/App.jsx:52 | one leading '?' is dropped, and only one; a query without it is kept |
| Session.ParseQueryOfQuery | frontend/src/App.jsx:52 | parsing name=value pairs joined with '&' gives the pairs back, with a leading '?' or (when the first name does not start with '?') without |
| Session.Pairs | frontend/src/App.jsx:52 | empty pieces give no pair; when no piece is empty, exactly one pair per piece, in order; no name holds '=' or, when no piece does, '&' |
| Session.PairsAppend | frontend/src/App.jsx:52 | pieces are parsed independently: the pairs of a + b are those of a followed by those of b |
| Session.PairOfPiece | frontend/src/App.jsx:52 | the piece name=value gives back (name, value) when the name holds no '=' |
| Session.RemoveFirst | frontend/src/App.jsx:52 | `replace("#", "")` removes only the first '#' |
| Session.Pair | frontend/src/App.jsx:52 | a query piece splits at its first '=' |
| Session.Param | frontend/src/App.jsx:53-55 | `get` is null exactly when no pair has the name; otherwise the first such pair's value |
| Session.HashToken | frontend/src/App.jsx:53 | `id_token` is preferred; `access_token` is used only when `id_token` is absent or empty |
| Session.CaptureExpiry | frontend/src/App.jsx:59 | now + parseInt(expires_in) × 1000 when expires_in is present and non-empty, now + 3,600,000 otherwise |
| Session.CaptureExpiryOfSeconds | frontend/src/App.jsx:59 | an expires_in of n seconds gives now + n × 1000 |
| Session.RefreshExpiry | frontend/src/App.jsx:35-36 | a refresh answer with expires_in gives later + expires_in × 1000; without it, NaN |
| Session.StoredExpiryIsDue | frontend/src/App.jsx:71-75 | a stored numeric expiry makes a refresh due exactly when now > expiry − 60,000; a stored NaN never does |
| Session.RefreshDue | frontend/src/App.jsx:75 | a refresh can be due only when a non-empty `dp_expiry` is stored |
| Session.StoreCapture | frontend/src/App.jsx:61-64 | `dp_id_token` and `dp_access_token` both get the token; `dp_refresh_token` is written only for a present refresh token; `dp_expiry` is always written; no other key changes |
| Session.StoreRefreshed | frontend/src/App.jsx:38-40 | id token, access token and expiry are written; the refresh token and every other key are kept |
| Session.WithoutSession | frontend/src/App.jsx:101-104 | exactly the four `dp_` keys are removed; every other entry is kept |
| Session.RefreshResult | frontend/src/App.jsx:14-45 | null without a stored refresh token; with one, a rejection exactly when the request or JSON parse failed, and for an answer its `id_token` when that is truthy and null otherwise |
| Session.StoreAfterRefresh | frontend/src/App.jsx:34-44 | storage changes only when a new id token arrives |
| Session.CaptureSchedulesRefresh | frontend/src/App.jsx:59-75 | after capturing a token with expires_in n, a refresh is due exactly when later > now + n × 1000 − 60,000 |
| Session.CaptureWithoutLifetimeSchedulesRefresh | frontend/src/App.jsx:59-75 | after capturing without expires_in, a refresh is due exactly after now + 3,540,000 |
| Session.RefreshWithoutLifetimeIsNeverDue | frontend/src/App.jsx:35-40 | a refresh answer without expires_in stores "NaN", after which a refresh is never due |
| Session.RefreshSchedulesRefresh | frontend/src/App.jsx:35-40 | after a refresh with expires_in, the next refresh is due a minute before the new expiry |
| Session.Browser.RefreshToken | frontend/src/App.jsx:14-45 | result and storage as `Session.RefreshResult`/`Session.StoreAfterRefresh`; posts the refresh token only when one is stored; the token state and hash do not change |
| Session.Browser.CaptureFromHash | frontend/src/App.jsx:50-68 | a truthy token from the hash is stored with its refresh token and expiry, becomes the state and the hash is cleared; otherwise nothing changes; nothing is posted |
| Session.Browser.StoreHashToken | frontend/src/App.jsx:53-68 | the same, stated for the parsed hash parameters |
| Session.Browser.WriteCapture | frontend/src/App.jsx:61-64 | the four writes leave storage as `Session.StoreCapture` of the old storage |
| Session.Browser.ResumeStored | frontend/src/App.jsx:69-84 | when a refresh is due, the refresh token (if stored) is posted and the result sets the state, clearing storage when no token comes back; otherwise the stored token is reused if truthy |
| Session.Browser.CaptureTokens | frontend/src/App.jsx:49-85 | with a hash: a truthy token is stored and becomes the state, and the hash is cleared; otherwise nothing changes. Without a hash: when a refresh is due, a new token becomes the state; no token clears all storage and the state; a rejection changes nothing. When no refresh is due, the stored token is reused if truthy |
| Session.Browser.Logout | frontend/src/App.jsx:100-105 | storage loses exactly the four session keys, and the token becomes null; the page invariant (no empty token, and no lone "#" as the hash) is kept |

## Left out

- Cryptography: RS256 signature checking, expiry checking and `jwt.construct_rsa_key` are the `decode` oracle. SHA-256 is an uninterpreted function, and `crypto.getRandomValues` is the verifier's input.
- Network and cloud I/O: the JWKS HTTP fetch and its 5 s timeout, CloudWatch, CloudWatch Logs, S3 and the token endpoint are oracles. The request bodies sent to the token endpoint (client id, redirect URI) are not modelled; only the refresh token sent is recorded.
- Floating point: `round(d["Average"], 2)` is a parameter. Datapoint values are real numbers, and timestamps are integers.
- Health.FormatX: JavaScript's `split("T")` and `slice(0, 5)` count UTF-16 code units, while Dafny strings count Unicode scalar values. The model agrees with the code only when the text after the first 'T' has no character outside the Basic Multilingual Plane; for "T😀abcd" the code gives "😀abc" and the model "😀abcd".
- JavaScript numbers are integers or NaN. Neither the 2^53 precision limit nor `Infinity` is modelled.
- JsNumbers.Number: models only "" and decimal numerals with an optional sign. Surrounding white space, fractions, exponents, hexadecimal, "Infinity" and every other string are NaN here, although JavaScript reads some of them as numbers. The store only ever writes what `String` produces, and `Number` reads that back exactly.
- Session.ParseQuery: percent-decoding and '+' as space are not modelled. The leading '?' that `URLSearchParams` drops is modelled.
- A JSON body that is not an object is not modelled. That covers a key set that is JSON `null`, a non-string `kid`, and an `id_token` or `expires_in` of another JSON type. `Auth.NoKeySetDetail` is the error for a `null` key set, but a configured service always fetches, so the model never reaches it.
- Concurrency: the cold-start race on the `JWKS` global is not modelled, and neither is an interval tick of `captureTokens` that overlaps a pending refresh. Requests and ticks are sequential.
- Clocks and scheduling: `datetime.utcnow`, `Date.now` and the 60 s interval are parameters or repeated calls.
- Routing, CORS, the constant health endpoints, React rendering, `window.location` redirects, `history.replaceState` (modelled only as clearing the hash), `login`'s redirect URL and the Docs, Logs and LogoutButton components are plumbing or UI.
- Response envelopes: the logs and docs handlers wrap their results as `{"logs": ...}` and `{"content": ...}`. The model returns the list and the string.
- Handlers.Metrics: an exception from a malformed datapoint (missing "Timestamp" or "Average") is not modelled.
- The metrics endpoint takes no `minutes` parameter: the window is fixed at 60 minutes, and the `minutes=60` and `cluster=` query parameters that `Health.jsx` sends are ignored.
- The docs endpoint does not check the bucket setting itself. With an empty `DOCS_BUCKET`, boto3 rejects the bucket name on the client before any request is made (a parameter validation error), which the handler's generic except clause turns into a 500; the model sees this as an S3 oracle error other than NoSuchKey.
- The metrics charts read `cpu` and `memory` from the answer, but this backend answers with `CPUUtilization` and `MemoryUtilization`. The model follows each side as written and does not reconcile the two.
