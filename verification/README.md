# brokerserver signed-request proxy, modelled in Dafny

This project models the deterministic core of `server.go`. That file is a small Go proxy. It talks to one upstream service with signed JSON POST requests. The model covers:

- **Nonces.** `NinRandom.getRandomString(length)` produces `length` characters over the 62-character alphabet `a-z A-Z 0-9`, and `NinCredential.getNonce` calls it with length 18. The process-wide `math/rand` generator becomes an oracle stream `draw: nat -> [0, 62)` plus a position. Every nonce consumes the next 18 positions. The model reads characters through `Random.Alphabet`, which computes entry i from code points. `Random.CharsetIsAlphabet` proves it equal, entry by entry, to the charset literal at server.go:27.
- **Signatures.** `getSignature` hashes the pre-image `url CRLF act CRLF nonce CRLF secret` with the secret `galumphing`. SHA-256 and base64 are passed in as function parameters (`Credential.Crypto`). Only the pre-image is modelled exactly.
- **Envelopes.** Each action sends one four-field payload (`Nonce`, `Act`, `Timeout` or `Offset`, `Signature`) to `https://ji.luupi.net` followed by the endpoint path. The action string and numeric slot are fixed per action: `begin` and `end` send `Timeout` 250000, `observe` sends `Timeout` 0, `""` sends `Offset` 0, `burble` sends `Offset` = the given offset, and `chortle` sends `Offset` = the clamped offset.
- **Time proxy.** `begin`, `end` and `clock`. The `end` result is the response body with its leading and trailing newlines removed.
- **Audit-log proxy.**
  - `getAuditBase` parses the whitespace-trimmed body with `strconv.Atoi`. The model includes Atoi's syntax and range errors.
  - `getAuditLog` splits the body on `"\n"`.
  - `resetAuditLog` clamps the offset at zero.
  - `HandleAuditLogs` resets the cursor to `len(entries) + base - 1`, computed on Go's 64-bit `int` with wrap-around. It swallows every error.

The transport (`NinHttpClient.getResponse`) is a parameter `Request -> Response`. A response is either a body or one of the four failure points of `getResponse`. When it fails, `getResponse` returns the empty string together with the error (`Wire.BodyOf`).

Modules: `Wrappers` (Option), `GoStrings` (Split/Join/Trim/TrimSpace), `GoStrconv` (int64, wrap-around, Atoi, Itoa), `Random`, `Credential`, `Wire` (endpoints, envelope, payload map, the shared sign-and-send step), `TimeProxy`, `AuditLogProxy`.

Two details of the code are easy to misread:
- `end` trims newlines from both ends, not only a trailing one (`strings.Trim`, server.go:189).
- On a bad body, `getAuditBase` does not return an error alone. It returns Atoi's value with the error: 0 for a syntax error, and the int64 bound on the side of the sign for a range error. `HandleAuditLogs` then uses that value as the base.

## Model

| member | source | states |
|---|---|---|
| Random.RandomString | server.go:68-75 | drawing `length` characters gives exactly `length` characters and advances the generator by exactly `length` draws |
| Random.FillRandom | server.go:68-75 | the index-order fill loop of `getRandomString` yields the reference random string and generator state, and every character is an ASCII letter or digit |
| Random.RandomStringAlphanumeric | server.go:27 | every character of a random string is alphanumeric |
| Random.CharsetAlphanumeric | server.go:27 | every one of the 62 alphabet entries is an ASCII letter or digit |
| Random.CharsetIsAlphabet | server.go:27 | entry i of the literal 62-character charset is the computed alphabet entry i (a-z, then A-Z, then 0-9), so the random strings, which index the alphabet, read the same characters as `charset[Intn(62)]` |
| Random.Nonce | server.go:134-136 | a nonce has length 18 and consumes 18 draws |
| Random.NonceDraws | server.go:134-136 | nonce character i is the alphabet entry chosen by the i-th next draw, and it is alphanumeric |
| Random.NonceAfter | server.go:134-136 | a nonce drawn after k earlier draws takes its characters from draws k to k+17 |
| Random.ConsecutiveNonces | server.go:134-136 | three nonces drawn one after another take their characters from three consecutive, disjoint stretches of draws |
| Credential.PreImageLayout | server.go:139 | the pre-image starts with the url and a CRLF, ends with the secret, and its length is the sum of the three fields, the secret and three CRLFs |
| Credential.PreImage | server.go:139 | defines the `%s\r\n%s\r\n%s\r\n%s` pre-image; its contract states its length (the three fields, the secret and three CRLFs), that it starts with the url and that it ends with the secret |
| Credential.Signature | server.go:137-142 | defines `getSignature` as base64 of SHA-256 of the pre-image, with both primitives as parameters; it carries no contract of its own, and its binding property is `Credential.SignatureBinding` |
| Credential.PreImageInjective | server.go:137-142 | for carriage-return-free url, act and nonce, equal pre-images mean equal (url, act, nonce), so the pre-image determines each field it was built from |
| Credential.SignatureBinding | server.go:137-142 | with collision-free hash and encoding, equal signatures mean equal (url, act, nonce) |
| Wire.Payload | server.go:167-172 | the payload map has exactly the four keys Nonce, Act, the slot name and Signature |
| Wire.PayloadRoundTrip | server.go:167-172 | reading the payload map back gives the envelope, so nothing is lost or added |
| Wire.Send | server.go:163-173 | the request carries the next nonce, the action and the slot it was given, and a signature over that same nonce, that action and the path alone. It is posted to base + path, its response is the transport's answer to it, and it consumes one nonce's worth of draws |
| Wire.SignedRequestVerifies | server.go:171-173 | a receiver that takes the path from the target URL and recomputes the signature accepts every request the proxy signs |
| Wire.NonceIsField | server.go:134-136 | a nonce never contains the CRLF separator's carriage return |
| Wire.SignedRequestsBinding | server.go:137-142 | two signed requests with the same signature were signed for the same path, action and nonce, assuming collision-free primitives |
| GoStrings.Split | server.go:286 | the pieces number one more than the newlines in the body, and no piece contains a newline |
| GoStrings.JoinSplit | server.go:286 | joining the pieces with "\n" gives back the body |
| GoStrings.SplitJoin | server.go:286 | splitting a join of one or more newline-free pieces gives back those pieces |
| GoStrings.SplitEmpty | server.go:286 | the empty body splits into one empty piece |
| GoStrings.TrimLeft | server.go:189 | the result is a suffix of the input, everything dropped is a cut character, and the result does not start with one |
| GoStrings.TrimRight | server.go:189 | the result is a prefix of the input, everything dropped is a cut character, and the result does not end with one |
| GoStrings.TrimBothCharacterised | server.go:189 | trimming keeps one contiguous middle part; everything cut on either side is a cut character, and the kept part neither starts nor ends with one |
| GoStrings.TrimBothIdempotent | server.go:268 | trimming a trimmed string changes nothing |
| GoStrings.TrimBothPadded | server.go:268 | padding a string that has no cut character at either end with cut characters, then trimming, gives the string back |
| GoStrings.TrimNewlines | server.go:189 | `strings.Trim(s, "\n")`: the result is no longer than the input and neither starts nor ends with a newline |
| GoStrings.TrimSpace | server.go:268 | `strings.TrimSpace`: the result is no longer than the input and neither starts nor ends with a `unicode.IsSpace` character |
| GoStrconv.Wrap64 | server.go:311 | Go int addition wraps: values inside int64 are unchanged, values one turn above or below are shifted by 2^64 |
| GoStrconv.Wrap64Congruent | server.go:311 | the wrapped value is the unique int64 congruent to the exact value modulo 2^64 |
| GoStrconv.Atoi | server.go:268 | a syntax error gives 0, and a range error gives MinInt64 for a leading minus and MaxInt64 otherwise |
| GoStrconv.AtoiAccepts | server.go:268 | Atoi succeeds exactly on an optional sign followed by digits whose value fits in int64, and then returns that value |
| GoStrconv.AtoiRange | server.go:268 | a numeral outside int64 is a range error clamped to the bound on its side |
| GoStrconv.AtoiItoa | server.go:268 | every int64 is parsed back from its canonical decimal form without error |
| GoStrconv.ScanDigitsValue | server.go:268 | the digit loop returns the decimal value of a digit string, or a range error exactly when that value exceeds uint64 |
| TimeProxy.Begin | server.go:162-175 | begin sends one request, signed for the access path, with act "begin" and Timeout 250000, and reports no error |
| TimeProxy.End | server.go:177-190 | end sends one signed request with act "end" and Timeout 250000. The time neither starts nor ends with a newline. A transport failure gives "" with that error, and success gives no error |
| TimeProxy.Clock | server.go:191-204 | clock sends one request, signed for the clock path, with act "observe" and Timeout 0, and reports an error exactly when the transport fails |
| TimeProxy.EndKeepsBodyCore | server.go:188-189 | the server time is the body with only leading and trailing newlines removed |
| TimeProxy.EndExample | server.go:188-189 | a body "42\n" gives the time "42" with no error |
| AuditLogProxy.GetAuditBase | server.go:253-269 | the request is signed for the audit path with act "" and Offset 0; a syntax error yields base 0 and a range error yields one of the int64 bounds |
| AuditLogProxy.GetAuditBaseResult | server.go:264-268 | a transport failure gives 0 and that error. Otherwise the call succeeds exactly when the trimmed body is an int64 numeral, the value is that numeral, any error is a parse error, a syntax error gives 0, and a range error gives MinInt64 for a leading minus and MaxInt64 otherwise |
| AuditLogProxy.GetAuditBaseReadsNumber | server.go:268 | a body holding a number's decimal form, padded with white space, is read as that number with no error |
| AuditLogProxy.BaseBodyTen | server.go:264-268 | a base body of exactly "10" is read as 10 with no error |
| AuditLogProxy.GetAuditLog | server.go:271-287 | the request is signed for the audit path with act "burble" and the given offset, and the call fails exactly when the transport fails |
| AuditLogProxy.GetAuditLogResult | server.go:282-286 | a transport failure gives no entries and that error. Otherwise the entries are newline-free, number one more than the body's newlines, and join back into the body |
| AuditLogProxy.ResetAuditLog | server.go:289-306 | the reset is signed with act "chortle". Its Offset is never negative: the given offset when non-negative, otherwise 0. Errors are never reported |
| AuditLogProxy.ResetCursor | server.go:311 | `len(auditLogs) + baseOffset - 1` on Go's int: the exact value while it fits in int64, MaxInt64 for no entries and base MinInt64, and the value minus 2^64 when it overflows past MaxInt64 |
| AuditLogProxy.HandleAuditLogs | server.go:308-313 | base, fetch and reset are sent in that order. The fetch uses the base value even after an error, the result is the fetched entries, the error is always nil, and three nonces are consumed |
| AuditLogProxy.HandleAuditLogsReset | server.go:311 | the third request resets to max(wrap64(len(entries) + base - 1), 0) |
| AuditLogProxy.HandleAuditLogsNonces | server.go:254-313 | the base, fetch and reset requests carry the first, second and third nonce drawn after the call starts |
| AuditLogProxy.ResetAfterFetch | server.go:308-313 | after a successful fetch the cursor moves to max(base + newlines in the body, 0) when that fits in int64 |
| AuditLogProxy.ResetAfterFailedFetch | server.go:309-311 | after a failed fetch the cursor goes to max(base - 1, 0), or wraps to MaxInt64 when base is MinInt64 |
| AuditLogProxy.ResetAfterEmptyLog | server.go:286-311 | an empty log body yields [""] and resets the cursor to max(base, 0) |
| AuditLogProxy.ExampleLogSplits | server.go:286 | "e1\ne2" splits into ["e1", "e2"] |
| AuditLogProxy.HandleAuditLogsExample | server.go:308-313 | base "10" and log body "e1\ne2" give the entries ["e1", "e2"] and a reset to 11 |

## Left out

- `HandleServerTime` (server.go:206-226): the goroutine, the 5-microsecond ticker and the done channel. This code is about concurrency. `begin`, `clock` and `end` are modelled one by one, and their interleaving is not.
- `NinHttpClient.getResponse` (server.go:93-115): JSON marshalling, HTTP, the 3-second timeout and body reading. These are I/O. They are a transport parameter that returns a body or one of four errors.
- SHA-256 and base64 (server.go:138-140): these are library primitives, passed in as function parameters. How the pre-image string becomes UTF-8 bytes belongs to that parameter.
- The seeding of `seededRand` (server.go:32): this is real randomness. It is replaced by an index oracle, so nonce uniqueness cannot be proved. Only the disjointness of draw positions is proved.
- `main` (server.go:327-358): the HTTP handler, the CORS headers, the PORT lookup and the JSON response. These are I/O plumbing.
- Logging with `fmt.Println` (server.go:220, 304): output only.
- Strings are modelled as sequences of Unicode characters, not bytes. Bodies that are not valid UTF-8 are not modelled. `TrimSpace` uses the `unicode.IsSpace` set on decoded characters.
- `getRandomString` with a negative length panics in Go (`make`). The model takes a natural-number length.
- Random.Nonce: it does not state pairwise distinctness of nonces, because the draws come from an unconstrained oracle.
- TimeProxy.End: its own contract bounds the time by the body. The exact trimmed shape is stated in `TimeProxy.EndKeepsBodyCore`.
