# Account gateway, registration limiter and phone helpers, modelled in Dafny

This project models three pieces of a small account system:

- **The account gateway** (`supabase/functions/handleUserRegistration/index.ts`). It is one HTTP entry point. It answers preflight (`OPTIONS`) requests. It routes `POST /api/user/register`, `GET /api/user/details`, `PUT /api/user/update` and `DELETE /api/user/delete` to four handlers. Every other method and path pair gets 404 `{error: "Not Found"}`. Registration is guarded by a per-client rate limiter over the `rate_limits` table, with a 5-minute window and 20 requests.
- **The standalone registration function** (`supabase/functions/registerUser/index.ts`). It has the same limiter, but with a 15-minute window and 100 requests. It has no router: every request that is not a preflight is a registration. A provider error is reported without `details`.
- **The phone helpers and the login stub of the front end's authentication service** (`src/app/services/auth/auth.service.ts`). This covers the two-country table, `formatPhoneNumber` with JavaScript `slice` semantics, `validatePhoneNumber`, and the shape of the result `login` returns.

How the model is built:

- **The limiter is stateful.** `RateLimit.RateLimitStore` is a class whose `rows: map<string, Entry>` field is the `rate_limits` table. Its method `IsRateLimited` reads the caller's row and then updates or upserts it, as the source does. It is proved against `RateLimit.Step`, a function of the old table. The transition rules are lemmas about `Step`. Sequences of calls are lemmas about `RateLimit.Run`. The two window/threshold settings are one `Policy` value per edge function.
- **Collaborators are inputs.** The current time is a parameter `now`. The lookup's answer is computed from the table: the caller's row, or `PGRST116` exactly when the caller has no row (`ip` is the table's key, the upsert's conflict target). A failure of the store itself is a parameter `fault` of type `StoreFault`, an optional error code that can never be `PGRST116`. So the "no row" code cannot coexist with a live row. The identity provider and the `users` table are outcome parameters: `Ok(data) | NoData | Failed(error) | Threw(message)`, or `Acked | Refused | Raised` when the data is ignored.
- **Handlers are decision procedures.** Each handler returns its response (status, body, headers) together with the list of collaborator calls it made. This makes it possible to state "no password change is tried" or "no collaborator is called".
- **Regexes are predicates.** `/\S+@\S+\.\S+/` is written as "some substring matches", with `\s` the ECMAScript white-space set. A compiled check is proved equal to it. `/^\d{10}$/` is "exactly ten ASCII digits".
- **Shared definitions.** Both edge functions carry word-for-word identical `validateEmail`, `validatePassword` (`registerUser/index.ts:82-90`) and `isRateLimited` (`registerUser/index.ts:92-120`) code. Each is modelled once (`Validators`, `RateLimit`) and used by both modules.

Three points where the code does something a reader might not expect:

- **Limiter before body.** The code consults the limiter before it reads the body (`handleUserRegistration/index.ts:177-184`). So a limited client gets 429 whatever it sent, and a malformed body from an unlimited client still uses up one request.
- **Line 52 does not compile.** `handleUserRegistration/index.ts:52` ends in a stray `:==`. The model takes the evident route `PUT /api/user/update` → update.
- **Line 30's comment is wrong.** It says 15 minutes, but the value is `5 * 60 * 1000`. The model uses the value.

## Model

| member | source | states |
|---|---|---|
| `Http.CreateResponse` | supabase/functions/handleUserRegistration/index.ts:220-225 | The response carries the given status and body, every CORS header, and `Content-Type: application/json`. |
| `Http.PreflightResponse` | supabase/functions/handleUserRegistration/index.ts:44 | Status 200, body `'ok'`, the CORS headers and no JSON content type. |
| `Http.Fault` | supabase/functions/handleUserRegistration/index.ts:214-217 | Status 500 with an error body that is never empty: the thrown message when it is non-empty, otherwise "An unexpected error occurred". CORS headers are present. |
| `Http.ClientKey` | supabase/functions/handleUserRegistration/index.ts:177 | The client key is `x-forwarded-for` when it is non-empty. Otherwise it is `client-ip` when that is non-empty. Otherwise it is `"unknown"`. It is never empty. |
| `Validators.ValidateEmail` | supabase/functions/handleUserRegistration/index.ts:227-230 | True iff some substring of the address matches `\S+@\S+\.\S+`. |
| `Validators.ShortestMatchIsRegexMatch` | supabase/functions/handleUserRegistration/index.ts:227-230 | A match exists iff one exists with single non-space characters around the `@` and the `.`. This is the finite search `ValidateEmail` performs. |
| `Validators.ValidatePassword` | supabase/functions/handleUserRegistration/index.ts:232-235 | True iff the password has at least 8 characters. A password that passes is never empty. |
| `Validators.SampleAddressIsValid` | supabase/functions/handleUserRegistration/index.ts:227-230 | `"a@b.com"` passes the email check. |
| `Validators.EmailNeedsAt` | supabase/functions/handleUserRegistration/index.ts:227-230 | A string without `@` never matches. |
| `Validators.EmailTestIsUnanchored` | supabase/functions/handleUserRegistration/index.ts:227-230 | Adding text before or after a matching string keeps it matching. |
| `RateLimit.RateLimitStore.IsRateLimited` | supabase/functions/handleUserRegistration/index.ts:237-265 | The answer and the new `rate_limits` table are exactly one `Step` from the old table. |
| `RateLimit.Lookup` | supabase/functions/handleUserRegistration/index.ts:238-242 | The lookup returns the caller's row exactly when the store works and the row exists. It returns `PGRST116` exactly when the store works and the caller has no row. Otherwise it returns the store's own error. |
| `RateLimit.Step` | supabase/functions/handleUserRegistration/index.ts:244-262 | One call only ever writes the caller's own row. A limited call writes nothing. No other row is added, removed or changed. Without a store failure, the caller has a row afterwards. |
| `RateLimit.StepFailsOpen` | supabase/functions/handleUserRegistration/index.ts:244-247 | A store failure (a lookup error other than `PGRST116`) gives "not limited" and writes nothing. |
| `RateLimit.StepOpensWindow` | supabase/functions/handleUserRegistration/index.ts:249-262 | With no row, or when `now - timestamp >= window`, the row becomes `{count: 1, timestamp: now}` and the request passes. |
| `RateLimit.NewClientGetsFirstRow` | supabase/functions/handleUserRegistration/index.ts:244-261 | For a client with no row, the lookup answers `PGRST116`. This is not treated as a failure: the row `{1, now}` is created and the request passes. |
| `RateLimit.StepInsideWindow` | supabase/functions/handleUserRegistration/index.ts:250-257 | Inside the window: limited iff `count >= max`, and then nothing is written. Otherwise the count goes up by exactly one and the timestamp stays. |
| `RateLimit.StepLimitsOnlyFullWindows` | supabase/functions/handleUserRegistration/index.ts:244-253 | A call is limited iff the lookup succeeded, the row is inside its window and its count has reached the threshold. |
| `RateLimit.Run` | supabase/functions/handleUserRegistration/index.ts:237-265 | Sequential calls give one answer per call, each call seeing the table the previous one left. |
| `RateLimit.RunKeepsCountBounded` | supabase/functions/handleUserRegistration/index.ts:250-261 | Over any sequence of calls, a row whose count is at most the threshold stays at most the threshold. |
| `RateLimit.RunInsideWindow` | supabase/functions/handleUserRegistration/index.ts:250-257 | Calls from one client inside the window of a row `{c, t0}`: call i is limited iff `c + i >= max`. The count stays `c` when `c >= max`, and otherwise ends at `min(c + n, max)`. The window start stays `t0`. |
| `RateLimit.FreshWindowAdmitsExactlyMax` | supabase/functions/handleUserRegistration/index.ts:249-264 | Calls from one client without store failures that open a fresh window (no row yet, or an expired one) and stay inside it: exactly the first `max` pass, and every later one is limited. |
| `Gateway.TwentyFirstRegistrationRejected` | supabase/functions/handleUserRegistration/index.ts:30-31 | With 5 min / 20, twenty registrations in one fresh window pass. The 21st is answered 429 whatever its body. |
| `Gateway.RouteOf` | supabase/functions/handleUserRegistration/index.ts:43-58 | `OPTIONS` is a preflight on any path. Each of the four method/path pairs selects its own handler, and only that pair does. |
| `Gateway.HandleRequest` | supabase/functions/handleUserRegistration/index.ts:38-60 | A preflight gives `'ok'` with the CORS headers. An unmatched pair gives 404 `{error:"Not Found"}`. Each route runs its handler. Only registration changes `rate_limits`. |
| `Gateway.Register` | supabase/functions/handleUserRegistration/index.ts:177-217 | Limited gives 429 with no call. Then: an unparsable body gives 500 with the thrown message, or "An unexpected error occurred" when it is empty. A missing field gives 400 "Email and password are required". Otherwise the email is checked first: a bad one gives 400 "Invalid email format". Only then is the password checked: a short one gives 400 "Password does not meet complexity requirements". None of these calls the provider. A provider error gives 400 with `details`. A user gives 200. No user data gives 404. The provider is called exactly when every check passes. |
| `Gateway.HandleUserRegistration` | supabase/functions/handleUserRegistration/index.ts:172-218 | Preflight leaves the table alone. Otherwise the limiter runs on the client key with 5 min / 20, then `Register`. |
| `Gateway.GetUserDetails` | supabase/functions/handleUserRegistration/index.ts:63-91 | A falsy `user_id` gives 400 with no call. A store error gives 400 with its message. `NoData`, an answer with neither data nor error, gives 404 "User not found". A row gives 200 with just `{id, email, created_at}`. 500 comes only from an exception, with the thrown message or "An unexpected error occurred" when it is empty. |
| `Gateway.UpdateUserDetails` | supabase/functions/handleUserRegistration/index.ts:93-147 | A falsy `user_id` gives 400. A bad email gives 400 before any password change. The password is changed first, and a refusal stops the update. The email is then written. Neither field given means 200 `{user:{id}}` and no call. |
| `Gateway.DeleteUserAccount` | supabase/functions/handleUserRegistration/index.ts:149-170 | A falsy `user_id` gives 400 with no call. 200 `{message:"User account deleted successfully"}` comes exactly when the provider reports no error. A provider error gives 400 with its message. An exception gives 500 with the thrown message, or "An unexpected error occurred" when it is empty. |
| `RegisterUser.Register` | supabase/functions/registerUser/index.ts:33-72 | Same order and the same messages as the gateway: 429 first, then 500, then 400 for a missing field, then 400 "Invalid email format" before 400 "Password does not meet complexity requirements". A provider error gives 400 with only `{error}`. Success gives 200, no user data gives 404. |
| `RegisterUser.HandleUserRegistration` | supabase/functions/registerUser/index.ts:28-73 | `OPTIONS` gives `'ok'` and leaves the table alone. Every other request runs the limiter with 15 min / 100, then registration. |
| `RegisterUser.RegisterAgreesWithGateway` | supabase/functions/registerUser/index.ts:59-61 | On every input, both registration handlers give the same status, calls and headers. Their bodies differ only by the gateway's `details`. |
| `RegisterUser.HundredFirstRegistrationRejected` | supabase/functions/registerUser/index.ts:20-21 | With 15 min / 100, a hundred registrations in one fresh window pass. The 101st is answered 429. |
| `PhoneAuth.Find` | src/app/services/auth/auth.service.ts:88-89 | The first table entry whose code matches, or none when no entry matches. |
| `PhoneAuth.Slice` | src/app/services/auth/auth.service.ts:24-29 | JavaScript `slice`: both ends are clamped to the length, and crossed ends give `""`. The result is the piece of the text starting at the clamped start, of the clamped length. |
| `PhoneAuth.SliceFrom` | src/app/services/auth/auth.service.ts:24-29 | `s.slice(start)` is exactly what `s.slice(0, start)` leaves of `s`. |
| `PhoneAuth.FormatLocal` | src/app/services/auth/auth.service.ts:24-29 | A country's `format` produces the number's length plus 4 characters for the US, and plus 2 for the UK. That no character of the number is lost is `StripFormattingRoundTrip`. |
| `PhoneAuth.FindCountry` | src/app/services/auth/auth.service.ts:20-31 | Exactly `+1` and `+44` are known codes, and the country found carries the code asked for. |
| `PhoneAuth.FormatUs` | src/app/services/auth/auth.service.ts:21-24 | For `+1` the result is `"+1 (" + n.slice(0,3) + ") " + n.slice(3,6) + "-" + n.slice(6)`. |
| `PhoneAuth.FormatUk` | src/app/services/auth/auth.service.ts:26-29 | For `+44` the result is `"+44 " + n.slice(0,4) + " " + n.slice(4,7) + " " + n.slice(7)`. |
| `PhoneAuth.FormatUnknown` | src/app/services/auth/auth.service.ts:91-93 | Any other code gives `code + " " + number`, with the number unchanged. |
| `PhoneAuth.FormatPhoneNumber` | src/app/services/auth/auth.service.ts:87-96 | The result starts with the code and one space. Its length is the code, the space, the number and the decoration: 4 characters for `+1`, 2 for `+44`, none otherwise. |
| `PhoneAuth.StripFormattingRoundTrip` | src/app/services/auth/auth.service.ts:87-96 | For every code and number, removing the code prefix and the inserted decoration at its positions gives the number back. |
| `PhoneAuth.DeletingDecorationRestoresNumber` | src/app/services/auth/auth.service.ts:87-96 | For a known code and a number without decoration characters, deleting `(`, `)`, space and `-` (for `+1`) or spaces (for `+44`) after the prefix gives the number back. |
| `PhoneAuth.ValidUsNumberLayout` | src/app/services/auth/auth.service.ts:21-24 | A valid `+1` number is formatted as `+1 (ddd) ddd-dddd`, 17 characters. |
| `PhoneAuth.ValidatePhoneNumber` | src/app/services/auth/auth.service.ts:99-105 | False for codes other than `+1` and `+44`. For those two it holds iff the number is exactly ten ASCII digits. |
| `PhoneAuth.Login` | src/app/services/auth/auth.service.ts:40-85 | Each of the three supported kinds gives `success: true` and id `"1"`. Exactly one of `email`, `username`, `phone` is set: the one matching the kind, holding the identifier. Any other kind rejects with "Unsupported login method". |

## Left out

- The Supabase client, `Deno.serve`, environment reads (and the throw when they are missing) and `console.log` are external I/O. Collaborator answers are parameters instead.
- `Date.now()` becomes the parameter `now`. Timestamps are whole milliseconds.
- Concurrent invocations are not modelled, so neither is the read-then-write race on `rate_limits`. Each call runs to completion before the next one starts.
- The limiter's update and upsert results are ignored by the source. The model assumes both writes take effect.
- An exception thrown by the limiter itself is not modelled. It sits outside the handler's `try`.
- PostgREST's own error codes other than `PGRST116` are not distinguished: a store failure is one optional code, and the row is visible only when there is none. A `.single()` lookup matching several rows is not modelled, because `ip` is the table's key.
- JSON parsing and serialisation and `Response` objects are reduced to a status, a body variant and a header map. The model's headers are the ones the code passes. The `Content-Type: text/plain;charset=UTF-8` that the Fetch `Response` constructor adds to the string body `'ok'` of a preflight answer is not modelled, so `PreflightResponse` states no content type. A failed `req.json()` or a failed destructuring is one `Unparsable(message)` case.
- A lookup ending in `.single()` reports a missing row as an error with code `PGRST116`. So for an unknown `user_id`, `getUserDetails` (`handleUserRegistration/index.ts:75-78`) answers 400 with that error's message, which the model receives as `Failed`. The 404 at line 84 needs a store answer with neither data nor error, which is the model's `NoData`. The same holds for the email update's `.single()` at line 130.
- JSON field values that are not strings (numbers, objects) are not modelled: a field is a string or absent.
- Header names are taken as lower case. The case-insensitive lookup and the joining of repeated headers done by `Headers.get` are not modelled.
- Validators.ValidatePassword: counts characters, whereas JavaScript's `length` counts UTF-16 code units. The two differ for characters outside the Basic Multilingual Plane. The same applies to `slice` in `PhoneAuth`.
- The service's `register` and `handleLoginError` only log or rethrow. In `login`, the phone formatting result is only logged. None of these affect a result.
- The Angular components, routes and the second front-end `AuthService` (whose methods only log) are presentation code and are not modelled.
