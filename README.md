# Lead intake for the real-estate site, in Dafny

This project models the one piece of the site with decision logic: the
`POST /api/leads` handler. The handler takes a JSON body from the site's
forms and runs these steps in order:

1. It rejects a body that does not parse.
2. It answers a bot (a truthy `company` honeypot field) with a fake success.
3. It builds a seventeen-column lead record, using `??` defaults.
4. It requires a valid email, or a string phone whose trimmed value has at
   least seven UTF-16 code units.
5. It inserts the record into the `leads` table once.
6. It maps the insert's result to status 200, 400 or 500.

Modules, one per concern:

- `JsValue` (`js_value.dfy`): JSON values, and the JavaScript operators the
  handler applies to them: property access, `?.`, truthiness and `??`.
- `JsString` (`js_string.dfy`): the whitespace class shared by `\s` and
  `trim()`, `trim()` itself, and `length` counted in UTF-16 code units.
- `Email` (`email.dfy`): `isValidEmail`, i.e. the falsy guard and the pattern
  `^[^\s@]+@[^\s@]+\.[^\s@]+$`.
- `LeadRecord` (`lead.dfy`): the lead record and the object literal that
  builds it.
- `LeadsRoute` (`route.dfy`): the contact checks, and a `LeadStore` class
  whose `rows` field stands for the `leads` table. Its `Post` method is the
  handler. It either appends exactly one row or leaves the table unchanged.

The insert call is a parameter of `Post` with three cases. `Stored` means the
row was accepted. `Rejected(message)` means the store answered with an error
object. `Threw` means the call raised an exception. A ghost field `attempts`
logs every record handed to the insert call. The contracts use it to say when
no insert happens and when exactly one does.

The model keeps these points of the code's behaviour as written:

- The honeypot fires on any truthy `company`. That includes non-zero numbers,
  `true`, arrays and objects, not only non-empty strings.
- The email pattern rules out `@`, not only whitespace, in all three parts.
  So a valid address has exactly one `@`.
- No column is type-checked. Any non-null JSON value is copied as it is,
  for example a numeric `source`.
- An insert call that throws gets status 400 "Invalid request", not 500.
  So does a `null` body, because `body.source` throws.

## Model

| member | source | states |
|---|---|---|
| JsValue.Lookup | src/app/api/leads/route.ts:19-39 | the definition of `body.x`: undefined when the body has no property `x`, and its value otherwise (what this means for the record is stated by `LeadRecord.NormaliseColumn`) |
| JsValue.Props | src/app/api/leads/route.ts:18-40 | only an object body has properties: every property the handler reads is undefined on a string, number, boolean or array body |
| JsValue.Prop | src/app/api/leads/route.ts:14 | `body?.company`: the property when the body is an object holding it, undefined otherwise (null included) |
| JsValue.Truthy | src/app/api/leads/route.ts:14 | JavaScript truthiness: undefined, null, `false`, `0` and `""` are falsy, every other JSON value is truthy |
| JsValue.Coalesce | src/app/api/leads/route.ts:19-39 | `v ?? d`: `d` when `v` is undefined or null, `v` otherwise (characterised by `JsValue.CoalesceCharacterised`) |
| JsValue.CoalesceCharacterised | src/app/api/leads/route.ts:19-39 | `??` falls back exactly when the value is undefined or null, keeps every other value, and gives null only when both sides are null |
| JsValue.CoalesceKeepsFalsy | src/app/api/leads/route.ts:19-39 | `""`, `0` and `false` are kept by `??`, not replaced by the default |
| JsString.IsWs | src/app/api/leads/route.ts:6 | the ECMAScript WhiteSpace and LineTerminator code points, the one set matched by `\s` and removed by `trim()` |
| JsString.TrimStart | src/app/api/leads/route.ts:44 | the result is the suffix of the input left after removing only whitespace, and it does not start with whitespace |
| JsString.TrimEnd | src/app/api/leads/route.ts:44 | the result is the prefix of the input left after removing only whitespace, and it does not end with whitespace |
| JsString.Trim | src/app/api/leads/route.ts:44 | `trim()`: the input is whitespace, then the result, then whitespace; the result neither starts nor ends with whitespace |
| JsString.TrimStartUnique | src/app/api/leads/route.ts:44 | removing leading whitespace from whitespace followed by a string not starting with whitespace gives that string |
| JsString.TrimEndUnique | src/app/api/leads/route.ts:44 | removing trailing whitespace from a string not ending with whitespace, followed by whitespace, gives that string |
| JsString.TrimUnique | src/app/api/leads/route.ts:44 | `trim()` is fully determined by its contract: any whitespace wrapped around a string whose ends are not whitespace is removed, and nothing more |
| JsString.Utf16Length | src/app/api/leads/route.ts:44 | `length` counts UTF-16 code units: at least one and at most two per character |
| JsString.Utf16LengthBmp | src/app/api/leads/route.ts:44 | on Basic Multilingual Plane text, `length` is the number of characters |
| JsString.Utf16LengthAstral | src/app/api/leads/route.ts:44 | a character at or above U+10000 has `length` 2 |
| JsString.Utf16LengthAppend | src/app/api/leads/route.ts:44 | `length` of a concatenation is the sum of the two lengths |
| Email.IsValidEmail | src/app/api/leads/route.ts:4-7 | `isValidEmail`: false for undefined and `""`, otherwise the anchored pattern test (characterised by `Email.ValidEmailIffShape`) |
| Email.MatchesPattern | src/app/api/leads/route.ts:6 | the anchored test of `^[^\s@]+@[^\s@]+\.[^\s@]+$`: some `@` splits the string into a part and a domain, and some `.` splits the domain into two parts (characterised by `Email.ValidEmailIffShape`) |
| Email.AbsentOrEmptyRejected | src/app/api/leads/route.ts:5 | `isValidEmail` is false for undefined and for the empty string |
| Email.ValidEmailIffShape | src/app/api/leads/route.ts:4-7 | `isValidEmail(s)` holds exactly when `s == a + "@" + b + "." + c` with `a`, `b`, `c` non-empty and free of whitespace and `@` |
| Email.ShapeFromSplit | src/app/api/leads/route.ts:6 | a pattern match, given as an `@` position and a `.` position, yields the a@b.c decomposition |
| Email.SplitFromShape | src/app/api/leads/route.ts:6 | every a@b.c string built from valid parts matches the pattern |
| Email.SplitCharacter | src/app/api/leads/route.ts:6 | in a matched address, no character is whitespace and the only `@` is the one at the split |
| Email.ValidEmailFacts | src/app/api/leads/route.ts:6 | a valid address has no whitespace, exactly one `@`, and after it a `.` that is neither the first nor the last character of the domain |
| Email.PaddedEmailRejected | src/app/api/leads/route.ts:6 | the address is not trimmed: a leading or trailing whitespace character makes it invalid |
| Email.AcceptedExample | src/app/api/leads/route.ts:6 | `"a@b.co"` is accepted |
| Email.RejectedExamples | src/app/api/leads/route.ts:6 | `"a@b"`, `"a@.co"` and `"a@b@c.co"` are rejected |
| LeadRecord.ColumnNamesAreKeys | src/app/api/leads/route.ts:19-39 | the seventeen property names the literal reads are exactly the names of the columns |
| LeadRecord.Normalise | src/app/api/leads/route.ts:18-40 | the built record never has a null `source`, `lead_type` or `booked` |
| LeadRecord.NormaliseColumn | src/app/api/leads/route.ts:18-40 | each column holds its body property when that is present and not null (`""` and `0` included), and the column's default otherwise |
| LeadRecord.Defaults | src/app/api/leads/route.ts:19-39 | when a property is absent or null, the record holds `"website"` for `source`, `"unknown"` for `lead_type`, `false` for `booked`, and null in every other column |
| LeadRecord.EmptyBody | src/app/api/leads/route.ts:18-40 | an empty body gives the all-defaults record |
| LeadRecord.EmailOnlyBody | src/app/api/leads/route.ts:18-40 | a body holding only a non-null `email` gives the all-defaults record carrying that email |
| LeadRecord.PhoneOnlyBody | src/app/api/leads/route.ts:18-40 | a body holding only a non-null `phone` gives the all-defaults record carrying that phone |
| LeadRecord.IgnoresUnknownProperties | src/app/api/leads/route.ts:18-40 | adding properties other than the seventeen column names, with any values, does not change the record |
| LeadsRoute.Accepted | src/app/api/leads/route.ts:57 | status 200 with payload `{ ok: true }`, the same payload the honeypot answer at line 15 gives |
| LeadsRoute.MissingContact | src/app/api/leads/route.ts:46-49 | status 400 with `ok: false` and the error "Please provide an email or phone number." |
| LeadsRoute.StoreFailure | src/app/api/leads/route.ts:54 | status 500 with `ok: false` and the store's error message as the error |
| LeadsRoute.InvalidRequest | src/app/api/leads/route.ts:59 | status 400 with `ok: false` and the error "Invalid request" |
| LeadsRoute.IsHoneypot | src/app/api/leads/route.ts:14 | the honeypot test `body?.company` is truthy (characterised by `LeadsRoute.HoneypotCases`) |
| LeadsRoute.HasEmail | src/app/api/leads/route.ts:43 | `isValidEmail(lead.email ?? undefined)`: null becomes undefined and is rejected, a string goes to the pattern, other values are rejected (see "Left out") |
| LeadsRoute.HasPhone | src/app/api/leads/route.ts:44 | `typeof phone === "string"` and the trimmed phone has at least seven UTF-16 code units |
| LeadsRoute.Contactable | src/app/api/leads/route.ts:45 | a record has a valid email or a valid phone; its negation is the rejection at lines 45-50 |
| LeadsRoute.HoneypotCases | src/app/api/leads/route.ts:14 | only an object body can trip the honeypot, and it does exactly when its `company` is truthy |
| LeadsRoute.HasEmailIffShape | src/app/api/leads/route.ts:43 | the email check passes exactly when the email column is a string of the form a@b.c |
| LeadsRoute.HasPhoneIffTrimmed | src/app/api/leads/route.ts:44 | a string phone wrapped in whitespace counts exactly when its inner part has at least seven UTF-16 code units |
| LeadsRoute.SixCharacterPhoneRejected | src/app/api/leads/route.ts:44 | `"123456"` is not a phone |
| LeadsRoute.SevenCharacterPhoneAccepted | src/app/api/leads/route.ts:44 | `"1234567"` is a phone |
| LeadsRoute.NonStringPhoneRejected | src/app/api/leads/route.ts:44 | no value that is not a string is a phone: not a number, an array of digit strings, an object, a boolean or null |
| LeadsRoute.LeadStore.Insert | src/app/api/leads/route.ts:52 | one insert call of a well-formed, contactable record: it is logged as an attempt, the table grows by that record only when the store accepts it, and every stored row stays well-formed and contactable |
| LeadsRoute.LeadStore.Post | src/app/api/leads/route.ts:9-61 | unparseable or null body: 400 "Invalid request"; honeypot: 200 `{ok:true}`; no contact: 400 with the contact message. In all three, no insert and the table is unchanged. Otherwise exactly one insert of the normalised record: on success 200 and the table grows by that record; on a store error 500 with the store's message verbatim; on a throw 400 "Invalid request". In the last two the table is unchanged. Every stored row stays well-formed and contactable |
| LeadsRoute.PostTwice | src/app/api/leads/route.ts:52-57 | posting the same contactable body twice stores two identical rows (no idempotency) |
| LeadsRoute.EmailOnlyScenario | src/app/api/leads/route.ts:18-57 | `{email:"a@b.co"}` on an empty table gives 200, and one row holding the email and every default |
| LeadsRoute.PhoneOnlyScenario | src/app/api/leads/route.ts:18-57 | `{phone}` on an empty table: when the phone passes the check, 200 and one all-defaults row holding it; otherwise 400 with the contact message and nothing stored |
| LeadsRoute.SevenCharacterPhoneScenario | src/app/api/leads/route.ts:44-57 | `{phone:"1234567"}` on an empty table gives 200, and one row holding that phone |
| LeadsRoute.SixCharacterPhoneScenario | src/app/api/leads/route.ts:44-50 | `{phone:"123456"}` with no email gives 400 with the contact message, and stores nothing |
| LeadsRoute.HoneypotScenario | src/app/api/leads/route.ts:14-16 | `{company:"Acme", email:"a@b.co"}` gives 200 and stores nothing |
| LeadsRoute.StoreErrorScenario | src/app/api/leads/route.ts:52-55 | when the store rejects a contactable body, the answer is 500 with the store's message, and nothing is stored |

## Left out

- The JSON parser (`req.json()`) is not modelled. The handler receives the parsed value, or `Unparseable` when parsing throws.
- `NextResponse.json` is not modelled. The response is a `(status, ok, error)` datatype.
- The database client (`supabaseAdmin`, imported from `src/lib/supabaseAdmin`, a file that is not part of this model) is not modelled. Its insert is the `InsertOutcome` parameter. Store-assigned identifiers and timestamps are left out. A `Threw` outcome is taken to store nothing.
- Async scheduling is not modelled. The handler is sequential per request and shares no state.
- LeadsRoute.HasEmail: for a non-string email, JavaScript converts the value to a string before running the pattern. The model rejects every non-string email instead. That matches JavaScript for numbers and booleans, and for objects without an own `toString` property, whose string forms have no `@`. It differs in two ways. First, an array whose elements join to an address, such as `["a@b.co"]`, passes in JavaScript but not in the model. Second, an object with an own `toString` property (JSON cannot make it callable, and the inherited `valueOf` returns the object itself), or an array holding such an object, makes the pattern test throw. The handler then answers 400 "Invalid request" before the phone is read and inserts nothing. The model instead goes on to the phone check, so it answers `MissingContact`, or inserts when the phone is valid. Number-to-string formatting is floating-point, which is one reason the conversion is left out.
- Numbers are mathematical reals, not IEEE doubles. The handler only copies numbers and tests whether they are zero. JSON cannot encode NaN.
- Strings are sequences of Unicode scalar values. A JSON string holding a lone surrogate escape cannot be represented. `length` is still counted in UTF-16 code units.
- The presentation pages are not modelled: `src/app/page.tsx` (form state, `fetch`, `localStorage`, number parsing, `window.open`), `src/app/privacy/page.tsx` and `src/app/layout.tsx`.
