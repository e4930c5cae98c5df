# Lead intake: a verified model

This project models the one piece of logic in a marketing landing page: the
lead-capture pipeline.

- **The intake endpoint** (`POST /api/lead`) coerces and trims the submitted
  fields and cuts `source` to 64 characters. It then validates in a fixed order:
  missing fields first, then the e-mail format. An accepted lead becomes a
  record that is appended, best effort, to an append-only store. The caller gets
  `{ok: true}` whether or not the append succeeded.
- **The form controller** on the page runs its own validation ladder: name and
  e-mail present, then e-mail format, then consent. It posts a payload and tracks
  `error`, `loading` and `success`. An ok response switches the page to the
  success view for good.

Both sides test the address with the unanchored regular expression
`/\S+@\S+\.\S+/`. `Email.EmailMatch` states what that search accepts: an `@`
with a non-space character before it, at least one non-space character before
a later `.`, and a non-space character after that dot. `Email.IsValidEmail` is a
left-to-right scanner that is proved equal to that specification. The form's
`validateEmail` and the endpoint's `isValidEmail` are the same expression, so
both are modelled by this one function.

One white-space set, ECMAScript's WhiteSpace and LineTerminator code points
(`Text.IsSpace`), serves both `\s` and `trim`.

Files:

- `js_value.dfy` (`JsValue`): optional values, the field values a parsed body
  can hold (undefined, string, boolean), truthiness, `String(...)`, `x || null`.
- `text.dfy` (`Text`): white space, `trim`, `slice(0, n)`.
- `email.dfy` (`Email`): the e-mail search, its specification and the proof that
  leading and trailing white space never changes its verdict.
- `lead_route.dfy` (`LeadRoute`): the endpoint. `Coerce` and `Validate` are pure
  functions, `LeadStore` is a class holding `seq<Lead>`, and `Post` is the
  handler.
- `landing_page.dfy` (`LandingPage`): the `LeadForm` class with the submit
  handler, the validation ladder and payload functions, and lemmas that relate
  the form to the endpoint.

## Model

| member | source | states |
|---|---|---|
| `Email.IsValidEmailCorrect` | app/api/lead/route.ts:3-5 | the scanner accepts a string exactly when `\S+@\S+\.\S+` occurs in it; `validateEmail` at app/page.tsx:13-15 is the same test |
| `Email.ScanSound` | app/api/lead/route.ts:3-5 | after any prefix, the search phase describes that prefix: a complete match, or how much of a partial match ends at its last character |
| `Email.MatchExtend` | app/api/lead/route.ts:3-5 | appending one character creates a match only if it is a non-space character after a `.` that completes `\S@\S+\.` |
| `Email.CandidateExtend` | app/api/lead/route.ts:3-5 | a usable `@` survives an appended character exactly when that character is non-space; an appended `@` is usable exactly when a non-space character precedes it |
| `Email.SliceMatch` | app/api/lead/route.ts:3-5 | a match inside a slice is a shifted match of the whole string that lies within the slice, and conversely |
| `Email.MatchInsideTrim` | app/api/lead/route.ts:3-11 | every match lies inside the part of the string that `trim` keeps |
| `Email.EmailMatchTrim` | app/api/lead/route.ts:3-11 | the pattern occurs in `s` exactly when it occurs in `s.trim()` |
| `Email.IsValidEmailTrim` | app/api/lead/route.ts:3-11 | the endpoint's check on the trimmed address gives the same verdict as the form's check on the address as typed |
| `Email.ValidEmailNonEmpty` | app/api/lead/route.ts:3-5 | an accepted address has at least five characters and does not trim to empty |
| `Text.TrimStart` | app/api/lead/route.ts:10-11 | the result is no longer than the input and does not start with white space |
| `Text.TrimEnd` | app/api/lead/route.ts:10-11 | the result is no longer than the input, does not end with white space, and keeps the input's first character |
| `Text.TrimStartSlice` | app/api/lead/route.ts:10-11 | removing leading white space keeps a suffix and drops only white space |
| `Text.TrimEndSlice` | app/api/lead/route.ts:10-11 | removing trailing white space keeps a prefix and drops only white space |
| `Text.TrimOffset` | app/api/lead/route.ts:10-11 | helper for `Text.TrimSlice`: the number of characters `trim` drops at the front, at most the length |
| `Text.Trim` | app/api/lead/route.ts:10-11 | `trim` never lengthens a string and leaves no white space at either end |
| `Text.TrimSlice` | app/api/lead/route.ts:10-11 | `trim` keeps one contiguous slice, and everything outside it is white space |
| `Text.TrimmedIsFixed` | app/api/lead/route.ts:10-11 | a string with no white space at either end is its own trim |
| `Text.TrimIdempotent` | app/api/lead/route.ts:10-11 | trimming twice is trimming once |
| `Text.TrimEmptyIffBlank` | app/api/lead/route.ts:10-16 | `trim` returns the empty string exactly when the input is all white space |
| `Text.SlicePrefix` | app/api/lead/route.ts:14 | `slice(0, n)` is the prefix of length `min(length, n)` |
| `JsValue.ToText` | app/api/lead/route.ts:10-14 | `String(v)` of a string is the string itself, and of a boolean is `"true"` or `"false"` |
| `JsValue.TextOrEmpty` | app/api/lead/route.ts:10-11 | `String(v \|\| '')` is empty exactly when `v` is falsy, and is `String(v)` otherwise |
| `JsValue.NonEmptyOrNull` | app/api/lead/route.ts:29-33 | `x \|\| null` is `null` exactly for a missing or empty string and keeps any other string |
| `LeadRoute.RequiredText` | app/api/lead/route.ts:10-11 | a coerced name or address has no white space at either end |
| `LeadRoute.OptionalTrimmed` | app/api/lead/route.ts:12 | the coerced phone is present exactly when the submitted one is truthy, and is trimmed |
| `LeadRoute.OptionalPrefix` | app/api/lead/route.ts:14 | the coerced source is present exactly when the submitted one is truthy, and has 1 to 64 characters |
| `LeadRoute.Coerce` | app/api/lead/route.ts:10-14 | trimmed name and address, consent is the truthiness of the field, phone present and trimmed exactly when truthy, source present exactly when truthy and at most 64 characters |
| `LeadRoute.MakeLead` | app/api/lead/route.ts:25-35 | the record carries the coerced fields, the given id, timestamp and user agent; phone, source and ip become `null` exactly when empty |
| `LeadRoute.Status` | app/api/lead/route.ts:17-48 | a response is 200 exactly when it is the acknowledgement, and 400 otherwise |
| `LeadRoute.Reply` | app/api/lead/route.ts:16-48 | only an accepted request is acknowledged; each rejection gets its own 400 message |
| `LeadRoute.LeadStore.Append` | app/api/lead/route.ts:38-44 | appending a well-formed record keeps every stored record well formed; a successful append adds the record at the end; a failed append leaves the store unchanged |
| `LeadRoute.Post` | app/api/lead/route.ts:7-50 | the response depends only on the request, never on whether the append succeeded; only an accepted request whose append succeeds grows the store, by exactly its record at the end; every rejection, including a malformed body, leaves the store unchanged; every stored record stays well formed |
| `LeadRoute.MissingFieldsExactly` | app/api/lead/route.ts:16-18 | "Missing required fields" is returned exactly when the trimmed name or address is empty or consent is falsy, whatever the address format |
| `LeadRoute.InvalidEmailExactly` | app/api/lead/route.ts:19-21 | "Invalid email" is returned exactly when the missing-fields check passes and the pattern does not occur in the submitted address |
| `LeadRoute.AcceptedExactly` | app/api/lead/route.ts:16-21 | a parsed request is accepted exactly when its trimmed name is non-empty, consent is truthy and the pattern occurs in the address |
| `LeadRoute.MalformedRejected` | app/api/lead/route.ts:47-48 | a body that does not parse gets 400 "Invalid request" |
| `LeadRoute.AcceptedWellFormed` | app/api/lead/route.ts:16-35 | every accepted record has a non-empty trimmed name and address, a matching address, consent, a trimmed non-empty phone or `null`, a 1-to-64-character source or `null`, and a non-empty ip or `null` |
| `LeadRoute.StoredNameAndEmail` | app/api/lead/route.ts:10-28 | the stored name and address are the trimmed inputs, non-empty, with no white space at either end, and trimming them again changes nothing |
| `LeadRoute.StoredSource` | app/api/lead/route.ts:14-31 | the stored source is `null` exactly when the input is falsy (missing, empty or `false`); otherwise it is the untrimmed input cut to its first `min(length, 64)` characters |
| `LeadRoute.StoredPhone` | app/api/lead/route.ts:12-29 | a falsy phone (missing, empty or `false`) or one that trims to empty is stored as `null`; any other phone is stored as its text (`String(...)`), trimmed |
| `LandingPage.CaughtMessage` | app/page.tsx:78 | the caught message is never empty and is the thrown message when that has text |
| `LandingPage.FailureMessage` | app/page.tsx:71-78 | the error shown after a failed request is never empty |
| `LandingPage.FailureMessageCases` | app/page.tsx:71-78 | a non-ok response shows its text, or "Failed to submit" when the text is empty; a thrown error shows its message, or "Something went wrong" when it has none |
| `LandingPage.LeadForm.constructor` | app/page.tsx:18-30 | empty fields, consent off, not loading, no error, no success; `utm_source` captured once |
| `LandingPage.LeadForm.SetFullName` | app/page.tsx:141 | typing into the name field sets `fullName` and nothing else |
| `LandingPage.LeadForm.SetEmail` | app/page.tsx:154 | typing into the e-mail field sets `email` and nothing else |
| `LandingPage.LeadForm.SetPhone` | app/page.tsx:167 | typing into the phone field sets `phone` and nothing else |
| `LandingPage.LeadForm.SetConsent` | app/page.tsx:175 | toggling the checkbox sets `consent` and nothing else |
| `LandingPage.LeadForm.CurrentView` | app/page.tsx:84-106 | the success view is shown exactly when `success` is set |
| `LandingPage.LeadForm.BeginSubmit` | app/page.tsx:38-63 | the error is cleared first; a failed check shows its own message, sends nothing and leaves `loading` unchanged; a passed check turns `loading` on and yields the payload |
| `LandingPage.LeadForm.FinishSubmit` | app/page.tsx:71-81 | `loading` is off afterwards; an ok response sets `success`; any other outcome shows the failure message and leaves `success` as it was |
| `LandingPage.LeadForm.HandleSubmit` | app/page.tsx:38-82 | a request is sent exactly when the validation ladder passes; `success` is never cleared; after a sent request `loading` is off and the error is cleared on success or set to the failure message otherwise; a refused submit changes only `error` |
| `LandingPage.FormErrorExactly` | app/page.tsx:42-53 | each refusal happens exactly in its own case, in order: empty name or address, then an address without the pattern, then no consent; no refusal exactly when all three pass |
| `LandingPage.PayloadFields` | app/page.tsx:57-63 | the payload carries name, address, consent and source unchanged and omits the phone exactly when it is empty |
| `LandingPage.FormPassEndpointAccepts` | app/page.tsx:42-63 | a submission the form lets through, with a name that is not all white space, is accepted by the endpoint, which stores the trimmed name and address |
| `LandingPage.BlankNameGap` | app/page.tsx:42 | a name of white space only passes the form (which does not trim) but the endpoint answers "Missing required fields" |
| `LandingPage.PhoneEndToEnd` | app/page.tsx:60 | end to end, the stored phone is `null` exactly when the typed phone is empty or blank, and otherwise is the typed phone trimmed |

## Left out

- Rendering: all markup, the static sections (`TrustSection`, `HowItWorks`,
  `OffersSection`, `FAQSection`, `Footer`), the layout and its metadata, the
  styling configuration and the robots endpoint. These are presentation only.
- `fetch` and HTTP: `LandingPage.FetchOutcome` is an input that stands for the
  response (its `ok` flag and body text) or a thrown error with its message. A
  failure while reading the response body is not modelled.
- `request.json()`: a parse failure is the `Malformed` request. A body that is
  not an object, and a JSON `null` field, read every affected field as
  `Undefined`.
- Field values other than absent, string or boolean (numbers, arrays, objects).
  `String()` of those involves float formatting and object conversion.
- The file append: `Post` takes a flag that says whether the append succeeds,
  and the store is a sequence of records rather than lines of JSON text.
  Serialization is not modelled.
- `crypto.randomUUID()`, the clock and the `user-agent` and `x-forwarded-for`
  headers are inputs (`LeadRoute.Env`). Uniqueness of ids and the timestamp
  window are not modelled.
- The exception path for errors other than a parse failure: in the source, any
  exception before the append also yields "Invalid request". No such exception
  can occur in the model.
- The `utm_source` lookup in `window.location` is a constructor argument. The
  autofocus effect is not modelled.
- Unicode details: strings are sequences of code points, not UTF-16 code units,
  so `slice(0, 64)` counts code points. One fixed white-space set stands for
  both `\s` and `trim`.
- Concurrency: concurrent appends to the store, and the disabled submit button
  that guards against a second submit while `loading` is on. The source awaits
  the request inside `handleSubmit`; the model splits that at the await into
  `BeginSubmit` and `FinishSubmit`, with no other event in between.
