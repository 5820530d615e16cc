# GigLocal waitlist signup, modelled in Dafny

The GigLocal landing site has one dynamic feature, an email waitlist. This
project models its two pieces of logic.

- **The waitlist endpoint** (`POST /api/waitlist`, module `WaitlistRoute`).
  It reads the `email` property of the request body and rejects it with 400
  unless the value is truthy and its string form matches
  `^[^\s@]+@[^\s@]+\.[^\s@]+$`. It then builds a mail-provider client from
  `RESEND_API_KEY` (or the key `placeholder`). When `RESEND_AUDIENCE_ID` is set
  and non-empty, it adds the address as a contact of that audience
  (`unsubscribed: false`). It then sends the team a notification whose subject
  is `New GigLocal waitlist signup: ` followed by the address. It answers
  `200 {success: true}`, or `500` with a fixed message as soon as an awaited
  provider call throws or rejects. The provider is modelled by a call log that
  the handler extends and by a predicate `succeeds` that holds of a call
  exactly when the awaited call resolves without throwing.
- **The address pattern** (module `EmailPattern`). The regular expression is
  given as the language it denotes (`MatchesPattern`). It is also given as a
  direct test (`IsValidEmail`): no whitespace, exactly one `@`, something
  before it, and a `.` in the domain that is neither its first nor its last
  character. The two are proved equal. `\s` is ECMAScript's whitespace class
  (WhiteSpace and LineTerminator, ECMA-262 sections 12.2 and 12.3), with the
  Unicode space separators written out.
- **The signup form** (module `SignupForm`). Class `Form` holds the three
  state cells `email`, `status` and `message`. It has one method per event:
  typing, submitting, a non-ok response, an ok response, and an exception from
  `fetch` or `res.json()`. `HandleSubmit` strings these together as the submit
  handler does. The rendering guards (form versus confirmation, disabled
  controls, error paragraph) are predicates on `status`. The pure transition
  function `Next` and runs of events (`ValidRun`, `After`) carry the
  properties that hold over whole runs.
- **The flow** (module `SignupFlow`): what the form shows for each of the
  endpoint's three responses.

Body values are modelled by `Js.Value`: a missing property, a string, or any
other JSON value known only by its truthiness and its `String(...)` form. The
handler tests the string form but forwards the value itself. So a non-string
value whose string form matches, such as a one-element array holding an
address, passes the check, and it is the value that goes to contact creation.
The model keeps this behaviour.

The handler awaits the two provider calls in sequence
(app/api/waitlist/route.ts:22, 30). A failed contact creation skips the
notification. The model follows this order.

## Model

| member | source | states |
|---|---|---|
| EmailPattern.PatternCharacterisation | app/api/waitlist/route.ts:8 | a string matches the pattern's language if and only if it has no whitespace, exactly one `@`, a non-empty part before it, and a domain with an inner `.` |
| EmailPattern.MatchImpliesValid | app/api/waitlist/route.ts:8 | any split of a string into `[^\s@]+ @ [^\s@]+ . [^\s@]+` makes it pass the direct test |
| EmailPattern.ValidImpliesMatch | app/api/waitlist/route.ts:8 | a string that passes the direct test splits as the pattern requires |
| EmailPattern.CountOne | app/api/waitlist/route.ts:8 | with `c` at index `i`, `c` occurs exactly once if and only if no other index holds it |
| WaitlistRoute.Post | app/api/waitlist/route.ts:10-50 | the log gains exactly the calls `Attempted` lists, in order; the response is one of 200 success, 400 with the fixed message, or 500 with the fixed message; it is 400 if and only if the address is rejected; it is 200 if and only if the address is accepted and every attempted call succeeded; a 200 comes after the notification was the last call made |
| WaitlistRoute.Dispatch | app/api/waitlist/route.ts:22-43 | an awaited provider call is logged whether or not it throws, and reports whether it resolved without throwing |
| WaitlistRoute.RejectedMakesNoCall | app/api/waitlist/route.ts:13-17 | a rejected address leads to no provider call, whatever the environment |
| WaitlistRoute.RejectionCases | app/api/waitlist/route.ts:13-15 | an address is rejected if and only if it is falsy or its string form fails the pattern; for a string, accepted if and only if it matches (the empty-string check adds nothing) |
| WaitlistRoute.NoAtRejected | app/api/waitlist/route.ts:13-15 | an address with no `@` (as `not-an-email`) is rejected |
| WaitlistRoute.PlainAddressAccepted | app/api/waitlist/route.ts:8-13 | any `word@word.word` address in lower-case letters (as `artist@example.com`) is accepted |
| WaitlistRoute.ContactAttemptedIff | app/api/waitlist/route.ts:21-27 | contact creation is attempted if and only if the address is accepted and the audience id is set and non-empty; it uses the address unchanged, that audience id and `unsubscribed` false |
| WaitlistRoute.ContactPrecedesSend | app/api/waitlist/route.ts:20-30 | contact creation comes before the notification, and a failed contact creation means no notification |
| WaitlistRoute.NotificationContents | app/api/waitlist/route.ts:17-33 | the notification is attempted if and only if the address is accepted and no contact creation failed; its subject is the fixed prefix plus the address, and its body mentions the address; sender and recipient fall back to the defaults only when unset; every call uses the configured key or `placeholder` |
| SignupForm.Next | app/page.tsx:11-35 | only a submission leads to `loading`; only an ok response leads to `success`; every response ends in `success` or `error`; `email` changes only by typing or an ok response, which clears it and sets the confirmation |
| SignupForm.ConsistentPreserved | app/page.tsx:7-35 | consistency (no message while idle; after success an empty input and the confirmation) survives every valid run |
| SignupForm.Reachable | app/page.tsx:7-9 | every state reachable from page load is consistent |
| SignupForm.SuccessIsAbsorbing | app/page.tsx:80-107 | in `success` no event can happen; the form and the error paragraph are not rendered |
| SignupForm.NeverBackToIdle | app/page.tsx:11-35 | once `status` has left `idle` it never returns |
| SignupForm.ResponseFollowsSubmit | app/page.tsx:11-35 | in a valid run every response comes right after a submission |
| SignupForm.DisabledIffInFlight | app/page.tsx:86-101 | input and button are disabled exactly when the run's last event was a submission, which is exactly when a request is in flight |
| SignupForm.Form.constructor | app/page.tsx:7-9 | the page starts with an empty email, `idle`, and an empty message |
| SignupForm.Form.Edit | app/page.tsx:91 | typing replaces `email` and nothing else |
| SignupForm.Form.Submit | app/page.tsx:12-13 | submitting sets `loading` and keeps the email and message |
| SignupForm.Form.OnNotOk | app/page.tsx:23-25 | a non-ok response sets `error`, with the body's `error` when it is truthy and the fallback otherwise; the email is kept |
| SignupForm.Form.OnOk | app/page.tsx:26-29 | an ok response sets `success` and the confirmation, and clears the email |
| SignupForm.Form.OnThrown | app/page.tsx:31-33 | an exception sets `error` and the fallback message; the email is kept |
| SignupForm.Form.HandleSubmit | app/page.tsx:11-35 | the submit handler sets `loading`, then applies the outcome's branch |
| SignupFlow.ResponsesAsShown | app/page.tsx:16-33 | after the endpoint's 200 the form shows the confirmation with an empty input; after its 400 it shows the endpoint's message with the input kept; after its 500 it ends exactly as after a network failure |

## Left out

- The Resend SDK is not modelled. `contacts.create` and `emails.send` are calls whose success is an arbitrary predicate on the call. Their delivery and deduplication semantics are not modelled.
- HTTP, `fetch`, `NextResponse` and JSON parsing are inputs and outcomes. The model starts from the body's `email` property. `req.json()` and the destructuring at app/api/waitlist/route.ts:11 are outside the `try`. Only text that does not parse as JSON, or a `null` body, throws there, and that exception is not answered by this handler. An array, string, number or boolean body gives `email` the value `undefined`, which the model covers as `Undefined` (a 400).
- A value with no `String(...)` form is not modelled. Examples are an object with its own `toString` key, or an array holding such an object. `EMAIL_RE.test(email)` at app/api/waitlist/route.ts:13 then throws, also outside the `try`. `Js.Value.Other` always carries a text, so the model cannot produce this outcome.
- A provider error reported inside a resolved result counts as success. The handler discards what `contacts.create` and `emails.send` resolve to (app/api/waitlist/route.ts:22, 30). Only a call that throws or rejects reaches the `catch` at line 46, and `succeeds` models exactly that.
- Building the provider client (`getResend()`, app/api/waitlist/route.ts:17, outside the `try`) is assumed never to throw.
- Non-string JSON values are not modelled in detail. They are known only by their truthiness and their `String(...)` form. Objects whose rendering React would refuse are not modelled.
- `console.error` logging is not modelled. The HTML template of the notification is not modelled either, except that it contains the address.
- `async` scheduling is not modelled. The two provider calls are awaited one after the other, so the model runs them as ordered steps.
- The `\s` class follows the Unicode version whose space separators are listed in `EmailPattern.Whitespace`. JavaScript strings are UTF-16. The pattern has no `u` flag, so it works on code units, and no surrogate code unit is whitespace or `@`. Working on characters therefore does not change the outcome.
- The browser's native validation of `type="email"` and `required` is not modelled. A `Submit` event stands for a submission that the browser let through. `e.preventDefault()` is not modelled either.
- The page's markup, styling and copy are not modelled. The same goes for app/info/page.tsx, app/layout.tsx and tailwind.config.ts.
- The button label (app/page.tsx:100) is left out. It is copy chosen by the same `loading` guard as the disabled controls.
