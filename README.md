# Step-up login of the TwiX backend, modelled in Dafny

The backend (`index.js`) decides at each login whether to trust the attempt or to demand a
one-time passcode (OTP). The test is the account's login history. If the history has a last
entry, and that entry's browser or platform differs from the current request's, the handler
issues a six-digit code through `/send-otp` and answers `{success: true, otpRequired: true}`.
Otherwise the login is trusted. Codes live in a process-wide dictionary `otps` keyed by email.
Each code expires five minutes after issue, and a new code for the same email replaces the
old one. A successful `/verify-otp` deletes the code and appends a login event to the
account's history. `/login-history` appends an event directly. `/check-access` denies phones
and tablets outside 9:00–17:00.

Layout:

- `wrappers.dfy`: `Option`, standing for a JavaScript value that may be `undefined`.
- `decimal.dfy`: decimal numerals of naturals (`Show`), which is what `Number.prototype.toString` gives for the six-digit codes, a reader (`Value`), and the round trip between them.
- `ledger.dfy`: login events, the fingerprint (browser and OS names), and the append-only history operations.
- `otp_store.dfy`: OTP entries, code generation, issue, the strict validity check, and consumption.
- `access_gate.dfy`: the `/check-access` rule.
- `step_up.dfy`: the pure state machine. `Step` handles one request and `Run` handles a sequence.
- `step_up_properties.dfy`: what the flow promises, as lemmas over `Step` and `Run`.
- `service.dfy`: class `AuthService`, with the `otps` and `accounts` maps as fields that its
  handler methods update in place. Each method is proved to produce the state and reply that
  `Step` prescribes.

Everything that is non-deterministic or external becomes a parameter:

- the clock (`now`, in milliseconds);
- the random draw (`Draw`, the integer `Math.floor(Math.random() * 900000)`);
- the local hour (`Hour`);
- the user-agent parser's browser, OS and device names (`Option<string>`);
- the client address.

## Model

| member | source | states |
|---|---|---|
| `Decimal.Show` | index.js:183 | the numeral is a non-empty string of digits with no leading zero (except for 0 itself), as `toString()` writes the codes 100000..999999 |
| `Decimal.ValueOfShow` | index.js:183 | reading the decimal string back gives the number it was made from |
| `Decimal.ShowInjective` | index.js:183 | two naturals have the same decimal string iff they are equal |
| `Decimal.ShowLength` | index.js:183 | a number in [10^k, 10^(k+1)) has a decimal string of exactly k+1 characters |
| `Ledger.EventFrom` | index.js:162-173 | the recorded event carries the current browser, platform (the OS name), address and time |
| `Ledger.LastLogin` | index.js:116-117 | `loginHistory[length - 1]`: absent exactly for an empty history, otherwise the last element |
| `Ledger.Open` | index.js:98 | a new account gets an empty history; existing accounts keep theirs; the key set gains just that email |
| `Ledger.Push` | index.js:171-174 | `$push` without upsert: the event goes at the end of that email's history, other histories are unchanged, an unknown email matches nothing |
| `OtpStore.OtpCode` | index.js:183 | the code is a six-digit decimal string whose value is 100000 + draw, so it lies in [100000, 999999] |
| `OtpStore.OtpCodeInjective` | index.js:183 | two draws give the same code iff they are equal |
| `OtpStore.Issue` | index.js:184 | the email's entry becomes the new code with expiry now + 300000; no other entry changes |
| `OtpStore.Accepts` | index.js:212-214 | a check succeeds iff an entry exists, the submitted body value is that exact string (`===`), and now < expires |
| `OtpStore.Consume` | index.js:230 | `delete otps[email]` removes exactly that key and keeps every other entry |
| `AccessGate.AccessAllowed` | index.js:47-61 | a non-mobile device is always allowed; a mobile or tablet device is allowed iff 9 <= hour < 17 |
| `StepUp.NeedsStepUp` | index.js:116-119 | an OTP is required iff the history is non-empty and its last entry's browser or platform differs from the current one |
| `StepUp.Challenge` | index.js:116-124 | the login tail shared by both paths: histories untouched; `OtpRequired` iff `NeedsStepUp`, and then the email's code is issued; otherwise `Success` with nothing changed |
| `StepUp.Step` | index.js:96-235 | handling any request keeps every account, and every old history is a prefix of the new one; well-formed codes stay well-formed |
| `StepUp.Run` | index.js:96-235 | the same two invariants hold over any sequence of requests |
| `StepUpProperties.PasswordLoginDecision` | index.js:103-128 | unknown email: `InvalidCredentials`, nothing changes; known email: OTP required iff `NeedsStepUp`, a fresh code is then issued for that email, otherwise plain success with nothing changed; histories never change |
| `StepUpProperties.GoogleLoginDecision` | index.js:130-156 | unknown email: account inserted with an empty history, success, no OTP issued; known email: decided exactly as the password path |
| `StepUpProperties.ChallengeIffFingerprintChanged` | index.js:116-124 | on both login paths the reply is `OtpRequired` iff a last login exists whose browser or platform differs, and `Success` otherwise |
| `StepUpProperties.RegisterStartsEmpty` | index.js:96-101 | a registered new email has an empty history; nothing else changes |
| `StepUpProperties.RecordLoginAppends` | index.js:160-179 | exactly the current event is appended at the end of that account's history; other histories and all OTPs unchanged |
| `StepUpProperties.SendOtpOverwrites` | index.js:181-184 | the email's entry is replaced by a six-digit code of value 100000 + draw expiring at now + 300000; everything else unchanged |
| `StepUpProperties.OtherEmailsUntouched` | index.js:96-235 | no request changes the OTP entry or the history of an email other than its own |
| `StepUpProperties.VerifyIff` | index.js:214 | verification succeeds iff an entry exists, the submitted value equals the stored string, and now < expires; every failure is `InvalidOtp` |
| `StepUpProperties.ExpiredCodeFails` | index.js:214 | at now == expires and later, verification fails and nothing changes |
| `StepUpProperties.NumericOtpNeverVerifies` | index.js:214 | a code submitted as a JSON number never verifies, because the stored code is a string and the comparison is `===` |
| `StepUpProperties.FailedVerifyChangesNothing` | index.js:232-234 | a failed verification leaves the OTP map and every history unchanged |
| `StepUpProperties.VerifyConsumesAndRecords` | index.js:215-231 | on success the email's entry, and only it, is deleted; exactly one event with the current browser, platform and address is appended to that account's history |
| `StepUpProperties.OneTimeUse` | index.js:230 | after a successful verification, the same submission fails at any later time |
| `StepUpProperties.LatestCodeWins` | index.js:183-184 | after two issues for one email, the first code verifies iff the draws were equal and now is before the second expiry |
| `StepUpProperties.OnlyRecordOrVerifyAppends` | index.js:171-174 | in any step, a history either stays the same or gains one event at its end, and only through `/login-history` or a successful verification for that email; logins never record |
| `StepUpProperties.RecordedEvents` | index.js:171-174 | the events N `/login-history` requests record: one per request |
| `StepUpProperties.RecordsAccumulate` | index.js:171-174 | N appends to one account leave its history as the old one followed by the N events in order; its length grows by exactly N |
| `StepUpProperties.HistoryIsAppendOnly` | index.js:96-235 | over any run, every account survives and its history only grows at the end |
| `StepUpProperties.ChangedFingerprintScenario` | index.js:119-121 | last login Chrome/Windows, new login Safari/macOS: `OtpRequired`, and a six-digit code expiring at now + 300000 is stored |
| `StepUpProperties.ExpiryScenario` | index.js:184 | the right code verifies at issue + 299 s and fails at issue + 300 s and at issue + 301 s |
| `Service.AuthService.constructor` | index.js:28 | a process starts with an empty `otps` dictionary over whatever accounts the user store already holds, so a restart loses every code and keeps every history |
| `StepUpProperties.RestartLosesCodes` | index.js:28 | the first verification after a restart fails and changes nothing, whatever the accounts hold and whatever is submitted |
| `Service.AuthService.Register` | index.js:96-101 | new state and reply are those `Step` gives for `/register` |
| `Service.AuthService.SendOtp` | index.js:181-184 | new state and reply are those `Step` gives for `/send-otp`; the returned code is the stored six-digit code |
| `Service.AuthService.StepUpIfChanged` | index.js:111-124 | compares the last login with the current fingerprint and, on a change, issues a code and replies `OtpRequired` |
| `Service.AuthService.PasswordLogin` | index.js:103-128 | new state and reply are those `Step` gives for `/login` |
| `Service.AuthService.GoogleLogin` | index.js:130-156 | new state and reply are those `Step` gives for `/google-login` |
| `Service.AuthService.RecordLogin` | index.js:160-179 | new state and reply are those `Step` gives for `POST /login-history` |
| `Service.AuthService.VerifyOtp` | index.js:210-235 | new state and reply are those `Step` gives for `/verify-otp` |

`/login` has no password check: any password is accepted for an existing email (index.js:107-109), and the model has none either.

## Left out

- Express routing, middleware, status codes and response bodies. Replies are the `Outcome` datatype.
- MongoDB. The `users` collection is reduced to a map from email to `loginHistory`. Other account fields (password, subscription) are not modelled.
- Concurrency. Requests are handled one at a time. The atomicity of `$push` under concurrent requests, and the interleaving of the awaits inside a handler, are not modelled.
- User-agent parsing (ua-parser-js, express-useragent). Browser, OS and device names are inputs.
- How the store round-trips an absent name. The model compares absent names as equal, as `undefined !== undefined` is false. It does not model a driver that stores `undefined` as `null`.
- `Math.random`, `Date.now()` and `getHours()`. They become the `Draw`, `now` and `Hour` parameters. Floating-point rounding in `Math.floor(100000 + Math.random() * 900000)` is not modelled.
- Timestamp formats. `toLocaleString()` in `/login-history` and a `Date` in `/verify-otp` are both an integer `timestamp`. The extra `os` field (a copy of `platform`) and the `email` field of the verify event are not kept.
- Mail delivery by nodemailer, and its error reply (index.js:186-207). `/send-otp` stores the entry before sending, so the model's state is the same either way.
- StepUp.Step: the login handlers call `/send-otp` over HTTP (axios, index.js:120 and 146). The model makes this a direct call that always succeeds. If mail delivery failed, the source's login request would fail without a reply, although the code is already stored. The model replies `OtpRequired`.
- StepUp.Step: `/register` on an email that already has an account leaves the state unchanged. A second document would be shadowed by the first in `findOne`/`updateOne`, or refused by a unique index. Either way the core's view does not change.
- The `|| []` fallback for an account without a `loginHistory` field (index.js:116, 140). Such accounts arise only from the billing webhook's and `/userUpdates`' upserts, which are not part of this model. Every modelled account has a history.
- Emails that name `Object.prototype` members (such as `__proto__`) as keys of the plain object `otps`. The model treats `otps` as a true dictionary.
- `Decimal.Show` agrees with `Number.prototype.toString` for integers below 2^53, which covers the codes 100000..999999 that `/send-otp` makes. Larger numbers are written differently by JavaScript (rounded digits, or exponent notation from 10^21 on) and are not modelled.
- `GET /login-history` (index.js:237-245). It is a read-only projection of `accounts[email]`, which the model exposes as a field.
- Stripe checkout and webhook (index.js:247-327). These are foreign calls, and `amount_total / 100` is floating point.
- Post CRUD, user listing and `/loggedInUser` (index.js:64-94). These are storage passthrough.
- `PATCH /userUpdates/:email` (index.js:329-336) runs `$set` with the unchecked request body and upsert. It can replace or clear `loginHistory`, the baseline the step-up decision reads, and it can rename `email`. It is not modelled. So `Ledger.Extends`, `StepUp.Step`'s prefix clause, `StepUp.Run`, `StepUpProperties.HistoryIsAppendOnly` and `StepUpProperties.OnlyRecordOrVerifyAppends` hold only over runs of the modelled handlers.
- No limit on verification attempts. The source has none, and neither does the model.
