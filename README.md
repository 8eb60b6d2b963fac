# ENGG 2002–2006 Reunion — verified model of the registration core

This project is a Dafny model of the logic behind the reunion site's
registration path, together with proofs about it:

- **the referral-code issuer** (`ReferralCode`, `referral_code.dfy`). It draws
  `ENG-` plus four characters from `A–Z0–9` and retries against the
  `registrations` table up to `maxAttempts` times (5 by default). It stops
  at the first free code. A failed query aborts it at once.
- **the registration form** (`Registration`, `registration_form.dfy`). This
  covers the per-field validation rules, the normalised record handed to the
  insert, and the classification of the insert's outcome. It also covers
  the component state (`form`, `errors`, `submitting`, `submitError`,
  `success`, `referralCode`), modelled as the class `RegistrationForm`
  whose methods are `handleChange`, `handleReset` and `handleSubmit`.
- **the confirmation-email edge function** (`RegistrationEmail`,
  `registration_email.dfy`). This covers the first-name and share-link
  derivation, the HTML body as a sequence of fixed pieces and interpolated
  values, and the request dispatch: 405, ignored 200, a single send, and
  200 or 500 after the provider answers.
- **the country aggregation of the world map** (`HeatMap`,
  `world_heat_map.dfy`). This covers the counting loop of
  `fetchCountryData`, the colour-scale maximum, the tooltip text and box,
  and the zero-count fills. The `countryCounts`/`tooltip` state and its
  handlers are modelled as the class `HeatMapView`.
- **the hero particle table** (`Hero`, `hero.dfy`): thirty records computed
  from their index by integer arithmetic.

The support modules are `Results` (`Option`, `Result`) and `JsText`.
`JsText` holds the JavaScript string operations the code relies on:
`trim()` with ECMAScript's white-space set, `\s`, ASCII `toLowerCase()`
and the UTF-16 `.length`.

Randomness, the Supabase store, the email provider, the environment and the
clock are parameters of the model:

- `Math.random()` is the function `RandomSource`. Its k-th draw is already
  scaled and floored into `[0, 36)`.
- The existence query for a candidate code is the function `Lookup`, which
  answers `Taken`, `Free` or `QueryFailed(message)`. The issuer only reads
  through it.
- The insert answers `Inserted`, `InsertFailed(code, message)` or
  `InsertThrew(message)`.
- The Resend call answers `Accepted(id)`, `Rejected(status, text)` or
  `ProviderThrew(message)`.
- `req.json()` is a `Result` carrying the payload.
- `Deno.env.get` is an `Option` per variable.
- The year printed in the footer is a string parameter.
- `countryNameToISO3` is the function `IsoOf`. Its `""` stands for every
  falsy answer.
- The d3 colour scale is a function from counts to colour strings.

Falsy strings (`''`, `null`, `undefined`) are modelled as `""` wherever the
code only tests them for truthiness.

Behaviour the model follows exactly as the code does it:

- **Branch check.** `branch` is only checked for being non-empty. It is not
  checked against `BRANCHES`.
- **Email check.** The email pattern is applied to the untrimmed value, and
  the phone pattern to the trimmed one.
- **Duplicate email.** Every insert error with code `23505` is reported as a
  duplicate email, whichever unique constraint raised it.
- **Failed issuance.** A failed issuance and a thrown insert are both shown
  through `err.message`, falling back to the network-error text when the
  message is empty. There is no separate state for an unknown outcome, and
  nothing resubmits.
- **Name length.** The full-name length rule counts UTF-16 code units, as
  `.length` does, so a single character outside the Basic Multilingual
  Plane passes it.

## Model

| member | source | states |
|---|---|---|
| JsText.Trim | src/components/RegistrationForm.jsx:46-58 | the trimmed value neither starts nor ends with white space |
| JsText.TrimRemovesSpace | src/components/RegistrationForm.jsx:46-58 | `trim()` returns a contiguous slice of its input, everything cut on either side is white space, and the result is empty exactly when the input is all white space |
| JsText.TrimStartRemovesSpace | src/components/RegistrationForm.jsx:46-58 | the leading cut is a suffix whose removed prefix is all white space |
| JsText.TrimEndRemovesSpace | src/components/RegistrationForm.jsx:46-58 | the trailing cut is a prefix whose removed suffix is all white space |
| JsText.TrimOfTrimmed | src/components/RegistrationForm.jsx:162-169 | a value without outer white space is left unchanged by `trim()` |
| JsText.TrimIdempotent | src/components/RegistrationForm.jsx:162-169 | trimming twice is trimming once |
| JsText.LowerChar | src/components/RegistrationForm.jsx:163 | lower-casing leaves no upper-case ASCII letter, changes exactly the upper-case ones, and keeps white space white space |
| JsText.ToLower | src/components/RegistrationForm.jsx:163 | `toLowerCase()` keeps the length and lower-cases position by position |
| JsText.ToLowerTrim | src/components/RegistrationForm.jsx:163 | lower-casing commutes with trimming and is idempotent |
| JsText.ToLowerTrimStart | src/components/RegistrationForm.jsx:163 | lower-casing commutes with removing leading white space |
| JsText.ToLowerTrimEnd | src/components/RegistrationForm.jsx:163 | lower-casing commutes with removing trailing white space |
| JsText.Utf16LengthBounds | src/components/RegistrationForm.jsx:47 | `.length` lies between the number of code points and twice that number |
| JsText.IsSpace | src/components/RegistrationForm.jsx:46-58 | definition: ECMAScript's white space and line terminators, the set both `trim()` and `\s` use |
| JsText.TrimStart | src/components/RegistrationForm.jsx:46-58 | the result is no longer than the input and does not start with white space |
| JsText.TrimEnd | src/components/RegistrationForm.jsx:46-58 | the result is no longer than the input and does not end with white space |
| JsText.Utf16Length | src/components/RegistrationForm.jsx:47 | definition of `.length`: one code unit per code point below U+10000, two above; bounded by `Utf16LengthBounds` and `Utf16LengthBmp` |
| JsText.Utf16LengthBmp | src/components/RegistrationForm.jsx:47 | `.length` equals the number of code points exactly when none lies outside the Basic Multilingual Plane |
| ReferralCode.CharAt | src/utils/generateReferralCode.js:7-10 | every index of the alphabet gives an upper-case letter or a digit |
| ReferralCode.Alphanumeric | src/utils/generateReferralCode.js:6-13 | the drawn string has exactly the requested length and only `A–Z0–9` characters |
| ReferralCode.RandomAlphanumeric | src/utils/generateReferralCode.js:6-13 | the counted loop builds exactly the string the draws determine, which therefore has the requested length and alphabet |
| ReferralCode.Candidate | src/utils/generateReferralCode.js:25 | every candidate is `ENG-` followed by four alphabet characters, eight characters in all |
| ReferralCode.IssueFrom | src/utils/generateReferralCode.js:24-39 | definition of the retry loop from a given attempt: look up the candidate; taken goes on, free returns it, a failed query aborts with its message, and a spent budget gives the exhaustion error; properties in the `Issue…` lemmas |
| ReferralCode.Issue | src/utils/generateReferralCode.js:23-40 | definition: `IssueFrom` from attempt 0, the specification `GenerateReferralCode` is proved equal to |
| ReferralCode.GenerateReferralCode | src/utils/generateReferralCode.js:23-40 | the retry loop returns the outcome and the sequence of lookups of the specification `Issue`, of which the lemmas below state the properties |
| ReferralCode.IssueQueries | src/utils/generateReferralCode.js:24-37 | at most `maxAttempts` lookups, none when `maxAttempts <= 0` (then the exhaustion error at once), the k-th lookup is the k-th candidate, and every lookup but the last found its code taken |
| ReferralCode.IssuedCodeIsFree | src/utils/generateReferralCode.js:27-36 | a returned code is the last candidate looked up, the store reported no row for it, and it has the `ENG-XXXX` shape |
| ReferralCode.IssueStopsAtFirstReply | src/utils/generateReferralCode.js:33-36 | the first candidate not reported taken ends the call: free gives that code, a failed query gives the query's message, and no later lookup is made |
| ReferralCode.IssueExhausted | src/utils/generateReferralCode.js:24-39 | when every candidate is taken the call fails with the fixed exhaustion message after exactly `maxAttempts` lookups |
| ReferralCode.DefaultBudgetExhausted | src/utils/generateReferralCode.js:23-39 | with the default budget and every code taken, the exhaustion error comes after exactly five lookups |
| ReferralCode.IssuedCodeIsNew | src/utils/generateReferralCode.js:27-36 | a code the store already holds is never returned |
| ReferralCode.IssuedCodesDistinct | src/utils/generateReferralCode.js:23-40 | successive successful calls against a store holding the earlier codes return pairwise distinct codes |
| Registration.Form.With | src/components/RegistrationForm.jsx:124 | `{ ...prev, [name]: value }` sets the named field and leaves every other field as it was |
| Registration.MatchesEmailPattern | src/components/RegistrationForm.jsx:50 | definition of `^[^\s@]+@[^\s@]+\.[^\s@]+$`: three non-empty runs without white space or `@`, joined by `@` and `.`; characterised by `EmailPatternShape` |
| Registration.MatchesPhonePattern | src/components/RegistrationForm.jsx:53 | definition of `^[+\d][\d\s\-()]{6,18}$`: 7 to 19 characters, the first `+` or a digit, the rest digits, white space, `-`, `(` or `)`; used by `PhoneRule` |
| Registration.FullNameError | src/components/RegistrationForm.jsx:46-47 | definition of the full-name rule; stated by `FullNameRule` |
| Registration.EmailError | src/components/RegistrationForm.jsx:49-50 | definition of the email rule; stated by `EmailRule` |
| Registration.PhoneError | src/components/RegistrationForm.jsx:52-53 | definition of the phone rule; stated by `PhoneRule` |
| Registration.BranchError | src/components/RegistrationForm.jsx:55 | definition of the branch rule; stated by `BranchCityCountryRules` |
| Registration.RequiredError | src/components/RegistrationForm.jsx:57-58 | definition of the city and country rules; stated by `BranchCityCountryRules` |
| Registration.FieldError | src/components/RegistrationForm.jsx:43-61 | definition: the rule of each field, none for `referral_code_used`; stated by `ValidateEntries` |
| Registration.Validate | src/components/RegistrationForm.jsx:43-61 | the error map only ever has keys among the six required fields |
| Registration.ValidateEntries | src/components/RegistrationForm.jsx:43-61 | a field has an entry exactly when its own rule fails, holding that rule's message |
| Registration.ValidateInitialForm | src/components/RegistrationForm.jsx:19-27 | the initial form gets exactly the six "required" messages and no entry for `referral_code_used` |
| Registration.FullNameRule | src/components/RegistrationForm.jsx:46-47 | "required" iff the trimmed name is empty, "too short" iff its UTF-16 length is 1, no entry iff that length is at least 2 |
| Registration.EmailRule | src/components/RegistrationForm.jsx:49-50 | "required" iff the trimmed email is empty, "invalid" iff it is not empty and the untrimmed value fails the pattern, no entry iff the untrimmed value matches |
| Registration.PhoneRule | src/components/RegistrationForm.jsx:52-53 | "required" iff the trimmed phone is empty, "invalid" iff it is not empty and fails the pattern, no entry iff the trimmed value matches |
| Registration.BranchCityCountryRules | src/components/RegistrationForm.jsx:55-58 | branch fails exactly when empty, with no check against `BRANCHES`; city and country fail exactly when they trim to nothing; `referral_code_used` never has an entry; a non-empty branch outside `BRANCHES` is accepted |
| Registration.CountOfNone | src/components/RegistrationForm.jsx:50 | a character occurs zero times exactly when no position holds it |
| Registration.CountOfSingle | src/components/RegistrationForm.jsx:50 | a character found at one position occurs once exactly when no other position holds it |
| Registration.EmailSplitChars | src/components/RegistrationForm.jsx:50 | in a value split by the pattern, every character but the `@` is neither white space nor `@` |
| Registration.EmailSplitFromChars | src/components/RegistrationForm.jsx:50 | a value with a single `@` and a later `.`, both with text on each side, is split by the pattern |
| Registration.EmailPatternShape | src/components/RegistrationForm.jsx:50 | the email pattern holds iff the value has no white space, exactly one `@` with text before it, and a `.` after the `@` with a character on each side |
| Registration.Normalize | src/components/RegistrationForm.jsx:161-170 | definition of the inserted object; stated by `NormalizeShape`, `NormalizeIdempotent` and `ValidFormGivesWellFormedRecord` |
| Registration.NormalizeShape | src/components/RegistrationForm.jsx:162-169 | the inserted record has trimmed text fields, an email without upper-case ASCII letters, the branch and code unchanged, and a null referral exactly when the entered one trims to nothing |
| Registration.NormalizeIdempotent | src/components/RegistrationForm.jsx:162-169 | normalising the stored record again changes nothing |
| Registration.SameStoredEmail | src/components/RegistrationForm.jsx:163 | emails that differ only in ASCII letter case and outer white space are stored as the same value |
| Registration.NormalizedEmailMatches | src/components/RegistrationForm.jsx:49-50 | an email matching the pattern has no outer white space, and its lower-cased form still matches |
| Registration.ValidFormGivesWellFormedRecord | src/components/RegistrationForm.jsx:148-169 | a form that passes validation is inserted with a name of length at least 2, an email and a phone that match their patterns, and a non-empty branch, city and country |
| Registration.ThrownMessage | src/components/RegistrationForm.jsx:185 | the shown message is the error's own message when it has one and "Network error. Please try again." when it is empty, so it is never empty |
| Registration.Classify | src/components/RegistrationForm.jsx:173-188 | success exactly on an error-free insert, carrying the issued code; a thrown insert shows the thrown message or the network-error fallback; every failure carries a non-empty message |
| Registration.ClassifyStoreErrors | src/components/RegistrationForm.jsx:173-179 | code `23505` gives the duplicate-email message, any other error its own message or the generic fallback when that is empty |
| Registration.RegistrationForm.constructor | src/components/RegistrationForm.jsx:114-119 | the state starts as the initial form, no errors, not submitting, no message, no success, no code |
| Registration.RegistrationForm.HandleChange | src/components/RegistrationForm.jsx:122-133 | only the named field changes; only that field's error is removed, and only when it is present and non-empty; other errors and flags stay; `submitError` is cleared |
| Registration.RegistrationForm.HandleReset | src/components/RegistrationForm.jsx:135-141 | restores the initial form, an empty error map, no message, `success = false` and an empty code |
| Registration.RegistrationForm.HandleSubmit | src/components/RegistrationForm.jsx:143-191 | a failing form only replaces `errors` and sends nothing; otherwise the code is issued with the default budget and the normalised record is inserted once; `success` and `referralCode` are set only on an error-free insert; `submitting` is false at the end |
| RegistrationEmail.EnvOr | supabase/functions/send-registration-email/index.ts:14-15 | the setting is the variable's value when set and non-empty, the fallback otherwise, so it is never empty when the fallback is not |
| RegistrationEmail.FromEmail | supabase/functions/send-registration-email/index.ts:14 | definition of `FROM_EMAIL`; stated by `SettingsFallBack` |
| RegistrationEmail.SiteUrl | supabase/functions/send-registration-email/index.ts:15 | definition of `SITE_URL`; stated by `SettingsFallBack` |
| RegistrationEmail.SettingsFallBack | supabase/functions/send-registration-email/index.ts:14-15 | `FROM_EMAIL` and `SITE_URL` fall back to their fixed defaults when unset or empty |
| RegistrationEmail.FirstName | supabase/functions/send-registration-email/index.ts:40 | the first name is a prefix of the full name without a space, followed by a space or the end of the name |
| RegistrationEmail.FirstNameCases | supabase/functions/send-registration-email/index.ts:40 | a name without a space is its own first name; a name starting with a space has an empty one |
| RegistrationEmail.ShareLink | supabase/functions/send-registration-email/index.ts:41 | the link is the site URL, then `/register?ref=`, then the referral code, each readable back from its position |
| RegistrationEmail.Greeting | supabase/functions/send-registration-email/index.ts:71 | definition of the greeting line around the first name |
| RegistrationEmail.Subject | supabase/functions/send-registration-email/index.ts:189 | definition of the subject line around the first name |
| RegistrationEmail.BuildEmailHtml | supabase/functions/send-registration-email/index.ts:38-153 | definition: the template's pieces in order (fixed markup abbreviated); stated by `EmailHtmlContents` |
| RegistrationEmail.ConfirmationRequest | supabase/functions/send-registration-email/index.ts:176-191 | definition of the JSON body sent to the provider; stated by `ServeSendsConfirmation` |
| RegistrationEmail.PartOccurs | supabase/functions/send-registration-email/index.ts:43-153 | every piece of the template occurs in the assembled body |
| RegistrationEmail.EmailHtmlContents | supabase/functions/send-registration-email/index.ts:38-153 | the body contains the greeting with the first name, the referral code and the share link |
| RegistrationEmail.Serve | supabase/functions/send-registration-email/index.ts:156-217 | a send request is made exactly for a POST whose body parses as an INSERT on `registrations`; the status is always 200, 405 or 500 |
| RegistrationEmail.ServeFiltersRequests | supabase/functions/send-registration-email/index.ts:158-174 | a non-POST gets 405; a POST of another event or table gets the ignored 200 with no send; an unreadable body gets 500 with no send |
| RegistrationEmail.ServeSendsConfirmation | supabase/functions/send-registration-email/index.ts:176-216 | a registration insert sends one request from `FROM_EMAIL` to the registrant alone, that is exactly `ConfirmationRequest` for the record, whose subject and greeting use the same first name and whose body has the code and the share link; accepted gives 200 with the id, rejected gives 500 "Failed to send email", a throw gives 500 "Internal server error" |
| HeatMap.Bump | src/components/WorldHeatMap.jsx:31 | one more row for a code adds one to its count (from 0 when absent) and leaves every other count unchanged |
| HeatMap.CountsOf | src/components/WorldHeatMap.jsx:27-33 | definition: the dictionary the loop has built after the given rows, in order; stated by `CountsOfTally` and `CountsOfTotal` |
| HeatMap.CountsAfterFetch | src/components/WorldHeatMap.jsx:17-34 | definition: `{}` on an error or null `data`, otherwise `CountsOf` of the rows; stated by `FailedFetchIsEmpty` |
| HeatMap.FetchCountryData | src/components/WorldHeatMap.jsx:17-34 | the loop returns the left fold `CountsAfterFetch` of the reply, whose properties the lemmas below state |
| HeatMap.CountsOfTally | src/components/WorldHeatMap.jsx:27-33 | each code's count is the number of rows mapping to it; unmapped rows are skipped, so `""` is never a key; every key counts at least one row |
| HeatMap.FailedFetchIsEmpty | src/components/WorldHeatMap.jsx:22-28 | a query error or a null `data` yields the empty dictionary |
| HeatMap.TotalRemove | src/components/WorldHeatMap.jsx:27-33 | the sum of the counts splits off any one key's count |
| HeatMap.TotalBump | src/components/WorldHeatMap.jsx:31 | counting one more row raises the sum of counts by one |
| HeatMap.CountsOfTotal | src/components/WorldHeatMap.jsx:27-33 | the counts add up to the number of rows whose country is recognised |
| HeatMap.MaxCount | src/components/WorldHeatMap.jsx:85-88 | the scale maximum is at least 1, at least every count, and is 1 or one of the counts |
| HeatMap.MaxCountAttained | src/components/WorldHeatMap.jsx:85-88 | when some country has registrations the maximum is the largest count |
| HeatMap.CountFor | src/components/WorldHeatMap.jsx:103 | definition of the count read for a code: its entry, or 0 when it has none |
| HeatMap.GeoIso | src/components/WorldHeatMap.jsx:102 | definition of `geo.properties['Alpha-3'] ?? geo.id` |
| HeatMap.DecimalString | src/components/WorldHeatMap.jsx:105 | the printed count is a non-empty string of digits with no leading zero |
| HeatMap.DecimalRoundTrip | src/components/WorldHeatMap.jsx:105 | the printed count reads back as the count |
| HeatMap.TooltipText | src/components/WorldHeatMap.jsx:105 | definition of the tooltip template; stated by `TooltipPlural` and `DecimalRoundTrip` |
| HeatMap.TooltipPlural | src/components/WorldHeatMap.jsx:105 | the tooltip starts with the country name and ends in "registration", with an `s` exactly when the count is not 1 |
| HeatMap.CountryFill | src/components/WorldHeatMap.jsx:159-172 | a zero count gets `#f1f3f5` by default and `#e9ecef` on hover; a positive count gets the scale's colour for that count in both |
| HeatMap.FillUsesScaleOnlyAtCount | src/components/WorldHeatMap.jsx:159-172 | the colour scale is not consulted for zero counts, and only at the country's own count otherwise |
| HeatMap.TooltipBox | src/components/WorldHeatMap.jsx:37-47 | no box for empty content, otherwise one offset by (+12, −28) from the pointer |
| HeatMap.HeatMapView.constructor | src/components/WorldHeatMap.jsx:53-54 | counts start empty and the tooltip hidden at (0, 0) |
| HeatMap.HeatMapView.Refresh | src/components/WorldHeatMap.jsx:57-60 | the counts become the fresh aggregation; the tooltip is unchanged |
| HeatMap.HeatMapView.HandleMouseEnter | src/components/WorldHeatMap.jsx:99-110 | the tooltip shows the country's name and count (0 when missing, by `Alpha-3` or else `id`) at the pointer and is visible; the counts are unchanged |
| HeatMap.HeatMapView.HandleMouseMove | src/components/WorldHeatMap.jsx:112-117 | only the tooltip position changes; its content stays |
| HeatMap.HeatMapView.HandleMouseLeave | src/components/WorldHeatMap.jsx:119-121 | the tooltip is reset to empty content at (0, 0) and not drawn |
| Hero.Particles | src/components/Hero.jsx:30-32 | exactly 30 particles, with ids 0..29 in order |
| Hero.ParticleRanges | src/components/Hero.jsx:33-36 | size is one of 4, 8, 12, 16, 20; x and y lie in 0..99; duration is one of 6, 8, 10, 12 |
| Hero.SameRemainder | src/components/Hero.jsx:34-35 | numbers with equal remainders modulo 100 differ by a multiple of 100 |
| Hero.CancelStep | src/components/Hero.jsx:34-35 | a number whose product with an invertible step is a multiple of 100 is itself one |
| Hero.AffineModInjective | src/components/Hero.jsx:34-35 | `i ↦ (i·step + offset) mod 100` is one-to-one on 0..99 when `step` is invertible modulo 100 |
| Hero.ParticlePositionsDistinct | src/components/Hero.jsx:34-35 | the 30 `x` values are pairwise distinct, and so are the 30 `y` values |

## Left out

- Supabase I/O is left out: the client, `select`/`eq`/`maybeSingle`, `insert`, the realtime channel and the 30-second polling interval. Their answers are parameters, and the store's own uniqueness constraint and race behaviour are not visible in this code.
- `Math.random` is replaced by an injected source of alphabet indices. Only its range matters.
- In the edge function, `Deno.env`, the `fetch` to Resend, `console` logging, `req.json()` parsing and `new Date().getFullYear()` are replaced by their outcomes. The `Authorization` header carrying `RESEND_API_KEY` is not modelled.
- ReferralCode.GenerateReferralCode: the store is a function, so it answers the same way for the same code throughout one call; writes by other clients between two lookups are not modelled.
- ReferralCode.GenerateReferralCode: `maxAttempts` is an integer. Fractional or non-numeric JavaScript values are not modelled.
- JsText.LowerChar: maps only `A`–`Z` to `a`–`z` and leaves every other character unchanged, unlike `toLowerCase()` on letters such as `É`.
- JsText.ToLower: lower-cases ASCII letters only. Unicode case mapping is not modelled, so the email properties hold for ASCII input.
- RegistrationEmail.BuildEmailHtml: the fixed markup and inline styles between the interpolated values are abbreviated. The order and the values interpolated are kept.
- RegistrationEmail.Serve: a webhook record with missing fields (a JavaScript `TypeError` inside the handler) is not modelled; it would take the "Internal server error" path.
- HeatMap: `countryNameToISO3` is an uninterpreted parameter, and `src/utils/countryMapping.js` is not part of this model.
- HeatMap.MaxCount: a ghost function; nothing executable depends on it.
- Floating-point code is left out: the d3 `scaleLinear` interpolation, the Hero `delay` (`(i * 0.4) % 5`) and `src/hooks/useCountUp.js`.
- Rendering, animation, routing, `FIELD_DEFS` layout, the success banner and the other pages and layouts are UI and not modelled.
- Hero: being a function, `Particles()` is the same on every call. The `useMemo` caching around it is not modelled.
- Registration.RegistrationForm.HandleSubmit: modelled as one atomic step. The handler pauses at `await generateReferralCode()` and at the insert, and `handleChange` can run in between, because only the submit button is disabled while submitting. Its cleared `submitError` can then be overwritten by the submit's message. Such interleavings are not captured.
- HeatMap.HeatMapView.Refresh: modelled as one atomic step. Overlapping refreshes from the polling interval and the realtime channel can finish out of order, so an older aggregation can replace a newer one. This is not captured.
