# Security notification handlers: a Dafny model

This project models the decision logic of a small AWS security-support
repository. Most of that repository declares cloud resources; three pieces
of it make decisions, and those are modelled here:

- **The scheduled credential-check lambda** (`lambda-CheckUsersCredentials`).
  It pages through the IAM users. For each user it requests the access keys
  and reports every active key aged 90 days or more; the key loop loses its
  paging marker, so only a first page that is not truncated ends it (see
  "## Findings"). It then reports a
  user whose last password use is 80 days old or more. Each finding becomes
  one newline-terminated line of a report. A non-empty report is posted to a
  Slack webhook, and the webhook status decides the Lambda callback.
- **The stand-alone audit script** (`extra-configs/getexpiredcredentials.js`).
  It runs the same pass with a 30-day login threshold and prints each finding
  as a console line.
- **The GuardDuty findings lambda** (`lambda-GuardDutyFindingsToSlack`). It
  buckets a finding's severity into LOW, MID, HIGH or NONE, with a colour,
  and posts a one-attachment Slack payload.

Layout, one module per file:

- `wrappers.dfy` holds `Option`.
- `decimal.dfy` renders integers the way a template literal prints an
  integral Number, and parses them back.
- `age.dfy` holds `getAgeInDays`.
- `paging.dfy` holds the `IsTruncated`/`Marker` pages and the `Chain` a
  marker-following client reads.
- `text.dfy` splits and joins text.
- `iam.dfy` holds users, keys, findings, report lines and their parser.
- `audit.dfy` holds the paging loops shared by the lambda and the script.
- `delivery.dfy` maps the webhook status to an outcome.
- `check_users.dfy` is the credential-check lambda.
- `expired_credentials.dfy` is the script.
- `guardduty.dfy` is the GuardDuty lambda.

Inputs the source takes from the world are parameters of the model:

- The IAM store is a `Store`. It holds the user listing, and one access-key
  listing per user. Each listing is a map from request marker to page; a
  request absent from the map is one the store rejects.
- The clock is one integer `now`, in milliseconds.
- The webhook's answer is a `Response`, or a rejection of the post
  (`PostRejected`).
- The account label is a string `prefix`.
- A loop that has not finished is represented by running out of `fuel`. Fuel
  bounds the requests of each paging loop.

## Model

| member | source | states |
|---|---|---|
| Decimal.IntToDecimal | lambda-CheckUsersCredentials/index.js:24 | an age prints as an optional minus sign followed by canonical digits (no leading zero) |
| Decimal.IntDecimalRoundTrip | lambda-CheckUsersCredentials/index.js:76 | parsing the printed age gives back the same integer |
| Decimal.IntToDecimalInjective | extra-configs/getexpiredcredentials.js:16 | different ages never print as the same text |
| Age.AgeInDays | lambda-CheckUsersCredentials/index.js:12-14 | age*86400000 <= now - t < (age+1)*86400000; the age is non-negative exactly when t <= now |
| Age.AgeUnique | lambda-CheckUsersCredentials/index.js:13 | those bounds determine the age: any k whose day span holds the elapsed time is the age |
| Age.AgeOfWholeDays | extra-configs/getexpiredcredentials.js:5-7 | a timestamp d whole days (plus less than a day) before now has age d |
| Age.AgeMonotone | extra-configs/getexpiredcredentials.js:6 | a later observation instant never gives a smaller age |
| Paging.ChainUnique | lambda-CheckUsersCredentials/index.js:80-81 | following markers from one request reaches one sequence of pages only |
| Iam.StaleKeys | lambda-CheckUsersCredentials/index.js:21-26 | a key yields a finding iff it is "Active" and aged 90 days or more; every finding comes from such a key; no more findings than keys |
| Iam.LoginFinding | lambda-CheckUsersCredentials/index.js:73-77 | one NoLogin finding iff PasswordLastUsed is present and its age reaches the threshold, and that finding carries the user's name and the computed age; a user without it never yields one |
| Iam.KeyLineFormat | lambda-CheckUsersCredentials/index.js:24 | a stale-key line reads `<user> AccessKey too old <key id> <status> <age>d`, shown for alice's 91-day-old active key AKIA1 |
| Iam.LoginLineFormat | lambda-CheckUsersCredentials/index.js:76 | a login line reads `<user> no login in <age> days.`, shown for bob at 80 days |
| Iam.ReportText | lambda-CheckUsersCredentials/index.js:84 | the report text is empty iff there are no findings |
| Iam.LineRoundTrip | lambda-CheckUsersCredentials/index.js:24 | a key line or login line parses back into the finding it prints, when the printed names hold no space or newline |
| Iam.ReportTextLines | lambda-CheckUsersCredentials/index.js:76 | splitting the report at newlines gives one line per finding, in order, then an empty piece |
| Iam.ReportRoundTrip | lambda-CheckUsersCredentials/index.js:67-82 | the report text determines its findings and their order |
| Audit.KeyLoop | lambda-CheckUsersCredentials/index.js:16-31 | every finding of a key scan is an active key aged 90 days or more |
| Audit.UsersScan | lambda-CheckUsersCredentials/index.js:71-79 | every finding for a page of users is reportable under the policy |
| Audit.UserLoop | lambda-CheckUsersCredentials/index.js:68-82 | every finding of the pass is reportable under the policy |
| Audit.KeyLoopReadsChain | lambda-CheckUsersCredentials/index.js:27-28 | with the marker carried, a key listing forming a chain of at most fuel pages is read completely: the stale keys of all pages, in page order |
| Audit.KeyLoopCompleteHasChain | lambda-CheckUsersCredentials/index.js:27 | a completed key scan with the marker carried read a chain of at most fuel pages |
| Audit.KeyLoopAsWrittenCompletes | lambda-CheckUsersCredentials/index.js:19-28 | as written, the key scan completes iff the first key page is not truncated; a truncated first page leaves it running at any fuel |
| Audit.KeyLoopAsWrittenRepeats | extra-configs/getexpiredcredentials.js:10-21 | as written, a truncated first key page is fetched on every request and its stale keys are reported once per request |
| Audit.UsersScanReadsChains | lambda-CheckUsersCredentials/index.js:71-79 | for users whose key listings are chains the key loop can read (any chain with the marker carried, a single page as written), the findings are each user's key findings followed by its login finding, users in order |
| Audit.UserLoopReadsChains | lambda-CheckUsersCredentials/index.js:67-82 | over a chain of user pages whose users' key listings the key loop can read (any chain with the marker carried, a single page as written), the pass completes with the reference findings: pages in request order, users in page order, key findings before the login finding |
| Audit.KeyLoopAsWrittenReadsSinglePage | lambda-CheckUsersCredentials/index.js:16-31 | as written, a key listing that is one untruncated page is read exactly as the corrected loop reads it: its stale keys, complete |
| Audit.UsersScanCompleteKeys | lambda-CheckUsersCredentials/index.js:72 | a page of users completes only if each of its users' key scans completed |
| Audit.AsWrittenNeedsSinglePageKeys | lambda-CheckUsersCredentials/index.js:19 | as written, a completed pass implies every user it listed has an untruncated first key page |
| Audit.UserLoopCompleteHasChain | lambda-CheckUsersCredentials/index.js:80-81 | a completed pass read the user listing as a chain: each request after the first used the previous page's marker and the last page was not truncated |
| Audit.UsersScanThresholdMonotone | extra-configs/getexpiredcredentials.js:33 | lowering the login threshold keeps the stop reason of a page of users and keeps every finding |
| Audit.UserLoopThresholdMonotone | lambda-CheckUsersCredentials/index.js:75 | lowering the login threshold keeps the stop reason of the pass and keeps every finding |
| Delivery.Classify | lambda-CheckUsersCredentials/index.js:87-95 | a status below 400 is posted; 400 to 499 is rejected, with a log naming the status; 500 and up is a server error, with an error text naming the status |
| Delivery.CallbackFor | lambda-CheckUsersCredentials/index.js:89-94 | the callback gets null unless the outcome is a server error; a server error passes its error text |
| Delivery.ServerErrorNamesStatus | lambda-GuardDutyFindingsToSlack/index.js:115 | the status code parses back out of a server-error text |
| Delivery.OutcomeExamples | lambda-GuardDutyFindingsToSlack/index.js:108-116 | statuses 200 and 404 give callback(null); 503 gives an error text |
| CheckUsers.SlackText | lambda-CheckUsersCredentials/index.js:86 | the posted text ends with the report and is longer than it |
| CheckUsers.HandleWith | lambda-CheckUsersCredentials/index.js:63-103 | a post happens iff the pass completed with findings, and it carries the header and the report; no findings means no callback; a rejected listing gives a serialised-error callback; an unfinished loop leaves the invocation running |
| CheckUsers.Handler | lambda-CheckUsersCredentials/index.js:63-103 | the lambda as written (80-day login threshold, key marker dropped) posts iff its pass completed with findings, posting the header and the report, and is left running iff a loop ran out of fuel; HandlerReadsChains and TwoKeyPagesAsWritten state what it does on concrete store shapes |
| CheckUsers.HandlerReadsChains | lambda-CheckUsersCredentials/index.js:63-96 | the lambda as written, on a chain of user pages whose users each have one key page, posts the header and the reference report when it is non-empty, and otherwise returns without a callback |
| CheckUsers.PostedOutcome | lambda-CheckUsersCredentials/index.js:87-95 | after a post, a status below 500 gives callback(null), 500 and up gives an error text, and a rejected post gives a serialised error |
| CheckUsers.SlackTextLines | lambda-CheckUsersCredentials/index.js:86 | the posted text splits into the header line, one line per finding, and the empty piece after the final newline |
| CheckUsers.EmptyStoreIsSilent | lambda-CheckUsersCredentials/index.js:84 | a store with no users gives no post and no callback |
| CheckUsers.AliceScan | lambda-CheckUsersCredentials/index.js:69-82 | alice, with a key 91 days old and a login 10 days ago, yields exactly the key finding, aged 91 |
| CheckUsers.AliceScenario | lambda-CheckUsersCredentials/index.js:84-86 | for that store the lambda posts the header and one key line, and the age prints as "91" |
| CheckUsers.TwoKeyPagesAsWritten | lambda-CheckUsersCredentials/index.js:19 | a user with two key pages keeps the lambda as written running at every fuel, with no post |
| CheckUsers.TwoKeyPagesScan | lambda-CheckUsersCredentials/index.js:28 | with the marker carried, two requests per loop read both key pages: the pass completes with the stale keys of both pages, first page first |
| CheckUsers.TwoKeyPagesCorrected | lambda-CheckUsersCredentials/index.js:16-31 | when both keys are stale, the corrected lambda posts both key lines, first page first |
| ExpiredCredentials.Run | extra-configs/getexpiredcredentials.js:24-42 | the script prints one line per finding, in order, with no newline; it ends normally iff the pass completed, and crashes iff a listing was rejected |
| ExpiredCredentials.LoginBoundary | extra-configs/getexpiredcredentials.js:31-35 | a last login 30 days ago is reported, 29 days ago is not, and an absent one never is |
| ExpiredCredentials.ScriptCoversLambda | extra-configs/getexpiredcredentials.js:33 | on the same store the script stops as the lambda does, and prints every finding the lambda would report |
| ExpiredCredentials.RunReadsChains | extra-configs/getexpiredcredentials.js:24-42 | as written, on a chain of user pages whose users each have one key page, the script prints one line per reference finding, in order, and finishes |
| ExpiredCredentials.TruncatedKeysRepeatLines | extra-configs/getexpiredcredentials.js:10-21 | when the first listed user's first key page is truncated, the script prints that page's key lines once per request and never finishes |
| GuardDuty.Classify | lambda-GuardDutyFindingsToSlack/index.js:43-58 | LOW iff severity is in [0, 3.9]; MID iff in [4, 6.9]; HIGH iff in [7, 8.9]; otherwise NONE. Colour is orange iff MID, red iff HIGH, else the default blue |
| GuardDuty.ClassifyMonotone | lambda-GuardDutyFindingsToSlack/index.js:45-58 | among classified severities, a higher severity never gets a lower label |
| GuardDuty.ClassifyGaps | lambda-GuardDutyFindingsToSlack/index.js:43-44 | 3.95, 6.95, 9.0, -0.5 and a missing severity all keep NONE and the default colour |
| GuardDuty.BuildPayload | lambda-GuardDutyFindingsToSlack/index.js:60-105 | the payload has one attachment and username GuardShield; the attachment's colour and its "Severity" field come from the classification; "AccountId" and "Region" carry the event's values |
| GuardDuty.Handle | lambda-GuardDutyFindingsToSlack/index.js:107-117 | the handler always posts the built payload; the callback is null iff the status is below 500, otherwise an error text |

## Findings

| source | as written | input that shows it | evidently intended | confidence | as-written member | corrected member |
|---|---|---|---|---|---|---|
| lambda-CheckUsersCredentials/index.js:19 | `params` is rebuilt at the top of each iteration of the key loop, so the `Marker` stored at line 28 is lost and the next request asks for the first page again | a user whose first `listAccessKeys` page has `IsTruncated` true: the loop requests that page forever and the lambda never posts | each request after the first carries the previous page's `Marker`, as the user loop at lines 68 and 81 does | high (not executed) | CheckUsers.TwoKeyPagesAsWritten | CheckUsers.TwoKeyPagesCorrected |
| extra-configs/getexpiredcredentials.js:11 | the same rebuilt `params` in the script's key loop | the same truncated first key page: the script prints that page's key lines again and again | carry the `Marker` forward | high (not executed) | Audit.KeyLoopAsWrittenRepeats | Audit.KeyLoopReadsChain |

One `Audit.KeyLoop` models both loops. `DiscardMarker` is the loop as
written; `CarryMarker` is the corrected loop. `CheckUsers.Handler` and
`ExpiredCredentials.Run` use the code as written; `CheckUsers.CorrectedHandler`
uses the corrected loop. The chain theorems (`Audit.UserLoopReadsChains`)
cover both: any key chain with the marker carried, single-page key chains as
written (`CheckUsers.HandlerReadsChains`, `ExpiredCredentials.RunReadsChains`).

Facts about the code that shape the model:

- The rotation threshold is the constant 90 in both files; it is not
  configurable.
- The login threshold is 80 in the lambda and 30 in the script. It is a
  `Policy` field with those two constants.
- The key loop does not follow the markers. This is the first Findings row.
- The login line reads `<user> no login in <age> days.`
- In the lambda, a listing failure of any page, for users or keys, aborts the
  pass; the script model, read sequentially, does the same.

## Left out

- HTTPS posting (`postMessage`) is not modelled. Only its result is an input:
  a `Response` with status code and message, or `PostRejected`. The promise
  `postMessage` returns is rejected on an error on the response stream
  (lambda-CheckUsersCredentials/index.js:47) and on a throw inside its
  executor, such as `url.parse` of an unset webhook path (:36) or
  `https.request` on a URL that is not https (:43); every rejection ends in
  the same serialised-error callback. The response body and headers are not
  modelled.
- A request-level error of the webhook call (connection refused, DNS, TLS)
  is not modelled. It is emitted on the request object, which has no error
  listener (lambda-CheckUsersCredentials/index.js:43-59), so it escapes the
  handler's try/catch and the invocation ends without calling the callback.
- The AWS SDK calls (`iam.listUsers`, `iam.listAccessKeys`) are replaced by
  `Listing` maps. Every SDK rejection becomes `ListFailed`. Its JSON
  serialisation is the opaque `SerializedError`.
- `Date.now()` and `Date.parse`: timestamps are integer milliseconds, and
  there is one `now` per pass. The source reads the clock again at each age
  computation.
- Age.AgeInDays: uses exact integer floor division. The source floors a
  double quotient, which agrees for every elapsed time below 2^53 ms.
- Decimal.IntToDecimal: does not model the exponent notation JavaScript uses
  for integers of magnitude 10^21 and up. Ages and status codes never reach
  that size.
- The script's un-awaited `processAccessKeysForUser` call
  (extra-configs/getexpiredcredentials.js:30) is modelled as if each call
  completed in sequence. Interleaving of console output is not modelled, and
  neither are rejections that no one handles.
- Fuel: `OutOfFuel` and the `Running` and `StillRunning` outcomes stand for
  a loop still going when its request budget ran out. A Lambda timeout is
  not modelled separately.
- Console logging is not modelled, except the 4xx log text kept in
  `Delivery.Rejected`. `console.log(msg)` and the event dumps are not
  modelled.
- Environment variables: `SLACK_PREFIX` is the `prefix` parameter, and the
  webhook path is not modelled.
- GuardDuty event shape: the event is a typed record whose fields are
  always present. A malformed event, which makes the source throw and
  report `JSON.stringify(error)`, is not modelled. `additionalInfo` is taken
  as JSON text that is already serialised. A JSON `null` severity is not
  modelled either: `null` passes both comparisons of the first case
  (lambda-GuardDutyFindingsToSlack/index.js:46) as 0 would, so the source
  labels it LOW, while `Option<real>` has only numbers and a value every
  comparison rejects.
- GuardDuty.Handle: does not model a throw while the GuardDuty lambda builds
  its request: `url.parse` of an unset webhook path
  (lambda-GuardDutyFindingsToSlack/index.js:11) or `https.request` on a URL
  that is not https (:18) throws inside the handler's `try`, which ends in
  `callback(JSON.stringify(error))` (:119-121); the model always gives the
  callback the status decides.
- Transport errors of the GuardDuty webhook call are not modelled. Its
  `postMessage` (lambda-GuardDutyFindingsToSlack/index.js:18-35) listens for
  errors on neither the request nor the response, so such an error ends the
  invocation without a callback, while `GuardDuty.Handle` always yields one.
- GuardDuty.Classify: reads a severity as the decimal written in the event,
  not as the exact value of the double it parses to. The doubles for 6.9 and
  8.9 lie slightly above those decimals; read exactly, they would fall in the
  gaps of the model, while the source, comparing doubles, gives MID and HIGH.
- GuardDuty.BuildPayload: states the attachment count, username, colour and
  the Severity, AccountId and Region fields. It does not state the fallback,
  title and text strings, which are plain interpolations.
- lambda-SecurityCloudTrailAlarm/index.js is not modelled: it parses an SNS
  message with `JSON.parse` and makes a raw HTTPS call.
- The CDK stack and alarm declarations, their test, and the one-call scripts
  (adjustpasswordpolicy.js, addsecurityhubtoslackaction.js) are not
  modelled. They are configuration, not behaviour.
