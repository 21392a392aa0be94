# Cognivus back end: the decision and transformation logic

Cognivus is a course-management back end: an Express application over a hosted
Postgres database and object store, with a payment gateway for checkout. Most of
the back end is single-query CRUD glue. This project models the parts that hold
logic of their own and proves what they promise. The database, the object store,
the payment gateway, SHA-512, the geo database, the clock and the random source
are all parameters of the model.

- **Payload filters** (`Payload`). Each entity has an allow-list of fields, and
  every filter is one left fold over that list. A field is copied when its value
  is defined, and the exact empty string is turned into `null`. Proved: every
  kept key is allowed and defined; a value is changed only when it is `''`;
  filtering twice changes nothing; the result depends only on the set of listed
  fields, so the grade list's duplicate entries do no harm; an omitted body
  defaults to `{}`; a `null` body throws.
- **Access decision** (`AuthorizeUser`). Teachers and admins continue; a caller
  whose id is `===` the target continues; a student reaching for someone else
  gets the "own data" 403; anyone else gets the plain 403. The target id is
  `params.id || query.id`, with JavaScript falsiness.
- **Webhook signature gate** (`MidtransSignature`). A notification passes exactly
  when its `signature_key` equals the hex SHA-512 digest (FIPS 180-4) of
  `order_id + status_code + gross_amount + serverKey`. The model includes
  JavaScript's `+` on `undefined`: the text "undefined" is concatenated, and
  when all four parts are missing the result is `NaN`, which the hash refuses.
- **Payment controller** (`PaymentController`). `generate` mints the order id
  `"ORDER-" + now`, builds the gateway parameter from the body and returns the
  gateway's redirect URL and token. `webhook` echoes `status`, unless its
  logging line throws on a body with its own `toString` key, which gives the
  500. Order ids are read back into their clock values, so distinct clock
  values give distinct order ids.
- **Recent activity** (`Dashboard`). The three `forEach`/`push` loops are a
  method with loop invariants. The sort and the cut to ten are functions.
  Proved: the response is newest first, holds at most ten activities, and draws
  each activity from the built ones. When ten or fewer are built, it is a
  permutation of them. No activity left out is newer than one kept. The first
  failing query gives the 500.
- **Report files** (`Reports`). A class holds the report table and the object
  store. `createOrReplace`, `create` and `delete` are methods whose contracts
  state the whole new state, for every combination of external failures.
  `createOrReplace` deletes the old file before it uploads the new one. So when
  the upload fails, the grade's row still names a file that is gone
  (`FailedUploadOrphansRow`).
- **Storage helper** (`Storage`). Modelled: which body and options `upload`
  sends; `delete` wrapping a single path into an array; the defaults (bucket
  `courses`, expiry 6000). The effect on stored objects is given by `Uploaded`
  and `Removed`.
- **Google sign-in** (`UserModel`). A class holds the user table.
  `findOrCreate` returns the linked user. Otherwise it inserts a role-1 user
  whose username is the lower-cased given name followed by the lower-cased
  family name.
- **E-mail templates** (`EmailTemplate`). The substitution loop over
  `{{ key }}` placeholders is a method. The global regular-expression replace
  is modelled as a left-to-right matcher, proved to recognise exactly the
  padded placeholders for the key.
- **One-time passwords** (`Otp`). The random draw is a parameter; the password
  has exactly `len` digits and no leading zero.

Shared modules: `Wrappers` (Option, Result) and `JsText`. `JsText` holds the
JSON primitive values and the way `String()` renders them, including decimal
rendering with its parse-back partner.

## Model

| member | source | states |
|---|---|---|
| JsText.Decimal | src/utils/otp.js:6 | `String(n)` of a natural number is a non-empty run of digits that starts with '0' only for 0 |
| JsText.ParseDecimalOfDecimal | src/controllers/payment.js:6 | reading the decimal rendering back gives the number again |
| JsText.DecimalInjective | src/controllers/payment.js:6 | two numbers render alike only when they are equal |
| JsText.DecimalLength | src/utils/otp.js:4-6 | a number in [10^(len-1), 10^len) renders as exactly len characters |
| Payload.AllowedFields | src/helper/payload.js:2-225 | the thirteen allow-lists exactly as the source writes them, in order and with the grade list's repetitions; the filter lemmas below are stated over them |
| JsText.Text | src/controllers/dashboard.js:73 | a template literal renders a string as itself and an integer in decimal, with a minus sign when negative |
| Payload.Normalize | src/helper/payload.js:18 | the stored value is null exactly for `''` (or null itself); every other value, whitespace-only strings included, is kept |
| Payload.Fold | src/helper/payload.js:16-21 | the fold adds exactly the listed fields that the body defines, each with its normalised value, and keeps the rest of the accumulator |
| Payload.Filter | src/helper/payload.js:16-21 | the payload's keys are exactly the allowed fields that the body defines, with normalised values |
| Payload.FilterRequest | src/helper/payload.js:2 | an omitted body gives `{}`; a `null` body throws a TypeError; an object body gives its filtered payload |
| Payload.FilterCharacterized | src/helper/payload.js:17-18 | a key is in the payload if and only if it is allowed and defined, and then its value is the normalised body value |
| Payload.FilterIdempotent | src/helper/payload.js:16-21 | filtering the payload again gives the same payload |
| Payload.FilterDependsOnFieldSet | src/helper/payload.js:16-21 | two field lists with the same members give the same payload, whatever their order and repetitions |
| Payload.GradeDuplicatesHarmless | src/helper/payload.js:157-178 | the grade list has 11 entries but 9 distinct fields, and filters exactly as the de-duplicated list does |
| Payload.NoUnlistedKeyLeaks | src/helper/payload.js:16-21 | a key outside an entity's list never reaches its payload |
| AuthorizeUser.TargetId | src/middleware/users.js:3 | the target is the route id unless it is missing or empty, and then the query id |
| AuthorizeUser.Authorize | src/middleware/users.js:1-21 | continue if and only if the role is teacher or admin or the ids are `===`; the "own data" 403 if and only if a student targets another id; the plain 403 if and only if any other role targets another id |
| MidtransSignature.Plus | src/middleware/midtrans.js:14 | `+` gives a string exactly when either side is a string, and then it is the two sides' texts joined, an undefined side rendered as "undefined"; two non-strings give NaN |
| MidtransSignature.Raw | src/middleware/midtrans.js:14 | the raw text is NaN if and only if all four parts are undefined, never undefined itself, and the plain concatenation when all four are present |
| MidtransSignature.Verify | src/middleware/midtrans.js:4-25 | pass if and only if the raw text is a string whose digest equals `signature_key`; with all four parts present, pass if and only if `signature_key` is the digest of order_id, status_code, gross_amount and serverKey joined in that order; a mismatch is the 403 body; the hash throws if and only if all four parts are missing |
| RegionLimit.FirstField | src/middleware/region_limit.js:4 | `split(',')[0]` is the longest comma-free prefix of the header |
| RegionLimit.ClientIp | src/middleware/region_limit.js:4 | the address is the header's first field unless the header is absent or that field is empty, and then the socket's address |
| RegionLimit.RestrictRegion | src/middleware/region_limit.js:3-17 | continue if and only if the address is `::1` or `127.0.0.1` or the geo lookup says country `ID`; otherwise the single restriction 403 |
| RegionLimit.FirstFieldOfJoin | src/middleware/region_limit.js:4 | the first field of `a + "," + rest` is `a` when `a` has no comma |
| RegionLimit.ForwardedChainUsesFirstHop | src/middleware/region_limit.js:4 | a proxy chain `client, hop, ...` is attributed to the client |
| PaymentController.OrderId | src/controllers/payment.js:6 | the order id is `ORDER-` followed by the decimal digits of the clock value |
| PaymentController.OrderIdRoundTrip | src/controllers/payment.js:6 | reading an order id back gives the clock value it was minted from |
| PaymentController.OrderIdInjective | src/controllers/payment.js:6 | distinct clock values give distinct order ids |
| PaymentController.TransactionRequest | src/controllers/payment.js:5-16 | the gateway parameter carries the minted id and the body's amount, and copies the body's name to first_name and its email to email |
| PaymentController.Generate | src/controllers/payment.js:3-34 | 200 if and only if the gateway accepts, with its redirect_url and token unchanged; otherwise 500 with success false and the gateway's error |
| PaymentController.RawTextThrows | src/controllers/payment.js:39 | `'raw: ' + notification` throws exactly when the body has its own `toString` key |
| PaymentController.Webhook | src/controllers/payment.js:36-55 | 200 if and only if the logging line does not throw, and then `status` is present exactly when the notification has one, with the same value; otherwise the 500 body with `midtrans webhook error` |
| Otp.Length | src/utils/otp.js:3 | an omitted length is 6 and a given one is used as is |
| Otp.DrawRange | src/utils/otp.js:4-6 | for a length of at least one the draw ranges over `max - min + 1` values, with `max = 10^len - 1` and `min = 10^(len-1)`; for length 0 over one value |
| Otp.Generate | src/utils/otp.js:3-7 | for length len >= 1 (6 when omitted) the password has exactly len digits, none of them a leading '0', and lies in [10^(len-1), 10^len); length 0 gives "0.1" |
| Otp.GenerateInjective | src/utils/otp.js:6 | different draws give different passwords |
| Storage.Bucket | src/middleware/storage.js:4-6 | an omitted bucket is `courses`; a given one is used as is |
| Storage.UploadRequest | src/middleware/storage.js:6-13 | upsert is always on; contentType is set exactly when a file object has a mimetype; a file object with a `buffer` key sends what that key holds, bytes or a null or undefined value; a raw Buffer sends its ArrayBuffer; a missing file or a file object without a `buffer` key is sent itself |
| Storage.Upload | src/middleware/storage.js:6-17 | the store's error is re-thrown; otherwise the result is the path and the bucket used |
| Storage.RemoveRequest | src/middleware/storage.js:19-22 | a single path is wrapped into a one-element array and a list is passed through, in the resolved bucket |
| Storage.Delete | src/middleware/storage.js:19-25 | true when the store reports no error, and the store's error otherwise |
| Storage.SignedUrlRequest | src/middleware/storage.js:27-28 | an omitted expiry is 6000 and an omitted bucket is `courses` |
| Storage.GetSignedUrl | src/middleware/storage.js:27-31 | the signed URL, or the error, that the store gives for the path with the default expiry and bucket filled in |
| Storage.GetPublicUrl | src/middleware/storage.js:33-39 | the public URL, or the error, that the store gives for the path in the resolved bucket |
| Storage.Uploaded | src/middleware/storage.js:9-13 | an upsert upload stores its body at its bucket and path and changes no other object |
| Storage.Removed | src/middleware/storage.js:22 | a removal deletes exactly the listed paths of its bucket |
| Storage.RemoveOnePath | src/middleware/storage.js:19-22 | deleting a single path removes exactly that one object |
| Storage.UploadThenDelete | src/middleware/storage.js:6-25 | an upload followed by a delete of the same path leaves nothing at that path and every other object unchanged |
| Reports.HasBuffer | src/models/reports.js:6 | the guard `!file || !file.buffer` lets a call through exactly when the file is present and carries its buffer; `create` repeats it (line 76) |
| Reports.HasOldFile | src/models/reports.js:36 | the old file is deleted exactly when the grade's first row exists and names a non-empty path |
| Reports.ReportUpload | src/models/reports.js:40 | the upload that `createOrReplace` and `create` (line 80) issue goes to the resolved bucket under the new path; since `file.buffer` is a raw Buffer, the store receives its ArrayBuffer, with no contentType and upsert on |
| Reports.UrlKey | src/models/reports.js:41 | the public URL is asked for the new path in the resolved bucket; `create` does the same (line 81) |
| Reports.ReportPath | src/models/reports.js:39 | the path `studentid/test_type_now`, with the ids rendered as in a template literal; `create` builds the same one (line 79) |
| Reports.ReportPathInjective | src/models/reports.js:39 | for the same report data, distinct clock values give distinct paths |
| Reports.Matching | src/models/reports.js:14-17 | the grade's rows are exactly the table rows with that gradeid; the first of them is the first such row of the table |
| Reports.MatchingAppend | src/models/reports.js:14-17 | the query keeps table order: the grade's rows of two tables joined are those of the first followed by those of the second |
| Reports.WithFile | src/models/reports.js:61-68 | every row of the grade gets the new path and url and every other row stays as it was |
| Reports.InsertedPointsToNewFile | src/models/reports.js:43-57 | when the grade had no row, the inserted row names the new file and no other row changes |
| Reports.UpdatedKeepsGrade | src/models/reports.js:61-68 | an update leaves the grade with at least one row |
| Reports.UpdatedKeepsOthers | src/models/reports.js:61-68 | an update keeps every row of other grades |
| Reports.UpdatedRowsFromTable | src/models/reports.js:61-68 | after an update the grade's rows name the new file and every other row was in the table before |
| Reports.UpdatedPointsToNewFile | src/models/reports.js:59-72 | when the grade had rows, after the update all of them name the new file and other rows are untouched |
| Reports.Replaced | src/models/reports.js:43-72 | the table after a successful write: the new row appended when the grade had none, otherwise every row of the grade updated |
| Reports.ReplacedPointsToNewFile | src/models/reports.js:43-72 | after a replace the grade has a row, all its rows name the new file, and rows of other grades are exactly those before |
| Reports.Cleared | src/models/reports.js:36 | when the grade's first row names a file, exactly that object of the bucket is removed; otherwise the store is unchanged |
| Reports.FailedUploadOrphansRow | src/models/reports.js:36-40 | once the old file is deleted, it is gone from the store although the grade's row still names it; a failed upload leaves that row dangling |
| Reports.ReportStore.CreateOrReplace | src/models/reports.js:5-73 | each fault gives its own error, in call order: missing buffer, lookup, removal of the old file (only when there is one), upload, public URL, write; a missing buffer, a failed lookup or a failed removal leaves the store unchanged; a failed upload leaves it with the old file removed; later failures leave the new file uploaded; failure leaves the table alone; success replaces or inserts as `Replaced` describes and returns the written row; success happens if and only if no call that is made fails |
| Reports.ReportStore.Create | src/models/reports.js:75-97 | a missing buffer fails before any change; a failed upload fails with the store unchanged; otherwise the file is uploaded under the new path, and a failed public URL or write gives its own error; failure leaves the table alone; success appends exactly one row for the grade (duplicates allowed) and returns it |
| Reports.ReportStore.Delete | src/models/reports.js:99-108 | a missing or empty path fails before any change; otherwise exactly that object of the bucket is removed, and the table never changes |
| UserModel.Lower | src/models/user.js:23 | `toLowerCase` on ASCII text: the capitals A-Z become small letters and every other character is kept (non-ASCII capitals: see "## Left out") |
| UserModel.LowerIsLower | src/models/user.js:23 | a lowered name has no capital and lowering again changes nothing |
| UserModel.Username | src/models/user.js:23 | the username is the lowered given name followed by the lowered family name, and has no capital |
| UserModel.FindByGoogleId | src/models/user.js:7-11 | the lookup finds a row linked to the Google id if and only if the table has one |
| UserModel.UserTable.FindOrCreate | src/models/user.js:5-45 | a failed lookup fails; a linked user is returned with the table unchanged; otherwise the new user with the profile's id, its first e-mail and role 1 is appended and returned, and a failed insert or a missing e-mail leaves the table unchanged |
| UserModel.FindAppended | src/models/user.js:7-11 | a row appended for an id that had none is the one the lookup finds |
| UserModel.SecondSignInFindsUser | src/models/user.js:7-44 | after a sign-in has created the user, the next sign-in with the same profile finds that user |
| EmailTemplate.SpaceRun | src/helper/email_template/loader.js:12 | `\s*` takes the longest whitespace prefix |
| EmailTemplate.AfterSpace | src/helper/email_template/loader.js:12 | what follows the whitespace run does not start with whitespace |
| EmailTemplate.AfterPlaceholder | src/helper/email_template/loader.js:12 | a recognised placeholder is at least four characters long |
| EmailTemplate.ReplaceAll | src/helper/email_template/loader.js:13 | the global replace: scan left to right, substitute each recognised placeholder and resume after it, copy every other character; its steps are the two lemmas below |
| EmailTemplate.ReplaceAllCopies | src/helper/email_template/loader.js:13 | where no placeholder starts, the character is copied and the scan moves on by one |
| EmailTemplate.ReplaceAllSubstitutes | src/helper/email_template/loader.js:13 | a recognised placeholder is replaced by the value and the scan resumes after it |
| EmailTemplate.ApplyAll | src/helper/email_template/loader.js:11-14 | the variables' global replaces applied one after another in iteration order |
| EmailTemplate.Append | src/helper/email_template/loader.js:4-17 | the result applies the variables one after another in iteration order; with no variables it is the template |
| EmailTemplate.SpaceRunOfPadded | src/helper/email_template/loader.js:12 | `\s*` consumes exactly a given run of whitespace padding |
| EmailTemplate.MatchSteps | src/helper/email_template/loader.js:12 | braces, padding, the key, padding and braces in sequence make a match |
| EmailTemplate.RecognisedNoKey | src/helper/email_template/loader.js:12 | for the empty key, two braces, any whitespace and two braces match |
| EmailTemplate.RecognisedKey | src/helper/email_template/loader.js:12 | for a key, the padded placeholder matches and the scan resumes right after it |
| EmailTemplate.PlaceholderRecognised | src/helper/email_template/loader.js:12 | a placeholder for the key, however padded, is recognised |
| EmailTemplate.PlaceholderReplaced | src/helper/email_template/loader.js:12-13 | a placeholder for the key, however padded, is replaced by the value |
| EmailTemplate.RecognisedIsPlaceholder | src/helper/email_template/loader.js:12 | whatever the matcher recognises is `{{`, a whitespace run, the key, a whitespace run and `}}`: together with PlaceholderRecognised, the matcher finds exactly the regular expression's matches |
| EmailTemplate.LiteralKept | src/helper/email_template/loader.js:13 | text without `{` passes through unchanged |
| EmailTemplate.Template | src/helper/email_template/loader.js:12 | brace-free pieces with a placeholder for the key, each with its own padding, between consecutive pieces |
| EmailTemplate.EveryPlaceholderFilled | src/helper/email_template/loader.js:12-13 | a template made of brace-free pieces joined by placeholders for the key, each padded as it likes, becomes those pieces joined by the value: every occurrence is replaced |
| EmailTemplate.OtherPlaceholderNotMatched | src/helper/email_template/loader.js:12 | a placeholder for another key, however padded, does not match |
| EmailTemplate.UnmatchedCopied | src/helper/email_template/loader.js:13 | a character where no match starts is copied |
| EmailTemplate.PlaceholderShape | src/helper/email_template/loader.js:12 | a padded placeholder is two braces followed by text that neither starts with nor holds a `{` |
| EmailTemplate.OtherPlaceholderKept | src/helper/email_template/loader.js:12-13 | a placeholder for another key, however padded, is left as it is and the scan goes on after it |
| EmailTemplate.UnknownPlaceholderSurvives | src/helper/email_template/loader.js:11-14 | a placeholder, however padded, whose key is not among the variables survives `append` at the head of the text or after any brace-free text, which is kept too; the text after it is filled as if the placeholder were not there |
| EmailTemplate.LaterKeySeesEarlierValues | src/helper/email_template/loader.js:11-14 | a later key also fills a placeholder that an earlier value brought in |
| Dashboard.StudentActivity | src/controllers/dashboard.js:42-49 | a student becomes a `student_registration` record, "fullname registered", at its `created_at`, icon user, colour blue |
| Dashboard.LecturerActivity | src/controllers/dashboard.js:56-63 | a lecturer becomes a `lecturer_registration` record, "fullname registered", at its user's `created_at`, icon teacher, colour green |
| Dashboard.GradeActivity | src/controllers/dashboard.js:70-77 | a grade becomes a `grade_submitted` record, "fullname scored final_score", at its `date_taken`, icon grade, colour yellow |
| Dashboard.Built | src/controllers/dashboard.js:37-79 | every activity the loops push: the students', then the lecturers', then the grades', each in query order |
| Dashboard.BuildActivities | src/controllers/dashboard.js:37-79 | students, then lecturers, then grades, each in query order, each mapped to its activity record with its own type, text, timestamp, icon and colour; a null query result adds nothing |
| Dashboard.Insert | src/controllers/dashboard.js:83 | inserting into a newest-first list keeps it newest first and adds exactly that activity |
| Dashboard.SortNewestFirst | src/controllers/dashboard.js:83 | the sort is newest first and a permutation of its input |
| Dashboard.Recent | src/controllers/dashboard.js:82-84 | the data is newest first, has min(n, 10) activities, takes each from the input, and is a permutation of the input when n <= 10 |
| Dashboard.RecentKeepsNewest | src/controllers/dashboard.js:82-84 | no activity cut off by the top ten is newer than an activity kept |
| Dashboard.GetRecentActivity | src/controllers/dashboard.js:7-98 | 500 if and only if a query fails, with the first failing query's message; otherwise success with exactly `Recent` of the built activities: at most ten, newest first, drawn from the built ones, all of them when ten or fewer were built, and none cut off newer than one kept |

## Left out

- Network and database I/O: the Postgres queries, the object store, the payment gateway and the geo database. Their answers are parameters, except the rows an insert or update sends back, which are taken to be the rows written (see the Reports and UserModel lines). Their failures are boolean fault flags or error results.
- `console.log` and `console.error` calls, and the template file read (`fs.readFileSync`): I/O only. The template text is an input.
- SHA-512, `Date.now` and `Math.random`: the digest is a function parameter, the clock a natural number and the draw an integer. The floating-point arithmetic of `Math.random` is not modelled.
- `otp.hash` and `otp.verify`: bcrypt calls into a foreign library.
- Numbers are integers. Dashboard timestamps are integer instants: date-string parsing and invalid dates (NaN) are left out.
- MidtransSignature.Verify: webhook fields are strings or absent. Numbers or objects in the JSON body, which `+` would render differently, are left out. So is the routing (the middleware is not mounted on the payment routes).
- PaymentController.Webhook: the body is a parsed JSON object. An array body, a missing body, and a `status` that is not a JSON primitive are left out. The thrown error object is given by its name.
- PaymentController.Generate: the gateway's thrown error object is modelled as a string. `generate` returns no `orderid`, and src/controllers/payment.js has no payment table, status mapping, pending-payment reuse or refresh, so none is modelled.
- AuthorizeUser.Authorize: a request without `req.user` (a TypeError before any decision) is left out. Route and query ids are strings or absent.
- Payload.FilterRequest: body values are JSON primitives. Nested objects and arrays would be copied unchanged just the same.
- Dashboard.SortNewestFirst: ties keep their input order (a stable sort, as JavaScript's `sort` is). The contract states only order and permutation, not stability.
- Dashboard.GetRecentActivity: the `limit(5)` of each query is the database's business. The model takes whatever rows the queries return.
- Reports: the table is a sequence of rows rather than a map by gradeid, because `create` can insert a second row for a grade. `.single()` on an update that touches several rows, or none, is not modelled as an error. Every row of the grade is updated and the first matching row, updated, is returned. The shapes of a mocked query result (lines 18-28) are reduced to rows or an error.
- Reports.ReportStore.CreateOrReplace: the database's answer to insert and update is the written row, as the model builds it. Generated columns are left out.
- Reports.ReportData: the report fields are always present values; a missing `gradeid`, `studentid` or `test_type` (JavaScript `undefined`, which a template literal renders as "undefined", giving paths like `undefined/undefined_<now>`) is left out, because the query `.eq('gradeid', undefined)` it would then issue is not modelled.
- Reports.ReportStore.Delete: the source hands `remove` the bare path string, not the one-element array the storage helper builds. The model assumes the store then removes exactly that object.
- Otp.Generate: lengths are natural numbers. Negative lengths, for which the source gives fractions such as "0.01" for -1, are left out. The digit count also assumes the value is an exact double rendered without an exponent, which holds up to 15 digits; for longer lengths the source's floating-point arithmetic and exponent notation are not modelled.
- Storage: the store's own path validation and response shape are left out. What it is called with, and its effect on the stored objects, is modelled.
- UserModel.Lower: the source's `toLowerCase` also lowers non-ASCII capitals such as 'É' or 'Σ'; the model lowers only A-Z and keeps every other character, because Unicode case mapping is not modelled.
- UserModel: a profile without `given_name` or `family_name` (a TypeError) is left out. `.single()` finding no row is modelled as no user, not as an error.
- UserModel.UserTable.FindOrCreate: the database's answer to `.insert(..).select(select).single()` is taken to be the row the model builds and appends; generated columns such as the user id are left out.
- UserModel.FindByGoogleId: when two rows are linked to the same Google id, `.single()` reports an error; the model returns the first of them instead.
- EmailTemplate: keys are letters, digits and `_`, and values contain no `$`. Keys with regular-expression metacharacters and `$` replacement patterns are left out. Under that restriction the matcher is the regular expression's. The `for...in` iteration order over the variables object is given as the order of the sequence.

