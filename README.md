# LinuxDiary 5.0 registration backend: user controller model

A Dafny model of the user controller of the LinuxDiary 5.0 event backend
(`src/controllers/user.go`). The controller has three parts with decision logic:

- **Required-field validation** (`ValidateUserInput`). It checks eight required form fields
  in a fixed order and reports the first one that is the empty string.
- **The registration handler** (`CreateUser`, with `GetUserInfo`). It reads the payment
  image, uploads it, reads the form, validates the record, stores it and schedules a
  confirmation e-mail. Each step can end the request early.
- **The referral leaderboard** (`GetReferralLeaderboard`). It counts the registrations per
  non-empty referral code and sorts the counts from highest to lowest.

Modules:

- `Wrappers` (`wrappers.dfy`): `Option` and `Result`, standing for Go's nil values and
  `(value, error)` returns.
- `Models` (`models.dfy`): the `UserInput` form record, the `Response` reply and the
  `ReferralScore` leaderboard row.
- `UserValidation` (`validation.dfy`): `ValidateUserInput`, written as the source's chain
  of early returns. It is checked against an independent table, `RequiredFields`, that
  lists the (field name, value) pairs in check order.
- `Registration` (`registration.dfy`): `GetUserInfo` and the handler as a method. The
  collaborators are inputs: the file lookup, the image upload, the form parse and the store
  insert each appear as an abstract outcome (`Collaborators`). The method returns the
  outcome (a `Response` with Go's returned error, or a `Panic`) and the trace of steps it
  took (`Step`). The e-mail goroutine appears in the trace as `ScheduleEmail` and nowhere
  else.
- `ReferralLeaderboard` (`leaderboard.dfy`): the handler's three stages as methods.
  `CountReferrals` fills a `map<string, int>` in a loop. `Flatten` turns the map into rows
  by walking its keys in an unspecified order, as Go's map iteration does.
  `SortByScoreDesc` is an in-place insertion sort on an `array`. The specification
  `IsLeaderboardOf` says the result is sorted by score, highest first, and is a
  permutation of the counted (code, count) pairs. It fixes no order among equal scores,
  because `sort.Slice` is not stable and the input order is random.

A failed form parse panics instead of replying "Error getting user info" (see Findings).
The leaderboard has no deterministic order among equal scores.

## Model

| member | source | states |
|---|---|---|
| `UserValidation.ValidateUserInput` | src/controllers/user.go:125-151 | the form is accepted exactly when the returned message is empty |
| `UserValidation.AcceptsExactlyComplete` | src/controllers/user.go:125-150 | validation accepts exactly when all eight required fields (Name, Email, Phone, TransactionId, CollegeName, YearOfStudy, Branch, PaymentImg) are non-empty; on rejection a first empty field exists |
| `UserValidation.ValidateReportsFirstMissing` | src/controllers/user.go:126-149 | when field k is the first empty one in check order, the result is (false, "<field> is required") for that field |
| `UserValidation.OptionalFieldsIgnored` | src/controllers/user.go:125-151 | changing `isDualBooted` or `referralCode` never changes the validation result |
| `UserValidation.MissingTransactionId` | src/controllers/user.go:135-137 | a form whose only empty field is TransactionId gives exactly (false, "TransactionId is required") |
| `Registration.GetUserInfo` | src/controllers/user.go:102-123 | a failed parse gives the parser's error and no record; otherwise `isDualBooted` is true exactly when the submitted value is the literal "true", and the payment image is left empty |
| `Registration.RecordIgnoresFormImage` | src/controllers/user.go:43-44 | the stored record's payment image is the uploaded URL; a form value under "paymentImg" has no effect on the record |
| `Registration.RecordValidIff` | src/controllers/user.go:43-53 | the record built from the form and the upload passes validation exactly when the seven required text fields were submitted non-empty and the upload URL is non-empty |
| `Registration.ValidateAndPersist` | src/controllers/user.go:51-70 | a failed validation returns its message and never calls the store. A store error returns "Error creating user" with the error text. A successful insert returns "User created successfully" with the id, and only then is the e-mail scheduled; the e-mail plays no part in the response |
| `Registration.CreateUser` | src/controllers/user.go:27-72 | steps run in pipeline order, none repeated. A missing file returns "Error uploading file" with the lookup error. A failed upload returns "Error uploading file" with no error. In both cases nothing is validated or stored. A failed parse after a successful upload panics. Otherwise the record (form fields plus uploaded URL) is validated and stored as `ValidateAndPersist` states |
| `Registration.CreateUserCorrected` | src/controllers/user.go:43-49 | same as `CreateUser`, except that it never panics: a failed parse returns "Error getting user info" with the parser's error, and nothing is validated or stored |
| `ReferralLeaderboard.OccurrencesPositive` | src/controllers/user.go:501-505 | a non-empty code has a positive count exactly when some user carries it |
| `ReferralLeaderboard.CountReferrals` | src/controllers/user.go:501-505 | the map's keys are exactly the non-empty referral codes of the users, and each maps to the number of users carrying it |
| `ReferralLeaderboard.Flatten` | src/controllers/user.go:507-511 | the rows are the map's (code, count) entries, each exactly once, in some order |
| `ReferralLeaderboard.InsertRow` | src/controllers/user.go:513-515 | one insertion step extends the sorted prefix by one row, keeps the rows a permutation and leaves the rows after position i unchanged |
| `ReferralLeaderboard.SortByScoreDesc` | src/controllers/user.go:513-515 | the array ends sorted by score, highest first, and is a permutation of the input |
| `ReferralLeaderboard.GetReferralLeaderboard` | src/controllers/user.go:492-517 | a store error is returned unchanged with no rows; otherwise the rows are sorted by score, highest first, and are a permutation of the counted (code, count) pairs |
| `ReferralLeaderboard.LeaderboardRows` | src/controllers/user.go:501-511 | every row's code is a non-empty code some user carries, and its score is the number of users carrying it, so no score is 0 |
| `ReferralLeaderboard.LeaderboardCodesUnique` | src/controllers/user.go:501-511 | no two rows share a referral code |
| `ReferralLeaderboard.LeaderboardCodes` | src/controllers/user.go:501-511 | the rows name exactly the non-empty referral codes used by the users |
| `ReferralLeaderboard.LeaderboardScoreSum` | src/controllers/user.go:501-511 | the scores add up to the number of users with a non-empty referral code |
| `ReferralLeaderboard.LeaderboardOfNoReferrals` | src/controllers/user.go:501-516 | with no users, or none with a referral code, the leaderboard is empty |
| `ReferralLeaderboard.ExampleCounted` | src/controllers/user.go:501-505 | codes "A", "A", "B", "", "A" are counted as ("A", 3) and ("B", 1); the empty code is not counted |
| `ReferralLeaderboard.LeaderboardExample` | src/controllers/user.go:501-515 | codes "A", "A", "B", "", "A" give exactly the rows ("A", 3), ("B", 1) |

## Left out

- `FileUpload` (the image-host upload) is not modelled. It calls a foreign SDK with credentials from the environment. Its result is the input `UploadOutcome`: a URL or a failure.
- `SendEmail` (SMTP delivery and message assembly) is not modelled. It is network I/O, and the handler discards its boolean result. The goroutine that calls it is the `ScheduleEmail` step, and it runs only after a successful insert. What the goroutine does is not an input of the model, so it cannot affect the response.
- `GetEmail` (the HTML template) is not modelled. It is a constant string with the name concatenated in, with no decisions.
- Request parsing (`FormFile`, `ParseMultipartForm`, `FormValue`) is not modelled. Its results are the inputs `FileOutcome` and `ParseOutcome`. The form is one map from key to value, with "" for a missing key. Repeated keys and query-string values are not modelled. The deferred `file.Close()` (line 35) is not modelled either; it has no effect on the response.
- The store (`DbAdapter.CreateUser`, `DbAdapter.GetUsers`) is not modelled. Its results are the inputs `PersistOutcome` and the `Result` passed to `GetReferralLeaderboard`. Listed users appear as the `UserInput` records that were stored, since the store's own record type is not part of this model.
- Logging and printing (`log.Println`, `fmt.Println`) are not modelled. They have no effect on results.
- The `context.Context` and `*http.Request` parameters of `GetReferralLeaderboard` are not modelled. The context is only passed on to the store call `DbAdapter.GetUsers(ctx)`, which is not modelled, and the request is unused.
- `GetReferralLeaderboard`: when no user has a referral code, Go returns a nil slice. The model returns the empty sequence.
- `ReferralScore.score` is an unbounded integer. Go's `int` cannot overflow here, because a count never exceeds the number of users.
- `Registration.GetUserInfo`: its contract states the `isDualBooted` rule, the empty payment image and the error case. The plain copying of each other field from its form key is stated only in the body.

## Findings

| source | as written | input that shows it | evidently intended | confidence | as-written member | corrected member |
|---|---|---|---|---|---|---|
| src/controllers/user.go:43-49 | `GetUserInfo` returns a nil record when the form parse fails. Line 44 writes to that record before line 47 checks the error, so the handler panics and "Error getting user info" is never returned | a payment file is attached, the upload succeeds and `ParseMultipartForm` fails | return "Error getting user info" with the parse error, and validate or store nothing | not executed; the defect is latent: in net/http a successful `FormFile` leaves the parsed multipart form on the request, so the later `ParseMultipartForm` returns nil at once, and with a standard request the panic at line 44 and the branch at lines 47-49 look unreachable | `Registration.CreateUser` | `Registration.CreateUserCorrected` |
