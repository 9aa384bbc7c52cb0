# Sports Aadhar auth server, modelled in Dafny

The system is the backend of a sports-assessment app. Athletes sign up and
log in, attach a phone number that they confirm with a one-time SMS code,
upload the results of an eight-test fitness rubric, and appear on a
leaderboard. This project models the decidable core of that backend:

- **Test records** (`routes/tests.js`, `models/AthleteTests.js`). This covers:
  - the entry sanitiser and the all-or-nothing batch sanitiser;
  - the write-once merge that keeps a user's tests sorted by test number;
  - the bulk upload, which replaces the whole sequence;
  - category resolution through the alias table, and the category loop;
  - the per-user read.

  The collection is a map from athlete to a sequence of items.
  The modules are `TestsSanitize`, `BatchScan`, `TestsRoute` (the class
  `TestStore`) and `AthleteTestsModel`.
- **Credentials and phone verification** (`routes/auth.js`, `models/User.js`,
  `models/Otp.js`, `utils/otp.js`). These cover signup, login, add-phone and
  verify-phone as steps on the `User` collection and on the `Otp` collection.
  The `Otp` collection is keyed by (user, phone). The modules are `AuthRoute`
  (the class `AuthStore`), `UserModel`, `OtpModel`, `OtpUtil` and `Bcrypt`.
- **Leaderboard** (`routes/leaderboard.js`), in the module `Leaderboard`. It
  builds one row per user: the sum and count of the valid scores, and the
  average over the fixed eight tests. It then sorts the rows on three keys.
- **Bearer gate** (`middleware/requireAuth.js`), in the module `RequireAuth`.
  The request object is the class `Request`.
- **Provider wrappers** (`services/cloudinary.js`, `services/vonage.js`), in the
  modules `Cloudinary` and `Vonage`:
  - the Cloudinary string-to-sign, configuration check and upload form;
  - the Vonage message template, the credential-skip rule and the reply
    classification.

The shared modules are these:

- `JsString` holds the string built-ins the code relies on: `trim`,
  `toLowerCase`, `split`, `indexOf`, `replace`, the default sort order, and
  `String(number)`.
- `JsValues` holds the values of a parsed JSON body: truthiness, `String(x)`,
  and `Number(x)` with `Number.isFinite`.
- `StableSort` holds `Array.prototype.sort` as a stable insertion sort.

Clocks, randomness, bcrypt, SHA-1, `jwt.verify`, the HTTP calls and the
environment settings are parameters. Each handler is one atomic step.

The signup handler is modelled as the code is written, not as its intent.
`User.create` receives only the name, the email and the password digest
(routes/auth.js:22). The schema requires `age`, `city`, `state` and
`pincode` (models/User.js:13-16). So every signup that passes the guards
fails in `User.create` and is answered "Email already exists"; no signup
ever creates a user. `AuthRoute.SignupNeverCreates` states this, and the
success branch of `AuthRoute.AuthStore.Signup` is proved dead.

Each handler or helper is defined once by a function. The lemmas and methods
in the table below state its properties. The definitions that carry no
contract of their own are these:

- `AuthRoute.SignupOutcome` (routes/auth.js:12-36). Its properties are in `AuthRoute.SignupNeverCreates`.
- `AuthRoute.LoginOutcome` (routes/auth.js:41-69). See `AuthRoute.LoginSucceedsIff`,
  `AuthRoute.LoginNotFoundIff`, `AuthRoute.UnverifiedPhoneRefusedFirst` and
  `AuthRoute.LoginWithOwnPassword`.
- `AuthRoute.AddPhoneOutcome` (routes/auth.js:71-103). See `AuthRoute.AddPhoneWrites`, `AuthRoute.AddPhoneWritesIff`,
  `AuthRoute.AddPhoneWithSms` and `AuthRoute.OtpShownOnlyOutsideProduction`.
- `AuthRoute.VerifyPhoneOutcome` (routes/auth.js:105-129). See `AuthRoute.VerifySucceedsIff`,
  `AuthRoute.VerifyRefusalChangesNothing`, `AuthRoute.VerifyOnce` and `AuthRoute.AddThenVerify`.
- `OtpModel.Expired` (routes/auth.js:111). See `AuthRoute.ExpiryBoundary`.
- `OtpUtil.LooksLikeEmail` (utils/otp.js:3). See `OtpUtil.LooksLikeEmailIff` and the lemmas after it.
- `TestsSanitize.SanitizedTests` (routes/tests.js:113-123). See `TestsSanitize.BatchCleanedIff`.
- `TestsRoute.UploadOutcome` (routes/tests.js:144-183). See `TestsRoute.UploadErrorNoWrite`,
  `TestsRoute.BulkReplaces`, `TestsRoute.SingleTakesPriority` and `TestsRoute.UploadKeepsValid`.
- `TestsRoute.ResolveCategory` (routes/tests.js:186-187). See `TestsRoute.LowerBodyCategory` and `TestsRoute.CoreAlias`.
- `Leaderboard.Average` and `Leaderboard.RowFor` (routes/leaderboard.js:16-33). See `Leaderboard.RowScores`.
- `Leaderboard.RowOrder` (routes/leaderboard.js:36-40). See `Leaderboard.RowOrderTotal` and `Leaderboard.LeaderboardOrdered`.
- `Cloudinary.ToSign` and `Cloudinary.SignParams` (services/cloudinary.js:8-15). See
  `Cloudinary.SignedKeysExactly`, `Cloudinary.InsertionOrderIrrelevant` and `Cloudinary.UploadSignsParams`.
- `Cloudinary.FormBody` (services/cloudinary.js:39-52). See `Cloudinary.FormStartsWithFile`,
  `Cloudinary.UnsignedFields`, `Cloudinary.SignatureOrPreset` and `Cloudinary.AppendFields`.
- `Cloudinary.UploadAttempt` (services/cloudinary.js:26-69). See `Cloudinary.PostedIff`,
  `Cloudinary.ConfigCheckedFirst`, `Cloudinary.ResponseMapping` and `Cloudinary.Upload`.

## Model

| member | source | states |
|---|---|---|
| AthleteTestsModel.BuildEntry | models/AthleteTests.js:3-14 | An item is stored exactly when it has a test number, a non-empty label and name, and a rating, if set, in [1, 10]. `qualityTested` defaults to '' and `testDate` to the creation time. The stored item is valid. |
| AthleteTestsModel.ValidEntryRoundTrip | models/AthleteTests.js:3-14 | A valid item passes the item schema unchanged. |
| UserModel.BuildUser | models/User.js:3-21 | `User.create` succeeds exactly when all of these hold: the email is present and email-shaped, the password is present, the age is at least 1, and the trimmed city, state and pincode are non-empty. The stored user is valid, and `isPhoneVerified` defaults to false. |
| UserModel.NoAgeNoUser | models/User.js:13 | A document without an age never validates. |
| UserModel.WithVerifiedPhone | routes/auth.js:114-118 | The update sets the phone and the verified flag and changes no other path: name, email, password, age, city, state and pincode are kept. A valid document stays valid. |
| UserModel.SetPhoneKeepsPhones | models/User.js:17 | Setting a phone that no other user holds keeps the sparse unique phone index. |
| UserModel.SetVerifiedPhoneKeepsValid | models/User.js:3-21 | Setting a verified phone that no other user holds keeps every collection constraint: unique emails, unique phones, and a stored phone only when verified. |
| OtpModel.OnePendingPerPair | models/Otp.js:9 | Two records that agree on user and phone are the same record. |
| OtpModel.UpsertOtp | routes/auth.js:85-89 | The upsert replaces exactly the record for (user, phone), keeps every other record, and keeps each record under its own key. |
| OtpUtil.LifetimeIsFiveMinutes | utils/otp.js:1 | The code's lifetime is 5 minutes, which is 300000 ms. |
| OtpUtil.GenerateOtp | utils/otp.js:2 | The code for a draw k in [0, 900000) has exactly six decimal digits, does not start with '0', and denotes 100000 + k. |
| OtpUtil.LooksLikeEmailIff | utils/otp.js:3 | The scan holds exactly when some '@' has a non-space before it, and a '.' follows it after a non-empty run of non-spaces and before a non-space. This is the unanchored search of `\S+@\S+\.\S+`. |
| OtpUtil.LooksLikeEmailInContext | utils/otp.js:3 | The search is unanchored: text around a matching string keeps it matching. |
| OtpUtil.NoAtNoEmail | utils/otp.js:3 | Text without an '@' never looks like an email. |
| OtpUtil.EmptyIsNotEmail | utils/otp.js:3 | The empty default value does not look like an email. |
| OtpUtil.SpacedTextMatches | utils/otp.js:3 | "x a@b.c y" looks like an email. |
| OtpUtil.SpaceBreaksDomain | utils/otp.js:3 | "a@ b.c" does not look like an email. |
| Bcrypt.MatchesOwnHash | routes/auth.js:54 | `compareSync` accepts a secret against its own hash. |
| Bcrypt.MatchesOnlyOwnHash | routes/auth.js:112 | `compareSync` accepts no other secret against that hash. |
| BatchScan.ScanItems | routes/tests.js:113-123 | The batch loop returns the batch specification: nothing or the refusal at the first unclean item, or else every cleaned item. |
| BatchScan.ScanCleanedIff | routes/tests.js:116-122 | A batch is cleaned exactly when every item is clean. It then holds one cleaned item per input item, in input order. |
| BatchScan.ScanFailsAtFirst | routes/tests.js:118-119 | A failing batch fails at its first unclean item: `null` for a nameless item, else that item's refusal. |
| TestsSanitize.LookupCategory | routes/tests.js:188 | The lookup finds an entry exactly when the key is one of the table's keys, and the entry is the one under that key. |
| TestsSanitize.DefaultLabel | routes/tests.js:89 | The default label `Test {idx+1}` is non-empty and trimmed. |
| TestsSanitize.RatingOf | routes/tests.js:92-100 | An absent rating is stored as none. A present, accepted rating is its finite value in [1, 10]. |
| TestsSanitize.LabelOf | routes/tests.js:89 | The label is the trimmed given label, or `Test {idx+1}` when that is blank. Either way it is non-empty and trimmed. |
| TestsSanitize.AgeCategoryOf | routes/tests.js:107 | The age category is present exactly when the field is truthy, and is then its trimmed text. |
| TestsSanitize.SanitizeSingleTest | routes/tests.js:85-111 | The result is `null` exactly when the trimmed name is empty. A named item with a present rating outside [1, 10] gets the ratingScale error. Otherwise each field of the cleaned item is read with its default, and the item is schema-valid and trimmed. |
| TestsSanitize.NullRatingRejected | routes/tests.js:93-97 | An explicit `null` rating is refused, because `Number(null)` is 0. |
| TestsSanitize.AbsentRatingUnscored | routes/tests.js:92-93 | A named item without a rating is stored unscored. |
| TestsSanitize.DefaultTestsRejected | routes/tests.js:7-65 | Every shipped rubric entry is refused for its null rating, whatever its index. |
| TestsSanitize.SanitizeTests | routes/tests.js:113-123 | `sanitizeTests` gives `null` for a non-array, and otherwise the all-or-nothing scan of its items. |
| TestsSanitize.BatchCleanedIff | routes/tests.js:113-123 | A batch is cleaned exactly when it is an array of clean items. It then holds their cleaned forms, in order and of the same length. |
| TestsSanitize.DefaultBatchRejected | routes/tests.js:164 | The default rubric uploaded as a batch is refused with the ratingScale error. |
| TestsRoute.NumberOrderTotal | routes/tests.js:138 | The test-number comparator is a consistent total preorder. |
| TestsRoute.FindNumber | routes/tests.js:131 | `findIndex` gives -1 exactly when no item has the number, and otherwise the first item that has it. |
| TestsRoute.UpsertedTests | routes/tests.js:125-142 | A new record holds exactly the item. `TEST_EXISTS` is returned exactly when the number is already stored. Otherwise the record grows by one. |
| TestsRoute.UpsertSortedPermutation | routes/tests.js:137-138 | A merge yields the old items plus the new one, sorted by test number. |
| TestsRoute.UpsertKeepsUnique | routes/tests.js:131-138 | A merge never stores two items with the same test number. |
| TestsRoute.UpsertKeepsValid | routes/tests.js:137-140 | Merging a valid item into valid items stores only valid items. |
| TestsRoute.UpsertIntoSorted | routes/tests.js:137-138 | Into an already sorted record, the new item is slotted in after every item that may stay before it. |
| TestsRoute.CategoryIndex | routes/tests.js:198 | The index a category entry is sanitised with is never 0. |
| TestsRoute.SingleDecision | routes/tests.js:150-161 | The single-test branch answers only 200 or 400. It answers 200 exactly when the item is clean and its test number is not yet in the caller's record. |
| TestsRoute.BulkDecision | routes/tests.js:164-178 | The bulk branch answers only 200 or 400. It answers 200 exactly when the batch is cleaned and non-empty. |
| TestsRoute.CategoryFrom | routes/tests.js:197-209 | The category loop answers only 200 or 400. A 200 means that no entry from the loop's position on was refused. |
| TestsRoute.CategoryOutcome | routes/tests.js:185-194 | The answer is 404 exactly when the resolved name is not a key of the table, and a 404 writes nothing. |
| TestsRoute.TestStore.constructor | models/AthleteTests.js:16-22 | The collection starts empty. |
| TestsRoute.TestStore.UpsertSingleTest | routes/tests.js:125-142 | On save, the caller's record becomes the merged tests. On `TEST_EXISTS`, the collection is unchanged. |
| TestsRoute.TestStore.SaveSingle | routes/tests.js:149-162 | The single-test branch replies and writes as `SingleDecision` says: 400 for `null`, a refusal or an existing number; otherwise the merge. |
| TestsRoute.TestStore.SaveBulk | routes/tests.js:164-178 | The bulk branch replies and writes as `BulkDecision` says: 400 for `null`, an empty batch or a refusal; otherwise a replace. |
| TestsRoute.TestStore.Upload | routes/tests.js:144-183 | `/upload` follows `UploadOutcome`. On 200, the returned tests are the caller's stored sequence. |
| TestsRoute.TestStore.UploadItems | routes/tests.js:196-204 | The category loop follows `CategoryFrom` and answers only 200 or 400. |
| TestsRoute.TestStore.UploadCategory | routes/tests.js:185-210 | `/upload/:category` follows `CategoryOutcome` and reports the resolved name. A 404 lists the table's keys. |
| TestsRoute.TestStore.FetchUserTests | routes/tests.js:220-226 | The read gives the stored items, or none when the athlete has no record. A collection of schema-valid items, which every upload keeps, hands out only schema-valid items. |
| TestsRoute.SingleTakesPriority | routes/tests.js:149 | A truthy `test` decides the outcome, whatever `tests` holds. |
| TestsRoute.DecisionsWriteOnlyOnSuccess | routes/tests.js:150-178 | A refused single item or batch writes nothing. A stored one writes the caller's record only, and a bulk write stores the batch itself. |
| TestsRoute.UploadErrorNoWrite | routes/tests.js:144-183 | Every refused upload leaves the collection unchanged. An accepted one changes only the caller's record. |
| TestsRoute.BulkReplaces | routes/tests.js:164-173 | A cleaned, non-empty batch becomes the caller's whole sequence, with no merge, deduplication or sort. |
| TestsRoute.BulkInvalidPayload | routes/tests.js:164-167 | A non-array, an empty array, or a nameless item before any refusal gives 400 "Invalid tests payload" and no write. |
| TestsRoute.DefaultUploadRejected | routes/tests.js:164-168 | Omitting both fields uploads the rubric, which gives 400 with the ratingScale error and no write. |
| TestsRoute.DecisionsKeepValid | routes/tests.js:154-173 | Storing a valid item or a valid batch keeps every stored item schema-valid. |
| TestsRoute.UploadKeepsValid | routes/tests.js:144-183 | Uploads keep every stored item schema-valid. |
| TestsRoute.AllowedKeys | routes/tests.js:189-193 | A 404 lists the seven categories in declaration order. |
| TestsRoute.LowerBodyCategory | routes/tests.js:186-188 | "LowerBodyExplosive" resolves, after lowercasing, to tests 2 and 3. |
| TestsRoute.CoreAlias | routes/tests.js:77-83 | The alias "Core" resolves to the sit-ups entry. |
| TestsRoute.CategoryFromKeepsOthers | routes/tests.js:197-204 | The category loop writes no record but the caller's. |
| TestsRoute.CategoryHeadRejected | routes/tests.js:198-202 | Each category's first entry is refused for its null rating. |
| TestsRoute.EveryCategoryUploadRefused | routes/tests.js:185-218 | With the shipped tables every category upload fails without a write: 404 for an unknown name, and 400 with the ratingScale error for a known one. |
| AuthRoute.SignupDoc | routes/auth.js:21-22 | The created document carries the email and the password's digest, and no age, city, state or pincode. |
| AuthRoute.SignupNeverCreates | routes/auth.js:12-36 | Signup never writes and always answers 400. A request that passes the guards gets "Email already exists". |
| AuthRoute.FindFrom | routes/auth.js:47-49 | `findOne` gives the first user the email or phone query selects, or none when no user matches. |
| AuthRoute.LoginSucceedsIff | routes/auth.js:41-64 | A login succeeds exactly for a user that the chosen query selects and whose digest matches the credential. A phone login also needs a verified phone. Both directions: success implies these conditions, and when they hold for the first selected user the login succeeds for that user. |
| AuthRoute.UnverifiedPhoneRefusedFirst | routes/auth.js:51-55 | The verified-phone check comes before the password check. A phone login whose selected user is unverified gets 400 "Phone number is not verified", and any other credential gets the same answer. |
| AuthRoute.LoginNotFoundIff | routes/auth.js:50 | The reply is 404 exactly when the chosen query selects nobody. |
| AuthRoute.LoginWithOwnPassword | routes/auth.js:47-55 | A user logs in by email with the password that was hashed. |
| AuthRoute.UnverifiedPhoneLoginUnreachable | routes/auth.js:51-53 | When every stored phone is verified, the unverified-phone refusal never happens. |
| AuthRoute.AddPhoneWrites | routes/auth.js:71-98 | Add-phone never changes the users. A refusal or "already verified" writes no code. Otherwise exactly the (user, phone) record is upserted, with the code's digest and expiry now + 300000, whether or not the SMS goes out. |
| AuthRoute.AddPhoneWritesIff | routes/auth.js:71-98 | The (user, phone) record is written if and only if the phone is given, the user exists, that phone is not already verified for the user and no other user holds it. The write is the upsert of the fresh digest with expiry now + 300000; every other request keeps the pending codes. |
| AuthRoute.AddPhoneWithSms | routes/auth.js:82-98 | With the SMS wrapper deciding whether the send went out: the stored digest matches the code, and the SMS goes to the phone carrying that code in the template ("Your verification code is " and the code by default). Without SMS credentials, outside production the send is skipped, the answer is 200 and the code is shown. In production the answer is 502 and the pending record stays. |
| AuthRoute.OtpShownOnlyOutsideProduction | routes/auth.js:96-98 | The code is returned exactly on a successful send outside production. |
| AuthRoute.VerifySucceedsIff | routes/auth.js:105-124 | Verification succeeds exactly for a pending, unexpired record whose digest matches, when the user exists and no other user holds the phone. It then sets the phone, marks it verified, consumes the record and changes no other user. |
| AuthRoute.VerifyRefusalChangesNothing | routes/auth.js:107-113 | Every 400 refusal leaves both collections unchanged. |
| AuthRoute.ExpiryBoundary | routes/auth.js:111 | A code is still valid at exactly `expiresAt`, and expired one millisecond later. |
| AuthRoute.VerifyOnce | routes/auth.js:109-119 | After a success, the same verification is answered "OTP not requested for this phone". |
| AuthRoute.AddThenVerify | routes/auth.js:82-113 | A sent code verifies the phone for five minutes and is refused as expired after that. Any other code is refused as invalid. |
| AuthRoute.AuthStore.constructor | models/User.js:3-21 | The store starts from any user and OTP collections that meet the schema and index constraints (users can be created outside these routes), and keeps them as given. |
| AuthRoute.AuthStore.Signup | routes/auth.js:12-36 | Signup follows `SignupOutcome` and keeps the collection constraints. |
| AuthRoute.AuthStore.Login | routes/auth.js:41-69 | Login follows `LoginOutcome` and changes nothing. |
| AuthRoute.AuthStore.AddPhone | routes/auth.js:71-103 | Add-phone follows `AddPhoneOutcome` and keeps the collection constraints. |
| AuthRoute.AuthStore.VerifyPhone | routes/auth.js:105-129 | Verify-phone follows `VerifyPhoneOutcome` and keeps the collection constraints, including a stored phone only when verified. |
| Leaderboard.Accumulate | routes/leaderboard.js:16-25 | The loop's `sum` and `testsTaken` are the sum and count of the ratings in [1, 10]. |
| Leaderboard.ScoreBounds | routes/leaderboard.js:19-25 | The count never exceeds the number of items. The sum lies between the count and ten times the count. |
| Leaderboard.NothingCountedIff | routes/leaderboard.js:19-25 | Nothing is counted exactly when no item has a rating in [1, 10], and the sum is then 0. |
| Leaderboard.AllRatedAllCounted | routes/leaderboard.js:19-25 | When every item is schema-valid and rated, every item is counted. |
| Leaderboard.RowScores | routes/leaderboard.js:16-33 | The average times 8 is the sum, not the sum over the tests taken. The count is bounded by the user's items. The avatar is absent exactly when the picture url is absent or empty. |
| Leaderboard.NoRecordNoScore | routes/leaderboard.js:16 | A user without a record has average 0 and no tests taken. |
| Leaderboard.OneTestOfEight | routes/leaderboard.js:26 | One perfect score gives an average of 1.25. |
| Leaderboard.RowOrderTotal | routes/leaderboard.js:36-40 | A total preorder on names makes the three-key comparator a total preorder on rows. |
| Leaderboard.BuildLeaderboard | routes/leaderboard.js:15-40 | The handler's loop builds the rows and sorts them with the comparator. |
| Leaderboard.LeaderboardOrdered | routes/leaderboard.js:36-40 | The board is a permutation of the rows, of the users' number. It is ordered by average descending, then tests taken descending, then name. |
| Leaderboard.OneRowPerUser | routes/leaderboard.js:15-34 | Every user's row is on the board, and every row belongs to a user. |
| RequireAuth.TokenOf | middleware/requireAuth.js:9 | The token exists exactly when the header holds a space, and it holds no space itself. |
| RequireAuth.Decide | middleware/requireAuth.js:3-16 | Every refusal is a 401. The refusal is "Unauthorized" exactly when the header is missing, empty or does not start with "Bearer". |
| RequireAuth.Request.constructor | middleware/requireAuth.js:4 | A request starts with its header, no user id, no reply and no call of `next`. |
| RequireAuth.RequireAuth | middleware/requireAuth.js:3-16 | On refusal the reply is set, and the user id and `next` are untouched. On pass the user id is the payload's id, `next` is called exactly once, and no reply is sent. |
| RequireAuth.PassIff | middleware/requireAuth.js:4-12 | A request passes exactly when the header is a bearer header whose token verifies. The user id is then the payload's id. |
| RequireAuth.BearerRefusalIsInvalidToken | middleware/requireAuth.js:13-15 | With a bearer header, every refusal is "Invalid token". |
| RequireAuth.TokenAfterBearer | middleware/requireAuth.js:9 | `Bearer <token>` hands the token, up to the next space, to the verifier. |
| RequireAuth.BareBearerRefused | middleware/requireAuth.js:9-10 | "Bearer" alone has no token and is refused as an invalid token. |
| RequireAuth.DoubleSpaceEmptyToken | middleware/requireAuth.js:9 | A double space after "Bearer" makes the token the empty string. |
| RequireAuth.DoubleSpaceRefused | middleware/requireAuth.js:9-15 | With a verifier that rejects the empty token, as `jwt.verify` does, a double space after "Bearer" is refused as an invalid token. |
| RequireAuth.GluedPrefixAccepted | middleware/requireAuth.js:5 | The prefix test needs no space after "Bearer". |
| Cloudinary.Included | services/cloudinary.js:9-10 | A key passes the filter exactly when it is listed and its value is not `undefined`, `null` or ''. No key is repeated more often than in the list. |
| Cloudinary.KeyOrderTotal | services/cloudinary.js:11 | The default sort order on keys is a total preorder. |
| Cloudinary.SignedKeysExactly | services/cloudinary.js:9-11 | The sorted signed keys are exactly the keys with a signed value, each once, in strictly ascending order. |
| Cloudinary.InsertionOrderIrrelevant | services/cloudinary.js:9-13 | The string-to-sign does not depend on the order in which the keys were inserted. |
| Cloudinary.ConfigError | services/cloudinary.js:17-24 | No error is thrown exactly when the cloud name, the key, and a secret or a preset are set. The first message is thrown exactly when the name or the key is missing. |
| Cloudinary.Timestamp | services/cloudinary.js:31 | The timestamp is the nearest second to the clock. |
| Cloudinary.AppendFields | services/cloudinary.js:39-52 | The successive appends build the form: file, key, timestamp, the optional folder and id, overwrite, then the signature or the preset. |
| Cloudinary.Upload | services/cloudinary.js:26-69 | The upload posts and returns or throws as `UploadAttempt` says. |
| Cloudinary.PostForm | services/cloudinary.js:39-68 | The form is posted to the account's endpoint, and the response is mapped. |
| Cloudinary.ConfigCheckedFirst | services/cloudinary.js:27-30 | A configuration error is thrown before the file is looked at, and nothing is posted. |
| Cloudinary.PostedIff | services/cloudinary.js:27-30 | Nothing is posted exactly when the configuration or the file is refused. A non-string or empty file throws "Invalid file payload". |
| Cloudinary.UnsignedFields | services/cloudinary.js:39-45 | The fields before the authentication field hold neither a signature nor a preset. |
| Cloudinary.SignatureOrPreset | services/cloudinary.js:47-52 | With a secret, the form ends with the signature and has no preset. With only a preset, it ends with the preset and has no signature. |
| Cloudinary.UploadSignsParams | services/cloudinary.js:8-14 | A signed upload posts the SHA-1 of the string-to-sign of the four parameters, followed by the secret. |
| Cloudinary.FormStartsWithFile | services/cloudinary.js:40-42 | The form begins with the file, the API key and the timestamp. |
| Cloudinary.ResponseMapping | services/cloudinary.js:56-68 | A non-ok response throws with its status. An ok one returns `secure_url` when it is truthy, else `url`. |
| Vonage.BuildOtpMessage | services/vonage.js:7 | A template without an opening brace holds no placeholder and is sent unchanged. |
| Vonage.SendOtp | services/vonage.js:9-47 | A request is made exactly when both credentials are set. The call returns `{ skipped: true }` exactly when nothing is sent outside production. A failure with nothing sent is the missing-credentials error. |
| Vonage.NoPlaceholderUnchanged | services/vonage.js:7 | A template with neither placeholder is sent as it is. |
| Vonage.FirstOtpReplaced | services/vonage.js:7 | The first "{{OTP}}" is the one replaced, and the text after it is kept. |
| Vonage.OnlyFirstOtpReplaced | services/vonage.js:7 | Later "{{OTP}}" placeholders stay in the message. |
| Vonage.FirstCodeReplaced | services/vonage.js:7 | In a template without "{{OTP}}", the first "{{CODE}}" (with no brace before it) becomes the code and the text after it is kept. |
| Vonage.DefaultTemplateMessage | services/vonage.js:5-7 | The default template gives "Your verification code is " followed by the code. |
| Vonage.FindFailed | services/vonage.js:41 | `find` gives the first message with a truthy status other than '0', or none when no message fails. |
| Vonage.MissingCredentialsRule | services/vonage.js:14-19 | Without a key or secret, nothing is sent. Production throws; elsewhere the call returns `{ skipped: true }`. |
| Vonage.CredentialsSend | services/vonage.js:21-32 | With credentials the request is made, to the phone, with the templated code. |
| Vonage.DeliveredIff | services/vonage.js:34-46 | Once sent, the call succeeds exactly when the response is ok and no message fails. |
| Vonage.StatusClassification | services/vonage.js:41 | A status of '0', or none, counts as delivered. Any other truthy status is a failure. |
| Vonage.FirstFailureReported | services/vonage.js:41-44 | The thrown message is that of the first failed message: its error text, or else its status. |
| JsString.Trim | routes/tests.js:87 | `trim` gives trimmed text no longer than the input. |
| JsString.TrimEmptyIff | routes/tests.js:87-88 | The trimmed text is empty exactly when every character is white space. |
| JsString.TrimIdempotent | models/User.js:14-16 | Trimming twice is trimming once. |
| JsString.Split | middleware/requireAuth.js:9 | The pieces hold no separator and join back to the input. |
| JsString.SplitSecond | middleware/requireAuth.js:9 | The second piece is the text between the first separator and the next. |
| JsString.IndexOf | services/vonage.js:7 | `indexOf` finds the first occurrence, or none. |
| JsString.ReplaceAbsent | services/vonage.js:7 | `replace` without an occurrence leaves the text unchanged. |
| JsString.ReplaceFirstOccurrence | services/vonage.js:7 | `replace` replaces the first occurrence only. |
| JsString.StringLeTotal | services/cloudinary.js:11 | The default string order is total. |
| JsString.StringLeAntisymmetric | services/cloudinary.js:11 | The default string order is antisymmetric. |
| JsString.StringLeTransitive | services/cloudinary.js:11 | The default string order is transitive. |
| JsString.NatText | utils/otp.js:2 | The text of a natural number is its decimal digits, with no leading zero. |
| JsString.NatTextLength | utils/otp.js:2 | A number in [10^(k-1), 10^k) has k digits. |
| JsString.NumTextOfInt | services/cloudinary.js:42 | An integral number is shown as its integer digits. |
| JsValues.NullIsZero | routes/tests.js:94 | `Number(null)` is the finite number 0. |
| JsValues.ParseNatText | routes/tests.js:90 | The decimal text of a natural number reads back as that number. |
| StableSort.SortSortedPermutation | routes/tests.js:138 | The sort yields a sorted permutation of its input. |
| StableSort.SortStable | routes/leaderboard.js:36-40 | Equal-ranked elements keep their input order. |
| StableSort.SortOfSorted | routes/tests.js:138 | An already sorted sequence is its own sort. |

## Left out

- Database failures, the `CastError` 400 and every 500 "catch" path are left out, except where the model derives a 500 itself (verify-phone with a deleted user, or a phone taken meanwhile). Athlete and user ids are natural numbers, so a malformed id cannot occur.
- Concurrency is left out. Each handler is one atomic step, so the race between `findOne` and `save` in `upsertSingleTest` is not modelled.
- The store-side TTL of pending codes (models/Otp.js:7) is left out. Only the handler's own expiry test is modelled.
- JSON web tokens are left out: `signToken` is not modelled, and `jwt.verify` is a parameter.
- bcrypt salts, cost factors and digest text are left out. bcrypt is an ideal injective digest. bcryptjs reads only the first 72 bytes of a secret, so two passwords that agree on those bytes match the same hash. `Bcrypt.MatchesOnlyOwnHash` does not hold of the real library for such secrets.
- RequireAuth.Decide: `jwt.verify` is an arbitrary partial function. That it rejects the empty token is assumed only where it is needed, in `RequireAuth.DoubleSpaceRefused`.
- SHA-1 output is left out; it is a parameter.
- `Math.random`, `Date.now` and `process.env` are parameters.
- The network is left out: the HTTP calls of both providers are parameters, and the `fetch`-availability check (services/vonage.js:10-12) is not modelled.
- Logging, `console.warn` and the JSON shapes of replies beyond status and message are left out.
- Leaderboard.Average: omits the `toFixed(2)` rounding and uses exact reals. This changes the order as well as the shown value. Ratings 4, 3 and 3 average 1.25; ratings 5 and 5.03 average 1.25375, which `toFixed(2)` turns into 1.25. With the rounding the two averages tie and the athlete with three tests taken ranks first; the model ranks the other athlete first. `Leaderboard.LeaderboardOrdered` describes the order on exact averages.
- Leaderboard.RowOrder: `localeCompare` is an arbitrary total preorder on names.
- Leaderboard.BuildLeaderboard: the in-place `sort` is the stable `StableSort.Sort` on a sequence. The same holds for `TestsRoute.TestStore.UpsertSingleTest`'s push-then-sort.
- JsString.NumText: writes at most 20 fraction digits and never the exponent form, so `String(x)` is exact only for such numbers.
- JsString.ToLower: lowercases ASCII letters only.
- JsString.StringLe: compares Dafny characters, which are Unicode code points. The default sort compares UTF-16 code units, and the two orders differ for keys that hold characters outside the Basic Multilingual Plane.
- JsString.ReplaceFirst: the replacement text is inserted literally. The `$` patterns that `String.prototype.replace` interprets in it (`$&`, `$1` and the like) are not modelled.
- JsValues.Raw: an item is an object whose properties are primitives. A property that is itself an array or an object cannot be expressed, so `nameOfTest: {}` (read as "[object Object]") and `ratingScale: [7]` (read as 7) are outside the model.
- JsValues.FiniteNumber: `Number(s)` reads only plain signed decimal literals; hexadecimal, exponent and `Infinity` forms are not modelled.
- Body fields that are not strings are left out. The auth handlers read them as absent or as strings.
- Prototype keys such as `constructor` in the alias and category lookups are left out.
- Leaderboard.UserRow: `profilePictureUrl` is not a path of the `User` schema. Its value is taken as an input of the leaderboard.
- Idempotence of the sanitiser is left out.
- server.js is not part of this model. It is a standalone legacy server.
- routes/profile.js, routes/athletes.js and utils/jwt.js are not part of this model.
