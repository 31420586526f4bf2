# User accounts over MongoDB, modelled in Dafny

This project models the core of a Go (gin + MongoDB) user-account
service. The service has two generations side by side:

- **The flat service.** `controllers/`, `queries/`, `middleware/`,
  `helpers/token.go` and `models/`.
- **The layered rewrite.** A facade, a service and a repository under
  `internal/`.

The flat service works on the `users` collection (controllers/auth.go:24,
queries/user.go:17); the layered repository opens a separate `user`
collection (internal/adapters/mongo/repositories/user/respository.go:24),
so neither generation sees the other's records. Both are modelled by the
same `Store.Collection`. The model covers the following:

- **The account workflow.** Signup, OTP registration, verification, OTP
  resend and login.
- **Store operations.** Lookup by id and by email, the `$set` update,
  delete, count, and the sorted, skipped and limited listing.
- **Listing.** The filter the listing handlers build from query strings,
  the page and page-size normalisation, and the pagination block.
- **Tokens.** The JWT claims and their validation.
- **Guards.** The Bearer-header guards that decide whether a request goes
  through.

## How the model is built

- **The collection.** `Store.Collection` is a class whose `docs:
  seq<User>` keeps the documents in insertion order. FindOne without a
  sort returns the first match, so a lookup by email returns the first
  record with that email. `_id`s are distinct (the `_id` index). An
  ObjectID is held as its canonical text, the 24 lower-case hex digits
  `Hex()` gives. An id that arrives as text is decoded as
  `primitive.ObjectIDFromHex` does (`UserModel.ObjectIdFromHex`): either
  letter case is accepted and names the same ObjectID. The invariant
  `Store.Consistent` says ids are unique and canonical, and emails are
  unique and lower case. Every handler is proved to keep it.
- **Two forms for each state-changing handler.** A function of the old
  documents returns the reply and the new documents: `Accounts.Signup`,
  `Queries.UpdateOutcome`, and so on. A method on the collection runs the
  handler's guards step by step. Its `ensures` says that the reply and
  the new `docs` are the function's. The workflow lemmas are proved about
  the functions, so they hold of the methods.
- **Libraries enter as parameters:**
  - bcrypt becomes `Credentials.Hasher`. `Sound` means that a password
    verifies against its own hash.
  - The jwt-go HS256 signer and parser become `Token.Codec`. `RoundTrips`
    means that parsing a token you signed gives back its claims.
  - The go-playground email check is an `isEmail` predicate.
  - `time.Now()` is one `now: Time` in Unix seconds for the whole request.
  - The `crypto/rand` draw is a `draw: nat`.
  - A freshly generated ObjectID is a `freshId`, its canonical text.
  - With these parameters every handler is deterministic.
- **Go semantics written out:**
  - `strconv.Atoi`, including its out-of-range results.
  - `strconv.ParseBool`'s accepted spellings.
  - `time.Parse("2006-01-02", …)` for the RFC 3339 full-date form.
  - `strings.ToLower`, restricted to ASCII letters (see "## Left out").
  - `strings.Split` and `strings.HasPrefix`.
  - The panic of `strings.Split(header, " ")[1]` on a header "Bearer"
    with no space, modelled as the decision `Crash`.
  - The `$set` semantics of UpdateOne (`UserModel.ApplyPatch`).
  - The refusal of FindOneAndUpdate when the update document has no `$`
    operator.

### Where the code is followed over its apparent intent

In these places the code behaves otherwise than its names, messages and
status codes suggest; the model follows the code:

- **The layered list handler's page size.** A value outside 1..100 is
  reset to 10, not clamped. `internal/common/pagination/pagination.go`
  has no upper bound at all (`UserHandler.OversizedPageSizeIsReset`).
- **Password before verification.** The flat Login checks the password
  before the verification flag. A wrong password on an unverified
  account gets the hasher's 401 message, not 403
  (`Accounts.LoginRefusals`).
- **The layered Login** never checks `isVerified`. It sets `lastLogin`
  only on the copy it returns and writes nothing
  (`AuthService.Login`).
- **Delete of a missing id.** The repository's Delete reports success:
  it returns the driver's nil error (`Repository.DeleteOutcome`).
- **Status codes.** A taken email is answered 401, not 409. An unknown
  account at verification or resend is answered 401, not 404.
- **Which record's email is checked.** The layered Signup looks up the
  email of the record it is handed, then stores the email of the body.
  Its contract keeps the collection consistent only when the two agree.
- **Call sites that do not match their definitions:**
  - `controllers/auth.go:89` and `:422` call `helpers.GenerateAllTokens`
    with two arguments, but it takes three. The model passes the user's
    admin flag.
  - `controllers/user.go:138` calls `queries.DeleteUserById`, which does
    not exist. The model calls `queries.DeleteUser`.
  - The services call `GetByEmailRepo`, `CreateUserRepo`,
    `GetAllUsersRepo` and the like, which are mapped to the repository
    methods of the same meaning.
- **The current user.** The flat `queries.GetUser` reads the id under
  the context key "uid". The flat guards store it under "id", and only
  the layered guard uses "uid" (`HttpMiddleware.FlatGuardHidesCurrentUser`).

## Model

The handlers and filters written as functions of the stored documents
(`Accounts.Signup`, `Accounts.RegisterWithOtp`, `Accounts.VerifyAccount`,
`Accounts.ResendOtp`, `Accounts.Login`, `UserControllers.GetAllUsers`,
`Filter.Matches` and the like)
carry no row of their own: what they do is stated
by the lemmas and methods in the rows that name them.

| member | source | states |
|---|---|---|
| Common.CeilDiv | internal/common/pagination/pagination.go:35 | the result is the integer ceiling of a / b: q·b ≥ a > (q−1)·b |
| Common.ToLower | controllers/auth.go:51 | same length, each upper-case ASCII letter lowered, no upper-case ASCII letter left, every other character (non-ASCII letters included) kept |
| Common.LowerIdempotent | controllers/auth.go:51 | lower-casing twice is lower-casing once |
| Common.LowerFixedPoints | controllers/auth.go:51 | ToLower leaves a string unchanged exactly when it has no upper-case ASCII letter |
| Common.Itoa | controllers/auth.go:184-186 | strconv.Itoa of a non-negative number: at least one digit, all digits, no leading zero |
| Common.ItoaRoundTrip | controllers/auth.go:184-186 | the OTP text reads back as the drawn number |
| Common.ItoaInjective | controllers/auth.go:184-186 | different draws give different OTP texts |
| Common.ItoaLength | controllers/auth.go:184-186 | a draw below 10^k has at most k digits (six for the OTP range) |
| UserModel.ZeroUser | internal/services/user/service.go:52-56 | the zero record: nil id, empty email and password, both flags false, every optional field nil |
| UserModel.ValidateUser | models/user.go:14-31 | nil exactly when both names are present, the email is present and email-shaped, and the password is present with at least 6 characters; a missing name or a short password is reported under its field |
| UserModel.ToJson | models/user.go:12-25 | the JSON object has exactly the eleven tagged keys and never "password" |
| UserModel.JsonHidesOnlyPassword | models/user.go:17 | two records have the same JSON exactly when they differ at most in the password |
| UserModel.ApplyPatch | queries/user.go:91-94 | `$set` gives every key in the patch its value and leaves every other field, including id, email, password and createdAt, unchanged |
| UserModel.PatchIdempotent | queries/user.go:92 | applying the same `$set` twice equals applying it once; the empty patch changes nothing |
| UserModel.ObjectIdFromHex | queries/user.go:23-29 | accepts exactly the texts of 24 hexadecimal digits, of either case, and gives the canonical (lower-case) text of the ObjectID they spell |
| UserModel.ObjectIdHexRoundTrip | controllers/auth.go:282 | `Hex()` followed by ObjectIDFromHex gives the same ObjectID back; two hex texts decode to the same ObjectID exactly when they agree ignoring letter case |
| Filter.ParseBool | controllers/user.go:50-60 | true exactly for 1, t, T, TRUE, true, True; false exactly for 0, f, F, FALSE, false, False; otherwise an error |
| Filter.ParseFullDate | controllers/user.go:36-45 | only a ten-character text with dashes at positions 5 and 8 (YYYY-MM-DD) parses |
| Filter.ParseFormattedDate | controllers/user.go:37 | a valid date written as YYYY-MM-DD parses to its midnight UTC |
| Filter.ParseFullDateExactly | controllers/user.go:36-45 | a text parses to t exactly when it is the YYYY-MM-DD form of a calendar date of years 0000..9999 and t is that date's midnight UTC |
| Filter.NextDayMidnight | controllers/user.go:43 | adding 24 hours to a midnight gives the next day's midnight |
| Filter.BuildFilter | controllers/user.go:25-64 | each filter key is present exactly when its query value is non-empty (search) or parses (dates, booleans); the search holds the query text, createdAt's `$gte` is the start date's midnight and its `$lte` the end date's midnight plus 24 hours, and isAdmin / isVerified hold the ParseBool values |
| Filter.EmptyQueryMatchesAll | controllers/user.go:25-64 | with no usable query value the filter is empty and admits every record |
| Filter.UnparsedValuesIgnored | controllers/user.go:36-64 | a date or boolean that does not parse has the same effect as leaving it out |
| Filter.EndDateBound | controllers/user.go:41-48 | an endDate admits exactly the records created up to midnight of the following day |
| Filter.StartDateBound | controllers/user.go:36-48 | a startDate admits exactly the records created at or after that day's midnight |
| Filter.FlagFiltersMatchExactly | controllers/user.go:50-64 | isAdmin and isVerified are exact matches ANDed with the rest: a record passes exactly when it passes the filter without that flag and, when the flag parses, has that value |
| Filter.DateFiltersBound | controllers/user.go:36-48 | each date bound is ANDed with the rest: a record passes exactly when it passes without that bound and was created, respectively, at or after the start date's midnight (`$gte`) or at or before the end date's midnight plus 24 hours (`$lte`); the two bounds are stated as separate conjuncts |
| Filter.SearchIsCaseInsensitive | controllers/user.go:27-33 | the search admits a record exactly when one of firstName, lastName or email contains it ignoring ASCII letter case, and lower-casing the search changes nothing |
| Store.IndexOfId | queries/user.go:55 | FindOne by `_id`: the first position holding the id, or none when no document has it |
| Store.IndexOfEmail | queries/user.go:71 | FindOne by email: the first position holding exactly that email, or none |
| Store.UpdatedById | queries/user.go:91-101 | UpdateOne on `_id`: the first matching document is patched and all others are kept; no match leaves the collection as it was; ids stay distinct |
| Store.WithoutId | queries/user.go:115 | deleting by `_id` removes the matching document and keeps the rest in order |
| Store.DeleteRemovesExactlyOne | queries/user.go:115 | after a delete by id no document has that id, every other document is still there, and exactly one is gone when one matched |
| Store.Select | queries/user.go:130 | the documents the filter matches, each as often as in the collection, and no others |
| Store.CountIsSelected | internal/adapters/mongo/repositories/user/respository.go:112-119 | CountDocuments with a filter equals the number of documents Find with the same filter yields |
| Store.SortNewestFirst | internal/adapters/mongo/repositories/user/respository.go:32 | sorting on createdAt descending gives a newest-first permutation of the input |
| Store.Window | internal/adapters/mongo/repositories/user/respository.go:31-34 | skip then limit: the run of the sorted sequence after `skip` entries, at most `limit` long, where a limit of 0 means no limit and a negative limit counts as its absolute value |
| Store.Listing | internal/adapters/mongo/repositories/user/respository.go:31-36 | newest first, as many entries as CountDocuments reports, exactly the matching documents |
| Store.AppendKeepsConsistent | controllers/auth.go:51-101 | inserting a record with a lower-case, unused email and an unused canonical id keeps ids unique and canonical and emails unique and lower case |
| Store.PatchKeepsConsistent | queries/user.go:82-104 | a `$set` patch by any id keeps the collection invariant, because it touches neither id nor email |
| Store.Collection.InsertOne | controllers/auth.go:101 | the document is appended exactly when its `_id` is unused; otherwise nothing changes |
| Store.Collection.SetById | queries/user.go:94-101 | reports a match exactly when the id is present; the collection becomes UpdatedById |
| Store.Collection.DeleteById | queries/user.go:115-121 | returns the removed document when the id was present; the collection becomes WithoutId |
| Queries.GetUserByID | queries/user.go:45-64 | a text that is not 24 hexadecimal digits fails as invalid; otherwise the record stored under the ObjectID it decodes to (its id equal to the text ignoring letter case), or "user not found" exactly when there is none |
| Queries.IdLookupFindsRecord | queries/user.go:45-64 | with distinct canonical ids, the lookup returns a given record exactly when the text is that record's ObjectID in hex, in upper, lower or mixed case |
| Queries.GetUserByEmail | queries/user.go:66-80 | succeeds exactly when some record has exactly that email, and returns one; otherwise "user not found" |
| Queries.EmailLookupIsCaseSensitive | queries/user.go:71 | where every stored email is lower case, an email containing an upper-case ASCII letter finds nothing |
| Queries.GetUserCount | queries/user.go:126-135 | the number of records matching the filter, at most the collection size |
| Queries.GetUser | queries/user.go:31-43 | no "uid" in the context fails, a non-text "uid" fails, otherwise the lookup by that id |
| Queries.UpdateOutcome | queries/user.go:82-104 | a malformed id fails with no change; an id whose decoded ObjectID no record has fails with "no user found" and no change; otherwise that record is patched; it fails exactly when the lookup by id fails |
| Queries.UpdateByStoredId | controllers/auth.go:282 | an update by the `Hex()` of a stored id always matches and patches that record (with distinct ids) |
| Queries.UpdateUser | queries/user.go:82-104 | the error and the new collection are those of UpdateOutcome |
| Queries.DeleteOutcome | queries/user.go:106-124 | a malformed id fails, one whose decoded ObjectID no record has fails with "user not found", both with no change; success exactly when the lookup succeeds, removing one record |
| Queries.DeleteUser | queries/user.go:106-124 | the error and the new collection are those of DeleteOutcome |
| Token.GenerateAllTokens | helpers/token.go:24-56 | no error exactly when both claim sets sign; on an error both tokens are empty; the access claims carry email, id and admin flag with iat = now and exp = now + 3 h, the refresh claims carry no identity and exp = now + 3 days |
| Token.ValidateToken | helpers/token.go:58-87 | claims exactly when the message is empty; claims only for a valid parse with exp ≥ now; an expiry error gives exactly "Token has expired" |
| Token.AccessTokenValidates | helpers/token.go:25-33 | an issued access token validates, up to and including its exp, to the email, id and admin flag it was issued for |
| Token.AccessTokenExpires | helpers/token.go:82-84 | after its exp the same token is refused with "Token has expired" |
| Token.RefreshTokenValidates | helpers/token.go:36-41 | the refresh token validates for three days and carries empty identity fields |
| AuthMiddleware.Split | middleware/auth.go:27 | strings.Split: at least one piece, one piece exactly when the separator is absent, no piece contains it |
| AuthMiddleware.JoinSplit | middleware/auth.go:27 | joining the pieces of a split with the separator gives the header back |
| AuthMiddleware.SplitJoin | middleware/auth.go:27 | splitting a join of separator-free pieces gives the pieces back |
| AuthMiddleware.BearerToken | middleware/auth.go:24-28 | a header without the "Bearer" prefix is used whole; with it, indexing `[1]` fails exactly when the header has no space, and otherwise yields the second space-separated field |
| AuthMiddleware.BearerOfToken | middleware/auth.go:26-27 | "Bearer " followed by a space-free token yields that token |
| AuthMiddleware.ClaimsContext | middleware/auth.go:41-43 | the context keys set are exactly email, id and isAdmin |
| AuthMiddleware.IsAuthenticated | middleware/auth.go:11-47 | an empty header gives 401 "No Authorization header provided"; the request proceeds exactly when the token is extracted and validates, with the claims in the context; otherwise 401 with the validator's message |
| AuthMiddleware.IsAdmin | middleware/auth.go:49-95 | an empty header gives 401; a request that proceeds has isAdmin true in its context |
| AuthMiddleware.AdminGuardRefinesAuthentication | middleware/auth.go:49-95 | IsAdmin lets through exactly what IsAuthenticated lets through with the admin flag, with the same context, and refuses the rest with the permission message |
| AuthMiddleware.IssuedTokenAuthenticates | middleware/auth.go:24-45 | a freshly issued access token sent as "Bearer <token>" passes for three hours with its email, id and admin flag in the context |
| HttpMiddleware.Cors | internal/adapters/http/middleware/middleware.go:18-30 | the four CORS headers are written on every request; the request is aborted, with 204, exactly when the method is OPTIONS |
| HttpMiddleware.AuthenticateUser | internal/adapters/http/middleware/middleware.go:32-65 | an empty header gives 401 "Token not provided"; the out-of-range split and a validator returning neither claims nor a message crash; a request proceeds only with admin claims, stored under email, uid and isAdmin |
| HttpMiddleware.CorsThenAuthenticate | internal/adapters/http/middleware/middleware.go:24-27 | a preflight request ends with 204 before any guard runs; any other request gets AuthenticateUser's decision |
| HttpMiddleware.AuthenticateUserMatchesIsAdmin | internal/adapters/http/middleware/middleware.go:32-65 | with the token validator, AuthenticateUser decides as the flat IsAdmin does, with the id stored under "uid" instead of "id" |
| HttpMiddleware.AuthenticateUserSetsUid | internal/adapters/http/middleware/middleware.go:60-62 | a request that proceeds carries the token's id under "uid" |
| HttpMiddleware.FlatGuardHidesCurrentUser | queries/user.go:31-35 | behind the flat IsAuthenticated guard, the current-user query always fails with "ID not found in context" |
| HttpMiddleware.LayeredGuardFindsCurrentUser | internal/adapters/http/middleware/middleware.go:61 | behind AuthenticateUser, the current-user query looks up the token's id |
| Pagination.Atoi | internal/common/pagination/pagination.go:20 | strconv.Atoi: the value is a 64-bit integer; a failure gives 0 or a saturated bound; success needs a leading digit or sign |
| Pagination.AtoiFormatInt | internal/common/pagination/pagination.go:20 | a 64-bit integer written in decimal parses back to itself |
| Pagination.ExtractPagination | internal/common/pagination/pagination.go:19-31 | page is at least 1; a value that does not parse falls back to page 1 and to the default page size |
| Pagination.PaginationPositive | internal/common/pagination/pagination.go:19-31 | with a positive default both results are at least 1 |
| Pagination.PaginationDefaults | internal/common/pagination/pagination.go:19-31 | absent parameters give page 1 and the default page size |
| Pagination.PaginationKeepsPositive | internal/common/pagination/pagination.go:20-28 | positive values are kept as written, with no upper bound on the page size |
| Pagination.PaginationFallsBack | internal/common/pagination/pagination.go:20-28 | values that fail to parse or are below 1 fall back to page 1 and the default |
| Pagination.CreatePaginationResponse | internal/common/pagination/pagination.go:34-43 | echoes page, perPage and total; totalPages·perPage ≥ total > (totalPages−1)·perPage; 0 pages for 0 records |
| Pagination.CeilUnique | internal/common/pagination/pagination.go:35 | the page count satisfying the ceiling bounds is unique |
| Pagination.TotalPagesFormula | internal/adapters/http/facades/user/handler.go:83 | (total + perPage − 1) / perPage is the page count CreatePaginationResponse reports |
| Repository.SkipFacts | internal/adapters/mongo/repositories/user/respository.go:29 | for page and pageSize ≥ 1 the skip is non-negative and consecutive pages start pageSize apart |
| Repository.GetAllUsers | internal/adapters/mongo/repositories/user/respository.go:27-48 | a negative skip is refused by the driver; otherwise at most pageSize matching records |
| Repository.SliceKeepsOrder | internal/adapters/mongo/repositories/user/respository.go:32 | any run of a newest-first sequence is newest first |
| Repository.PageIsSlice | internal/adapters/mongo/repositories/user/respository.go:27-48 | a page is the run of the sorted matches starting at (page−1)·pageSize, at most pageSize long, newest first |
| Repository.PagesTile | internal/adapters/mongo/repositories/user/respository.go:29-34 | pages 1..n laid end to end are exactly the first n·pageSize sorted matches: no record is skipped or repeated |
| Repository.PageNonEmptyIff | internal/adapters/mongo/repositories/user/respository.go:29-34 | a page holds records exactly when its number is at most the ceiling of count / pageSize |
| Repository.IndexOfKey | internal/adapters/mongo/repositories/user/respository.go:52 | the first record whose `_id` equals the filter value, and none exactly when no record's does; a string never equals a stored ObjectID |
| Repository.DecodedFilter | queries/user.go:23-29 | the invalid-hex error exactly for a text that is not 24 hex digits; otherwise an ObjectID filter naming the canonical form of the text |
| Repository.FindById | internal/adapters/mongo/repositories/user/respository.go:52-56 | FindOne by `_id`: a record whose `_id` equals the filter value, found exactly when one exists; otherwise no documents |
| Repository.DeleteByKey | internal/adapters/mongo/repositories/user/respository.go:102 | DeleteOne by `_id`: the first matching record is removed and the rest kept in order; no match changes nothing |
| Repository.UpdateByKey | internal/adapters/mongo/repositories/user/respository.go:89-98 | FindOneAndUpdate by `_id` with the "after" option: a document without `$` operators is refused; otherwise the first match is patched and returned as it is afterwards, and no match changes nothing |
| Repository.StringIdFilterNeverMatches | internal/adapters/mongo/repositories/user/respository.go:50-110 | as written, with the id text in the filter: no record matches, the lookup gives no documents, an update changes nothing and fails, a delete removes nothing |
| Repository.GetUserByID | internal/adapters/mongo/repositories/user/respository.go:50-60 | with the id decoded first: a text that is not 24 hex digits gives the invalid-hex error; otherwise succeeds exactly when a record is stored under the decoded ObjectID, and returns it; otherwise no documents |
| Repository.DecodedIdFindsRecord | internal/adapters/mongo/repositories/user/respository.go:50-60 | with the id decoded and distinct canonical ids, the lookup returns a given record exactly when the text is its ObjectID in hex, in any letter case |
| Repository.GetByEmail | internal/adapters/mongo/repositories/user/respository.go:75-85 | succeeds exactly when a record has exactly that email, and returns it; otherwise no documents |
| Repository.GetUserCount | internal/adapters/mongo/repositories/user/respository.go:112-119 | the count equals the length of the listing for the same filter |
| Repository.Create | internal/adapters/mongo/repositories/user/respository.go:62-73 | the record, under its id or the generated one when its id is nil, is appended exactly when that id is free; otherwise a duplicate-key error and no change |
| Repository.UpdateOutcome | internal/adapters/mongo/repositories/user/respository.go:87-99 | a malformed id gives the invalid-hex error with no change; an update document without `$` operators is refused with no change; with `$set` the patched record is returned exactly when a record has the decoded id, and no documents otherwise |
| Repository.UpdateUser | internal/adapters/mongo/repositories/user/respository.go:87-99 | the result and the new collection are those of UpdateOutcome |
| Repository.UpdateAsWrittenOutcome | internal/adapters/mongo/repositories/user/respository.go:87-99 | with the id text as the filter, no id is refused as malformed: a plain-field document is refused by the driver and a `$set` document matches nothing; the collection never changes |
| Repository.UpdateUserAsWritten | internal/adapters/mongo/repositories/user/respository.go:87-99 | the result and the new collection are those of UpdateAsWrittenOutcome |
| Repository.DeleteOutcome | internal/adapters/mongo/repositories/user/respository.go:101-110 | a malformed id gives the invalid-hex error with no change; any other id reports no error: the record under the decoded id is removed, and a missing one leaves the collection as it was |
| Repository.Delete | internal/adapters/mongo/repositories/user/respository.go:101-110 | the error and the new collection are those of DeleteOutcome |
| UserService.AllUsers | internal/services/user/service.go:23-36 | on an error, no users and a count of 0; otherwise matching records and the total count for the same filter |
| UserService.AllUsersListsOnePage | internal/services/user/service.go:23-36 | for page and pageSize ≥ 1, the page's run of the sorted matches and the number of matches |
| UserService.GetByID | internal/services/user/service.go:38-50 | an empty id gives "ID is required"; otherwise the repository's lookup by the decoded id: the invalid-hex error, the record stored under that ObjectID, or no documents exactly when there is none |
| UserService.GetUser | internal/services/user/service.go:52-56 | always the zero record and no error |
| UserService.UpdatePatch | internal/services/user/service.go:62-67 | applied to any record, the update changes exactly firstName, lastName, isAdmin and updatedAt |
| UserService.UpdateAsWrittenAlwaysFails | internal/services/user/service.go:62-69 | the update as built reaches FindOneAndUpdate, which refuses it with the missing-operator error for every id, malformed, missing or stored, and changes nothing |
| UserService.UpdateWithSetPatchesFields | internal/services/user/service.go:62-69 | with `$set`, the record stored under the decoded id gets exactly the body's names, the admin flag and the update time, and is returned |
| UserService.Update | internal/services/user/service.go:58-75 | an empty id gives "ID is required"; every other id fails with the missing-operator error; nothing changes |
| UserService.UpdateWithSet | internal/services/user/service.go:58-75 | an empty id is refused; otherwise the record under the decoded id is patched and returned; a malformed id gives the invalid-hex error and a missing record no documents |
| UserService.Delete | internal/services/user/service.go:77-95 | an empty id is refused; a failed lookup (malformed id or missing record) returns its error with no change; an existing record is removed |
| AuthService.Signup | internal/services/auth/service.go:29-69 | the checks run in order: validation, taken email, hash, token; success exactly when all pass and the id is free; then the stored record has the body's fields, the hash and isVerified true; the collection stays consistent when the two emails agree |
| AuthService.Login | internal/services/auth/service.go:71-101 | an unknown or empty email gives the wrong-email error; success exactly when the password verifies and the token signs; the record is returned with lastLogin = now; no verification check and no write |
| Accounts.SignupKeepsConsistent | controllers/auth.go:26-133 | with a canonical fresh id, Signup keeps ids unique and canonical and emails unique and lower case, whatever the request |
| Accounts.RegisterKeepsConsistent | controllers/auth.go:135-227 | with a canonical fresh id, RegisterWithOtp keeps the collection invariant |
| Accounts.VerifyKeepsConsistent | controllers/auth.go:229-308 | VerifyAccount keeps the collection invariant |
| Accounts.ResendKeepsConsistent | controllers/auth.go:310-371 | ResendOtp keeps the collection invariant |
| Accounts.LoginKeepsConsistent | controllers/auth.go:373-457 | Login keeps the collection invariant |
| Accounts.SignupSucceedsIff | controllers/auth.go:41-131 | success exactly when the body binds, the lower-cased email is unused, the password hashes, the tokens sign and the id is free; a verified record with the hash and no OTP is then appended and both tokens are returned with 201; a failure changes nothing |
| Accounts.RegistrationRefusesTakenEmail | controllers/auth.go:51-62 | an email that differs from a stored one only in ASCII letter case is refused with 401 "This email already exists" by both registrations, and nothing changes |
| Accounts.RegisterSucceedsIff | controllers/auth.go:135-227 | success exactly when the body binds, the lower-cased email is unused, the password hashes and the id is free; the unverified record with the OTP is then appended and 201 announces the OTP; every failure changes nothing |
| Accounts.RegisterStoresOtp | controllers/auth.go:184-203 | the stored and announced OTP has one to six digits and reads back as the draw; the record is unverified and its OTP expires five minutes later |
| Accounts.VerifySucceedsIff | controllers/auth.go:236-290 | in a collection with canonical ids: success exactly when the body binds, the account exists, holds this OTP and the OTP has not expired; the record is then marked verified with its OTP cleared; a wrong OTP is refused before expiry is checked |
| Accounts.VerifyConsumesOtp | controllers/auth.go:276-282 | replaying a successful verification is refused with "Invalid OTP" at any later time |
| Accounts.RegisterThenVerify | controllers/auth.go:258-282 | the OTP just registered verifies up to and including five minutes later, and is refused as expired after that |
| Accounts.ResendReplacesOnlyOtp | controllers/auth.go:341-361 | a successful resend changes only the OTP and its expiry on the first record with that email; a failed one changes nothing |
| Accounts.ResendSucceedsIff | controllers/auth.go:310-371 | success exactly when the email binds and an account has the lower-cased email, verified or not, answering 201 with the new OTP; an unknown email gets 401 "User Account does not exist" and nothing changes |
| Accounts.ResendThenVerify | controllers/auth.go:341-353 | after a resend the new OTP verifies within five minutes and a different older OTP is refused |
| Accounts.LoginSucceedsIff | controllers/auth.go:380-436 | in a collection with canonical ids: success exactly when the body binds, the account exists, the password verifies, the account is verified and the tokens sign; lastLogin is then recorded; a failure changes nothing |
| Accounts.LoginRefusals | controllers/auth.go:403-420 | a wrong password gets 401 with the hasher's message whether or not the account is verified; a right password on an unverified account gets 403 |
| Accounts.LoginAfterSignup | controllers/auth.go:390-455 | with a sound hasher, the email (in any ASCII letter case) and password just registered log in later, answering 200 with that email and id |
| Accounts.LoginBeforeVerification | controllers/auth.go:413-420 | an account registered with an OTP and not yet verified is refused with 403 for the right password |
| Accounts.LoginTokenAuthenticates | controllers/auth.go:422-447 | the access token a login returns, sent as a Bearer header, passes IsAuthenticated for three hours with the account's email, id and admin flag |
| AuthControllers.Signup | controllers/auth.go:26-133 | the reply and the new collection are those of Accounts.Signup |
| AuthControllers.RegisterWithOtp | controllers/auth.go:135-227 | the reply and the new collection are those of Accounts.RegisterWithOtp |
| AuthControllers.VerifyAccount | controllers/auth.go:229-308 | the reply and the new collection are those of Accounts.VerifyAccount |
| AuthControllers.ResendOtp | controllers/auth.go:310-371 | the reply and the new collection are those of Accounts.ResendOtp |
| AuthControllers.Login | controllers/auth.go:373-457 | the reply and the new collection are those of Accounts.Login |
| UserControllers.PageParams | controllers/user.go:17 | page and page size are both at least 1 |
| UserControllers.ListingAgreesWithMetadata | controllers/user.go:66-97 | success exactly when the fetch succeeds, with the pagination of the count under the same filter; with a paging fetch, "No Users Found" exactly for pages past the last, and otherwise newest-first matching records |
| UserControllers.GetUser | controllers/user.go:101-132 | 200 with the record exactly when the id is 24 hex digits naming, in any letter case, a record's ObjectID; otherwise 400 "Unable to Fetch this user" |
| UserControllers.DeleteUser | controllers/user.go:134-155 | success exactly when the lookup by id succeeds, and the record under the decoded id is then removed; otherwise 400 and no change |
| UserControllers.UpdateUser | controllers/user.go:157-212 | a missing record is refused before the body is read; a body without both names is refused; otherwise exactly names, admin flag and updatedAt change |
| UserHandler.RequestedPage | internal/adapters/http/facades/user/handler.go:14-19 | the page is at least 1: the parsed value when it is at least 1, else 1 |
| UserHandler.RequestedPageSize | internal/adapters/http/facades/user/handler.go:15-22 | the page size is in 1..100: the parsed value when in range, else 10 |
| UserHandler.RequestedDefaults | internal/adapters/http/facades/user/handler.go:14-15 | absent values give page 1 of 10 records |
| UserHandler.RequestedKeepsInRange | internal/adapters/http/facades/user/handler.go:14-22 | a page ≥ 1 and a page size in 1..100 are taken as written |
| UserHandler.OversizedPageSizeIsReset | internal/adapters/http/facades/user/handler.go:20-22 | a page size above 100 becomes 10, whereas ExtractPagination keeps it |
| UserHandler.UnparsedPageIsFirst | internal/adapters/http/facades/user/handler.go:14-19 | a page value that does not parse, read as 0, gives page 1 |
| UserHandler.Normalize | internal/adapters/http/facades/user/handler.go:14-22 | the reassigned page and page size are RequestedPage and RequestedPageSize |
| UserHandler.BuildListFilter | internal/adapters/http/facades/user/handler.go:30-69 | the filter built key by key is the flat controller's filter |
| UserHandler.PaginationBlock | internal/adapters/http/facades/user/handler.go:77-85 | the handler's pagination block equals CreatePaginationResponse's |
| UserHandler.GetAllUsers | internal/adapters/http/facades/user/handler.go:13-88 | answers 200 with the normalised page and size, the newest-first run of matching records at (page−1)·pageSize, the number of matches, and the page count as an integer ceiling |

## Left out

- **I/O, timeouts and logging.** Driver and network failures,
  `context.WithTimeout` deadlines, and `log.Printf`/`fmt.Println` output
  are not modelled. A write fails only for the reasons the model states:
  a malformed or missing id, or a duplicate `_id`.
- Common.ToLower: lowers only the ASCII letters A-Z. Go's `strings.ToLower`
  lowers every Unicode upper-case letter, and the email check accepts
  non-ASCII letters. So the model treats "É@example.com" and
  "é@example.com" as two emails: it stores the first unchanged and lets
  the second register too, where Go stores "é@example.com" and refuses
  the second with 401 "This email already exists". The email uniqueness
  the model proves (`Store.Consistent`) is uniqueness up to ASCII letter
  case only.
- **Concurrency.** The race between the email check and `InsertOne`
  (two simultaneous signups with one email) is outside a sequential
  model. Unique emails hold here because every write goes through the
  modelled handlers.
- **Cryptography and external libraries.** bcrypt, HS256 signing and
  parsing, `crypto/rand`, the email validator and ObjectID generation are
  parameters with the stated hypotheses. `helpers.HashPassword`,
  `helpers.VerifyPassword`, internal/common/password and
  internal/common/token are not part of this model.
- **The `$regex` search.** The search string is passed to MongoDB as an
  unescaped regular expression with option "i". It is modelled as a
  case-insensitive literal substring (ASCII case folding), which agrees
  only for searches without regular-expression metacharacters.
- **`math.Ceil`.** `math.Ceil` over `float64` in
  CreatePaginationResponse is modelled as exact integer ceiling
  division. Float rounding for totals above 2^53 is not modelled.
- **Integer width.** 64-bit overflow of `(page-1)*pageSize` and of
  `total + pageSize - 1` is not modelled: integers are unbounded. Atoi's
  own 64-bit saturation is modelled.
- **Time.** Time is whole Unix seconds. Go's nanosecond clock and
  `time.Now().After` at sub-second resolution are not modelled, and each
  request reads the clock once.
- Repository.GetUserByID, Repository.UpdateOutcome, Repository.UpdateUser,
  Repository.DeleteOutcome, Repository.Delete, UserService.GetByID, UserService.UpdateWithSet,
  UserService.Delete, UserService.UpdateWithSetPatchesFields: these model
  the repository with the id decoded by ObjectIDFromHex, the corrected
  form in the second Findings row. As written the `_id` filter holds the
  id string, and none of these operations ever matches a record Create
  stored: a lookup gives no documents, and an update or a delete changes
  nothing (`Repository.StringIdFilterNeverMatches`). Nor is any id refused
  as malformed: as written, Delete of "abc" returns nil and removes
  nothing, where the decoded form reports the invalid-hex error. (The
  as-written UserService.Update is modelled as written, through
  `Repository.UpdateUserAsWritten`.)
- **ObjectIDs as text.** An ObjectID is held as its canonical hex text,
  not as twelve bytes. The lemmas about the account handlers assume
  stored ids in that form (`Store.CanonicalIds`), as
  `primitive.NewObjectID()` makes them.
- Repository.PagesTile: relies on one fixed order among records with
  equal createdAt, the insertion order the model's sort keeps. MongoDB
  does not promise the same order of ties between queries with different
  skip values, so with equal createdAt values real pages may repeat or
  miss a record.
- **The flat listing's dependencies.** `queries.GetAllUsers`,
  `helpers.ExtractPagination` and `helpers.CreatePaginationResponse` are
  not part of this model:
  - the page fetch is the parameter `fetch`;
  - the same-named helpers in internal/common/pagination stand in for
    the other two.
- **JSON envelope details.** The response key misspelled "sucess" in some
  error replies and the raw `error` text fields are not modelled.
- **UserControllers.GetUser's unreachable branch.** The 404 branch for a
  nil user after a successful lookup cannot be reached. It is not
  modelled.
- **UserControllers.UpdateUser's unreachable reply.** "Unable to Update
  this User" cannot be reached after the existence check. It is kept in
  the body, and no contract mentions it.
- **UserHandler.GetAllUsers and "Failed to fetch users".** Its contract
  never yields that 400 answer. The modelled service fails only on a
  negative skip. With unbounded integers (see Integer width) the
  normalised page rules that out. With 64-bit integers `(page-1)*pageSize`
  can overflow for a huge page, giving a negative skip and this answer.
  Driver failures are not modelled.
- **The layered facade's other handlers.** GetUsersById, DeleteUserById
  and UpdateUserById in internal/adapters/http/facades/user/handler.go
  forward to the user service and answer 400 with the error text. The
  UserService members model what they return.
- **Routing and wiring.** Routes, server and facade registration, the
  auth facade (forwarding only) and the response builders are not
  modelled.
- **Handlers that are routed but not defined here.** SendOtp,
  ResetPassword, ChangePassword and Google sign-in are not modelled.
  `GetGoogleUserInfo` (an HTTP call) is not modelled either.

## Findings

| source | as written | input that shows it | evidently intended | confidence | as-written member | corrected member |
|---|---|---|---|---|---|---|
| internal/services/user/service.go:62-69 | Update hands FindOneAndUpdate (internal/adapters/mongo/repositories/user/respository.go:91) a document of plain field names. The driver refuses an update document without `$` operators, so every Update with a non-empty id fails and nothing is written. | any non-empty id, including that of an existing record, with any body | wrap the fields in `$set`, as queries/user.go:92 does, and filter on the decoded ObjectID as the next row describes, so that an existing record gets the new names, admin flag and update time | high (not executed; follows from the driver's documented refusal) | UserService.UpdateAsWrittenAlwaysFails | UserService.UpdateWithSetPatchesFields |
| internal/adapters/mongo/repositories/user/respository.go:50-110 | GetUserByID, UpdateUser and Delete filter on `_id` with the id string as given. Create stores an ObjectID `_id` (internal/services/auth/service.go:44), and MongoDB equality never equates a string with an ObjectID, so no lookup, update or delete by id ever matches a stored record. | the hex text of an existing record's ObjectID, as its JSON gives it | decode the id with `primitive.ObjectIDFromHex` first, as queries/user.go:23-29 does, and filter on the ObjectID | high (not executed; follows from BSON type comparison) | Repository.StringIdFilterNeverMatches | Repository.DecodedIdFindsRecord |
