# Device profiles: a verified model

This project models the core of a multi-tenant backend for **device profiles**. A device profile
is a per-user browser or device fingerprint: a name, a device class (`desktop` or `mobile`),
optional viewport size, user agent, country code and custom headers. A profile can be
materialised once from a shared **device template**. The model covers these layers:

- the entities and their validation tags;
- the error taxonomy: five domain kinds that carry a message and a cause chain;
- the profile store: the ORM's list, insert, selective update, full `Save` and delete over a
  table with a primary key and a `(user_id, name)` unique index;
- the profile service: validation, template materialisation, the ownership gate and the
  classification of storage errors;
- the HTTP handlers: request checks, request and response mapping, and error-to-status
  translation;
- the credential check and the Basic authentication middleware, with base64 decoding
  (RFC 4648) and decimal integer parsing written out.

Each Go file of the core is one Dafny module:

| module | file |
|---|---|
| `Entity` | `entity.dfy` |
| `AppErr` | `apperr.dfy` |
| `ProfileRepo` | `profile_repo.dfy` |
| `ProfileUsecase` | `profile_usecase.dfy` |
| `HttpError` | `handle_error.dfy` |
| `HttpMapper` | `mapper.dfy` |
| `HttpProfile` | `profile_handler.dfy` |
| `AuthUsecase` | `auth_usecase.dfy` |
| `AuthMiddleware` | `middleware.dfy` |

Four more modules hold the library behaviour the core relies on:

- `Uuids` models `uuid.Parse`, `UUID.String` and the validator's `uuid4` rule.
- `Strconv` models `strconv.Atoi` and `Itoa`.
- `Base64` models `StdEncoding`.
- `Ascii` models ASCII case folding.

State the source changes in place is modelled imperatively:

- The store is the class `ProfileRepo.ProfileStore`. Its `rows` sequence is the table.
- The service is the class `ProfileUsecase.ProfileService`. It logs the repository calls it makes.
- The handler is the class `HttpProfile.ProfileHandler`.
- The middleware's request is the class `AuthMiddleware.RequestCtx`.

Every method is proved against a pure outcome function, such as `Save`, `CreateOutcome` or
`UpdateChecks`. The lemmas state what the code promises, and what it does not, in terms of
those functions.

The code itself signals that profiles are meant to be scoped to their owner. The handler interface
describes profiles as owned by the authenticated user (`internal/core/port/http_handler.go:13`).
The selective update is scoped by `id = ? AND user_id = ?`
(`internal/adapter/repo/device_profile.go:62`). The service's delete hands the caller's id to the
store as well as the profile id (`internal/core/usecase/device_profile.go:105`). The first two
items below go against that scoping; the others are further places where the code's behaviour is
easy to miss. The model follows the code in each case:

- Update and delete are not scoped to the owner.
  - The full update is the ORM's `Save`: it replaces the row with that id whoever owns it, and
    inserts when no row has the id.
  - The service's ownership gate compares the caller with the owner named in the request, which
    the handler itself fills in with the caller. Any authenticated user can therefore overwrite,
    and take over, any profile whose id they know.
  - `ProfileUsecase.UpdateTakesOverStoredRow` and `HttpProfile.UpdateIgnoresStoredOwner` show this.
- Delete removes the row with that id whoever owns it, and succeeds when no row has the id. The
  adapter's delete takes the profile id alone (`internal/adapter/repo/device_profile.go:80-86`);
  "## Left out" says how the model joins it to the service's two-argument call.
  `ProfileUsecase.DeleteOutcomeNeverNotFound` and `HttpProfile.DeleteAnswers` show it is never
  answered 404.
- A full update writes every column. Fields the request omits are stored as nil, empty or zero,
  including the creation time (`HttpProfile.UpdateWipesOmittedFields`).
- The 201 answer to a create from a template echoes the request's own entity. That entity has a
  nil id and zero timestamps, while the stored row holds the template's fields
  (`HttpProfile.CreateFromTemplateAnswersWithRequest`).
- A handler that finds no identity in the request does not stop at the 401 it writes: the error
  `userContext` returns is that of writing the body, which is nil. Create and update then answer
  400 "invalid user id in context", and list and delete call the service with a nil context, which
  panics (`HttpProfile.NoIdentityAnswers`; see Findings). Every route is mounted behind the
  authentication middleware, which always stores a non-empty identity, so in the wired service
  this path is not taken (`HttpProfile.UserContextAfterMiddleware`).
- The middleware's `uuid4` check is joined to the emptiness check by `&&`. It therefore refuses
  only an empty id (`AuthMiddleware.AdmitTakesAnyNonEmptyId`).

## Model

| member | source | states |
|---|---|---|
| Entity.UppercaseMeansNoLowerLetter | internal/core/entity/device_profile.go:19 | the `uppercase` tag, with ASCII upper-casing, rejects exactly the strings containing an ASCII lower-case letter, so digits pass as a country code |
| AppErr.Unwrap | internal/pkg/apperr/types.go:19 | a domain error unwraps to its cause; the unwrapped error is structurally smaller, so cause chains are finite |
| AppErr.Chain | internal/pkg/apperr/types.go:5-19 | the chain walked by `errors.Is`/`As` starts with the error itself and is never empty |
| AppErr.FindKind | internal/adapter/http/error.go:21-29 | `errors.As` for a kind finds an error exactly when one of that kind is on the chain, and returns the first such error |
| AppErr.PgCode | internal/core/usecase/device_profile.go:133-134 | `errors.As` for a PostgreSQL error succeeds exactly when one is on the chain, and returns a SQLSTATE present on it |
| AppErr.KindOfCode | internal/pkg/apperr/types.go:16-80 | reading a code back gives the kind whose `Code()` it is, and nothing for any other string |
| AppErr.KindOfErrorText | internal/pkg/apperr/types.go:10-14 | the kind of every domain error can be recovered from the `[CODE] ` prefix of its `Error()` text, with or without a cause |
| AppErr.CodesDistinct | internal/pkg/apperr/types.go:16-80 | the five codes are pairwise distinct |
| HttpError.HandleError | internal/adapter/http/error.go:12-33 | the first of InvalidArgument, NotFound, AlreadyExists, NotAuthorized present anywhere on the chain decides 400/404/409/401, with the code and message of the first error of that kind; everything else, Internal included, is 500 with the fixed body |
| HttpError.HandleStorageWrapped | internal/adapter/http/error.go:12-33 | a domain error wrapping a storage error is answered by its own kind's status, code and message, or by the fixed 500 for Internal |
| Uuids.ToString | internal/core/usecase/device_profile.go:77 | `String()` is 36 characters, with hyphens at 8, 13, 18 and 23 and each digit in lower-case hex |
| Uuids.ParseToString | internal/adapter/http/device_profile.go:85 | parsing the printed form of a UUID gives the UUID back |
| Uuids.ToStringOfParse | internal/adapter/http/device_profile.go:85 | parsing accepts either letter case, and printing the result gives the input in lower case |
| Uuids.Uuid4Digits | internal/core/usecase/device_profile.go:83-88 | a UUID passes `uuid4` exactly when its version digit is 4 and its variant digit is 8 to b |
| Uuids.Uuid4TextParses | internal/core/usecase/device_profile.go:101 | every string passing `uuid4` parses, to a UUID that passes `uuid4` and prints back as that string |
| Strconv.Atoi | internal/adapter/http/device_profile.go:154-161 | a successful read yields a 64-bit integer from non-empty text |
| Strconv.AtoiAccepts | internal/adapter/http/device_profile.go:154-161 | a text is accepted exactly when it is an optional `+` or `-` then one or more digits whose value, negated after `-`, fits in 64 bits, and that value is the result |
| Strconv.AtoiOfItoa | internal/adapter/http/device_profile.go:154-161 | every 64-bit integer written in decimal reads back as itself |
| Strconv.AtoiOfDigits | internal/adapter/http/device_profile.go:154-161 | a run of digits reads as its value bare or after `+`, and as its negation after `-`, within the 64-bit range |
| Strconv.AtoiIgnoresLeadingZeros | internal/adapter/http/device_profile.go:154-161 | leading zeros do not change the value read |
| Strconv.AtoiIgnoresSignAndLeadingZeros | internal/adapter/http/device_profile.go:154-161 | a plus sign followed by leading zeros does not change the value read |
| Strconv.DigitsValueOfDigits | internal/adapter/http/device_profile.go:154-161 | the decimal digits of a number read back as that number |
| Base64.ValueOf | internal/pkg/middleware/auth.go:27 | each alphabet character decodes to the six bits that encode back to it |
| Base64.Encode | internal/pkg/middleware/auth.go:27 | an encoding is whole groups of four characters with no line breaks |
| Base64.Decode | internal/pkg/middleware/auth.go:27-30 | a successful decode read whole groups of four once line breaks are removed |
| Base64.StripKeeps | internal/pkg/middleware/auth.go:27 | removing line breaks leaves text without them unchanged |
| Base64.DecodeEncodeGroup | internal/pkg/middleware/auth.go:27 | one encoded group of three bytes decodes to those bytes |
| Base64.DecodeEncode | internal/pkg/middleware/auth.go:27-30 | decoding the standard encoding of any bytes gives those bytes back, padding included |
| HttpMapper.StringHeaders | internal/adapter/http/mapper.go:12-17 | the response headers are exactly the string-valued entries of the stored map, with their texts; a nil map gives none |
| HttpMapper.StringHeadersOfJson | internal/adapter/http/mapper.go:12-17 | headers that are all strings pass into the response unchanged |
| HttpMapper.StringHeadersIgnoreOthers | internal/adapter/http/mapper.go:12-17 | setting a header to a non-string value removes it from the response and leaves the rest alone |
| HttpMapper.ToResponse | internal/adapter/http/mapper.go:11-32 | every field is copied as it is, and the headers are reduced to the string ones |
| HttpMapper.ResponseRoundTrip | internal/adapter/http/mapper.go:11-32 | a profile whose headers exist and are all strings loses nothing in its response |
| HttpMapper.MapUpdate | internal/adapter/http/mapper.go:34-70 | id and owner come from the arguments; each present field is copied; absent fields are zero or nil; an empty template id is nil; a template id that fails to parse becomes the nil UUID |
| HttpMapper.EmptyRequestMapsToBlank | internal/adapter/http/mapper.go:34-70 | an empty request maps to the blank profile; a request that maps to it sets no field except possibly an empty template id, name or device type |
| HttpMapper.MapCreate | internal/adapter/http/mapper.go:72-97 | fails exactly when a non-empty template id does not parse; otherwise no id, the fields copied, a header map that always exists, and the template id parsed |
| ProfileRepo.AppendConstraints | internal/core/entity/device_profile.go:11-14 | appending a row keeps the primary key and `(user_id, name)` unique exactly when both are unused |
| ProfileRepo.EffectiveSize | internal/adapter/repo/device_profile.go:33-38 | the size used is between 1 and 100: 20 for a non-positive size, 100 above 100, the size itself otherwise |
| ProfileRepo.EffectivePage | internal/adapter/repo/device_profile.go:30-32 | the page used is at least 1, and is the page itself when that is at least 1 |
| ProfileRepo.OwnedBy | internal/adapter/repo/device_profile.go:41 | `WHERE user_id = ?` keeps exactly the caller's rows, each no more often than the table holds it |
| ProfileRepo.NewestFirstSorts | internal/adapter/repo/device_profile.go:42 | `ORDER BY created_at DESC` gives a permutation of its input ordered by creation time, newest first |
| ProfileRepo.InsertByAgeOrder | internal/adapter/repo/device_profile.go:42 | inserting into a newest-first sequence keeps it newest first |
| ProfileRepo.WindowShape | internal/adapter/repo/device_profile.go:43-44 | `LIMIT`/`OFFSET` yields at most `size` rows taken from the input, and nothing past the end |
| ProfileRepo.WindowKeepsOrder | internal/adapter/repo/device_profile.go:43-44 | a window of a newest-first sequence is newest first |
| ProfileRepo.AdjacentWindows | internal/adapter/repo/device_profile.go:43-44 | two adjacent windows of one size make the window of twice that size |
| ProfileRepo.ListPageShape | internal/adapter/repo/device_profile.go:23-49 | a page holds at most the effective size (never above 100), only the owner's rows, newest first |
| ProfileRepo.ListPagePastEnd | internal/adapter/repo/device_profile.go:39-45 | a page starting at or past the owner's last profile is empty |
| ProfileRepo.ConsecutivePages | internal/adapter/repo/device_profile.go:39-45 | page p followed by page p+1 is the double-size window at page p, so pages neither overlap nor skip rows |
| ProfileRepo.OffsetNextPage | internal/adapter/repo/device_profile.go:39 | the next page starts exactly one page size further on |
| ProfileRepo.Wrap64 | internal/adapter/repo/device_profile.go:39 | Go's 64-bit multiplication result is a 64-bit integer congruent to the true product modulo 2^64 |
| ProfileRepo.OffsetAgreesWithoutOverflow | internal/adapter/repo/device_profile.go:39 | below 2^63 the wrapped offset equals the true offset |
| ProfileRepo.OffsetWrapReturnsFirstPage | internal/adapter/repo/device_profile.go:39 | page 2^62+1 of size 4 wraps to offset 0, so the code returns the first page where an empty page is due |
| ProfileRepo.IndexOfId | internal/adapter/repo/device_profile.go:69 | finds a row with the id exactly when some row has it |
| ProfileRepo.Inserted | internal/adapter/repo/device_profile.go:51-56 | the inserted row has a non-nil id, the generated one for a zero id and the given one otherwise; a nil header map becomes `{}` and a given one is kept; each zero timestamp becomes now and a non-zero one is kept; no other field differs from the input |
| ProfileRepo.InsertKeepsConstraints | internal/adapter/repo/device_profile.go:56 | an insert succeeds exactly when its id and its `(user_id, name)` are unused; it appends the row, or changes nothing; the constraints hold either way |
| ProfileRepo.CreateDuplicateNameFails | internal/adapter/repo/device_profile.go:51-57 | creating a second profile of the same name for an owner is a 23505 unique violation and stores nothing |
| ProfileRepo.CreateStoresProfile | internal/adapter/repo/device_profile.go:51-57 | a create succeeds exactly when the id and key are free; the row it answers with and stores is `Inserted`'s, so a nil header map is stored as `{}`; a failed create stores nothing, and the constraints hold |
| ProfileRepo.SaveWithoutIdInserts | internal/adapter/repo/device_profile.go:75-78 | saving a zero id is the insert a create makes, with a generated id and the clock only for zero timestamps, so a given update time is kept; only the nil header map is not defaulted |
| ProfileRepo.SaveReplacesWholeRow | internal/adapter/repo/device_profile.go:75-78 | saving an existing id replaces every column of that row, owner included, whoever owned it, stamps the update time, and leaves every other row unchanged |
| ProfileRepo.SaveKeepsConstraints | internal/adapter/repo/device_profile.go:75-78 | a save, whether it replaces or inserts, keeps the table's constraints and non-nil ids |
| ProfileRepo.PatchKeepsConstraints | internal/adapter/repo/device_profile.go:59-64 | a selective update keeps the constraints and non-nil ids |
| ProfileRepo.PatchTouchesOnlyMatch | internal/adapter/repo/device_profile.go:59-64 | a selective update changes no id and no owner, and only the row matching both id and owner |
| ProfileRepo.MergeIdempotent | internal/adapter/repo/device_profile.go:63 | applying the same `Updates` twice at the same time equals applying it once |
| ProfileRepo.MergeEmptyPatch | internal/adapter/repo/device_profile.go:63 | a patch with only zero values changes nothing but the update time |
| ProfileRepo.WithoutId | internal/adapter/repo/device_profile.go:86 | removing an id keeps exactly the rows with other ids, and keeps the constraints |
| ProfileRepo.DeleteRemovesOnlyThatId | internal/adapter/repo/device_profile.go:80-87 | after a delete no row has the id, every other row remains, and deleting an absent id is no error and changes nothing |
| ProfileRepo.WithoutAbsentId | internal/adapter/repo/device_profile.go:86 | removing an id no row has leaves the table as it was |
| ProfileRepo.DeleteKeepsConstraints | internal/adapter/repo/device_profile.go:80-87 | a delete keeps the constraints and non-nil ids |
| ProfileRepo.ProfileStore.constructor | internal/adapter/repo/device_profile.go:17-19 | a new store is an empty table satisfying its constraints |
| ProfileRepo.ProfileStore.ListDeviceProfiles | internal/adapter/repo/device_profile.go:23-49 | an unparseable user id fails; otherwise the result is the owner's page, at most 100 rows, all owned by the caller |
| ProfileRepo.ProfileStore.CreateDeviceProfile | internal/adapter/repo/device_profile.go:51-57 | the new table and the error are those of `Create`, and the constraints still hold |
| ProfileRepo.ProfileStore.UpdateDeviceProfileSelective | internal/adapter/repo/device_profile.go:59-64 | the new table and the error are those of the selective merge, and the constraints still hold |
| ProfileRepo.ProfileStore.GetDeviceProfileByID | internal/adapter/repo/device_profile.go:66-73 | text that is not a UUID is a 22P02 error; otherwise it finds a row exactly when one has the id, and record-not-found otherwise |
| ProfileRepo.ProfileStore.UpdateDeviceProfile | internal/adapter/repo/device_profile.go:75-78 | the new table and the error are those of `Save`, and the constraints still hold |
| ProfileRepo.ProfileStore.DeleteDeviceProfile | internal/adapter/repo/device_profile.go:80-87 | the new table and the error are those of `Delete`, and the constraints still hold |
| ProfileUsecase.MapRepoErr | internal/core/usecase/device_profile.go:129-147 | record-not-found anywhere on the chain is NotFound; otherwise the first PostgreSQL error's code decides (23505 AlreadyExists, 23503 and 23514 InvalidArgument, others Internal); with none it is Internal; the action is the message and the storage error the cause |
| ProfileUsecase.MapRepoErrText | internal/core/usecase/device_profile.go:129-147 | the text of a classified error is the kind's tag, the action and the storage error's own text |
| ProfileUsecase.MaterialisedProfileIsValid | internal/core/usecase/device_profile.go:115-127 | a valid template, given an owner, materialises into a valid profile carrying the template's user agent |
| ProfileUsecase.UpdateGateOwnership | internal/core/usecase/device_profile.go:77-88 | the gate passes exactly when the caller's text parses to the named owner and is a canonical `uuid4`, and the id passes `uuid4`; a caller whose text differs from the owner's lower-case text is NotAuthorized, exactly, even when it parses to the owner; the owner is then refused with InvalidArgument "invalid id" for a non-`uuid4` id, and only after that with "invalid user id" |
| ProfileUsecase.DeleteErrWraps | internal/core/usecase/device_profile.go:105-111 | every storage failure of a delete becomes a domain error wrapping it, NotFound exactly for record-not-found, never NotAuthorized |
| ProfileUsecase.DeleteOutcomeNeverNotFound | internal/core/usecase/device_profile.go:97-113 | a delete fails exactly for an id that is not a canonical `uuid4`, and then changes nothing; otherwise the id is gone, every other row stays, and no error is reported whether or not the row existed |
| ProfileUsecase.UpdateByOtherCallerRefused | internal/core/usecase/device_profile.go:77-81 | a caller who is not the named owner gets NotAuthorized and the table is untouched |
| ProfileUsecase.UpdateTakesOverStoredRow | internal/core/usecase/device_profile.go:74-95 | a successful update of an existing id replaces that row with the request entity whoever owned it |
| ProfileUsecase.ProfileService.constructor | internal/core/usecase/device_profile.go:29-31 | a new service holds the given store and template lookup, and has made no calls |
| ProfileUsecase.ProfileService.PrepareOutcomes | internal/core/usecase/device_profile.go:33-52 | an invalid profile is InvalidArgument with no repository call; any template lookup failure is NotFound, and a found template with a caller id that does not parse is InvalidArgument "invalid user id", both after only the lookup call; without a template the profile goes to the store as given; with one the store gets the template's fields, no template link and the parsed caller as owner |
| ProfileUsecase.ProfileService.CreateOutcomeStores | internal/core/usecase/device_profile.go:33-59 | a failed create stores nothing; a successful one appends one row; without a template the answer is the stored row; with one it is the request entity, while the stored row has the template's name, no link and the caller as owner |
| ProfileUsecase.ProfileService.CreateDuplicateIsAlreadyExists | internal/core/usecase/device_profile.go:54-57 | creating a valid profile under a name its owner already uses is AlreadyExists and stores nothing |
| ProfileUsecase.ProfileService.CreateDeviceProfile | internal/core/usecase/device_profile.go:33-59 | result and new table are those of `CreateOutcome`, the calls made are the template lookup (if any) then the insert, and the constraints still hold |
| ProfileUsecase.ProfileService.ListDeviceProfilesByUserId | internal/core/usecase/device_profile.go:61-72 | forwards caller, page and size unchanged; the result is the store's page, or its failure classified |
| ProfileUsecase.ProfileService.UpdateDeviceProfile | internal/core/usecase/device_profile.go:74-95 | result and new table are those of `UpdateOutcome`; the store is called only when the gate passes |
| ProfileUsecase.ProfileService.DeleteDeviceProfile | internal/core/usecase/device_profile.go:97-113 | result and new table are those of `DeleteOutcome`; the store is called with caller and id only for a `uuid4` id |
| AuthUsecase.CredentialQuery | internal/core/usecase/auth.go:24-26 | the lookup receives only the username |
| AuthUsecase.CheckCredentials | internal/core/usecase/auth.go:23-47 | an error exactly when the lookup fails or the stored id or hash is empty, then NotAuthorized "Unauthorized" wrapping the lookup error; a non-empty id exactly when the stored user is complete and the hash matches, then the stored id; a wrong password is an empty id with no error |
| AuthMiddleware.FirstIndex | internal/pkg/middleware/auth.go:33 | finds the first occurrence of the character, or reports that there is none |
| AuthMiddleware.FirstIndexAfter | internal/pkg/middleware/auth.go:33 | a character behind text free of it is found at that position |
| AuthMiddleware.SplitAtSpace | internal/pkg/middleware/auth.go:22 | splits exactly when there is a space, at the first one, and the parts rejoin to the header |
| AuthMiddleware.ToBytes | internal/pkg/middleware/auth.go:32 | converting byte text to bytes and back gives the text |
| AuthMiddleware.ToBytesOfText | internal/pkg/middleware/auth.go:32 | converting bytes to text and back gives the bytes |
| AuthMiddleware.ParseBasic | internal/pkg/middleware/auth.go:17-42 | an accepted header has a scheme equal to "Basic" ignoring case before its first space and a base64 payload decoding to `user:pass`, with a non-empty user free of colons and a non-empty password |
| AuthMiddleware.BasicHeaderRoundTrip | internal/pkg/middleware/auth.go:17-42 | a Basic header built from any user and password hands exactly those to the credential check, whatever colons the password holds |
| AuthMiddleware.Admit | internal/pkg/middleware/auth.go:15-55 | a request is admitted exactly when the header parses and the check returns no error and a non-empty id, and then that id is stored |
| AuthMiddleware.AdmitTakesAnyNonEmptyId | internal/pkg/middleware/auth.go:49-51 | any non-empty id is admitted whether or not it is a `uuid4` |
| AuthMiddleware.AdmitWithCredentialCheck | internal/pkg/middleware/auth.go:44-53 | wired to the credential check, a request is admitted exactly when the stored user is complete and the password matches, and the stored id is kept |
| AuthMiddleware.RequestCtx.constructor | internal/pkg/middleware/auth.go:16 | a request starts with the given locals and the next handler not yet run |
| AuthMiddleware.BasicAuthCheck | internal/pkg/middleware/auth.go:15-55 | answers 401 exactly when `Admit` refuses, then changing nothing; otherwise stores the id under `auth_user_id` and runs the next handler |
| HttpProfile.ParsePagination | internal/adapter/http/device_profile.go:153-163 | accepts exactly two integers of at least 1 and returns them as read, with no upper bound; the page is reported first |
| HttpProfile.PaginationRoundTrip | internal/adapter/http/device_profile.go:153-163 | every pair of positive 64-bit integers written in decimal is accepted unchanged |
| HttpProfile.PaginationDefaults | internal/adapter/http/device_profile.go:30 | absent or empty parameters mean page 1 of size 20 |
| HttpProfile.UserContext | internal/adapter/http/device_profile.go:140-151 | a context carrying the identity exactly when a non-empty string is stored under `auth_user_id`, and then that string; otherwise the nil context with an empty identity and no error, because the 401 it writes is returned as `c.JSON`'s nil error |
| HttpProfile.UserContextIntended | internal/adapter/http/device_profile.go:140-151 | the intended `userContext`: the identity exactly when it is present, and otherwise the 401 NOT_AUTHORIZED "unauthorized" answer as the handler's result |
| HttpProfile.UserContextAsIntendedWithIdentity | internal/adapter/http/device_profile.go:140-151 | the code as written and as intended agree exactly on requests that carry an identity; on the others the code yields the nil context where the intended 401 stops the request |
| HttpProfile.UserContextAfterMiddleware | internal/adapter/http/device_profile.go:140-151 | what the middleware stores is what the handlers read back, both as written and as intended |
| HttpProfile.UpdateCheckOrder | internal/adapter/http/device_profile.go:83-113 | a bad path id is reported first, and an empty body is a 400 even without identity; a missing identity is 400 "invalid user id in context", not a 401; every failure is 400 INVALID_ARGUMENT; success names the path id and the caller as owner |
| HttpProfile.NoIdentityAnswers | internal/adapter/http/device_profile.go:35-38 | without an identity, once the earlier checks pass, create and update answer 400 "invalid user id in context" and list and delete reach the service's panic, none of them touching the store; the intended answer is the 401 |
| HttpProfile.StorageErrorResponse | internal/core/usecase/device_profile.go:129-147 | a classified storage failure reaches the client as 404, 409, 400 with the action as message, or 500 with the fixed body |
| HttpProfile.CreateDuplicateNameIs409 | internal/adapter/http/device_profile.go:76-78 | a duplicate name for the owner is answered 409 ALREADY_EXISTS "create device profile", and nothing is stored |
| HttpProfile.CreateFromTemplateAnswersWithRequest | internal/adapter/http/device_profile.go:71-80 | a create from a template answers 201 with the request entity (nil id, zero timestamps, the request's name) while the stored row has the generated id and no template link |
| HttpProfile.UpdateWipesOmittedFields | internal/adapter/http/device_profile.go:113-119 | an update that sets only the name stores a row with every other field nil, empty or zero |
| HttpProfile.UpdateIgnoresStoredOwner | internal/adapter/http/device_profile.go:103-119 | a successful update of someone else's row answers 200 and leaves the row owned by the caller |
| HttpProfile.DeleteAnswers | internal/adapter/http/device_profile.go:122-138 | with a valid identity, a delete answers 204 for any `uuid4` id, existing or not, 400 "invalid id" for other UUIDs, and never 404 |
| HttpProfile.ProfileHandler.constructor | internal/adapter/http/device_profile.go:25-27 | the handler wraps the given service |
| HttpProfile.ProfileHandler.ListDeviceProfilesByUserId | internal/adapter/http/device_profile.go:29-50 | bad paging is a 400 with no call; a missing identity is a panic with no repository call; otherwise the repository is called once with the caller, page and size, and the answer is the service's page as 200 or its classified error |
| HttpProfile.ProfileHandler.CreateDeviceProfile | internal/adapter/http/device_profile.go:52-81 | a failed check, including the 400 "invalid user id in context" for a missing identity, is answered and changes nothing; otherwise the table, the calls and the answer are those of the service's `CreateOutcome` |
| HttpProfile.ProfileHandler.UpdateDeviceProfile | internal/adapter/http/device_profile.go:83-120 | a failed check, including the 400 "invalid user id in context" for a missing identity, is answered and changes nothing; otherwise the table, the calls and the answer are those of `UpdateOutcome` |
| HttpProfile.ProfileHandler.DeleteDeviceProfile | internal/adapter/http/device_profile.go:122-138 | a bad path id is a 400 and a missing identity a panic, both changing nothing; otherwise the table and the answer are those of `DeleteOutcome`, 204 on success |

## Left out

- Logging, `context.Context` plumbing, the web framework's routing, and the process wiring in
  `cmd/main.go` are left out. They make no decisions.
- Time and generated ids are inputs. The database's `gen_random_uuid()` becomes a `freshId`
  argument, assumed unused by every row, and the clock becomes `now`.
- bcrypt is an uninterpreted comparison `hashMatches` passed to `AuthUsecase.CheckCredentials`.
  The user store is a function `retrieve`.
- Request binding and struct validation are inputs to the handlers. The bound body is given, or
  None when it does not bind. The validator's message is given, or None when the request passes
  its tags. The request DTO's tags are not part of this model.
- The template repository is a function `lookupTemplate`. The template store's own code is not
  part of this model.
- Uuids.Parse: accepts only the 36-character hyphenated form. The 32-digit, braced and `urn:uuid:`
  forms that `uuid.Parse` also accepts are left out, and so is the looser UUID syntax PostgreSQL
  accepts in `GetDeviceProfileByID`.
- HttpMapper.MapUpdate: a template id that fails to parse becomes the nil UUID. `uuid.Parse` can
  return a partly filled UUID for some malformed inputs; that detail is not modelled.
- Entity.IsUppercase / Entity.UppercaseMeansNoLowerLetter: only ASCII letters are upper-cased. The
  validator's `uppercase` compares with `strings.ToUpper`, which applies Unicode rules, so a
  country code such as `éé` is refused by the code and accepted by the model, and so are the
  create and update outcomes built on `ValidProfile`.
- Ascii.EqualFold: folds ASCII letters only. `strings.EqualFold` also applies Unicode simple
  folding, for example `ſ` against `s`.
- Go strings are byte strings. In the authentication path each character stands for one byte,
  and the Unicode decoding of the credentials is not modelled.
- ProfileRepo.NewestFirst: rows with equal creation times keep their table order. The database
  leaves that order unspecified, so this is one of the orders it may return.
- The database's behaviour beyond the primary key, the `(user_id, name)` unique index and the
  `NOT NULL` columns is not modelled. No check or foreign-key constraints are declared on the
  entities, so the 23503 and 23514 paths are reached only through `MapRepoErr`'s classification
  of errors given to it.
- ProfileRepo.ProfileStore.ListDeviceProfiles: the store uses the unbounded offset, which is the
  corrected behaviour. The 64-bit wrap of the code as written is modelled separately; see
  Findings.
- ProfileUsecase.ProfileService.DeleteDeviceProfile: the service calls the repository port with
  two arguments, the caller's id and the profile id (`internal/core/usecase/device_profile.go:105`),
  while the adapter's delete takes the profile id alone and deletes by it
  (`internal/adapter/repo/device_profile.go:80-86`). The repository port's declaration is not part
  of this model. The model joins the two as follows: the service logs the two-argument call, and the
  store then deletes by id alone, ignoring the caller. The claim that delete is not scoped to the
  owner rests on this reading of the adapter.
- HttpProfile.ProfileHandler: the handler methods follow the code as written on a missing
  identity. The intended 401 is stated only by `HttpProfile.UserContextIntended`. A panic is the
  `Panic` response; what the server process does after it is not modelled.
- Concurrency between requests is left out. Each operation is one atomic step on the table.
- `handleError` is declared on the template handler's type while the profile handler calls it as
  a plain function. It is modelled as the pure function `HttpError.HandleError`.

## Findings

| source | as written | input that shows it | evidently intended | confidence | as-written member | corrected member |
|---|---|---|---|---|---|---|
| internal/adapter/repo/device_profile.go:39 | `offset := (page - 1) * pageSize` in Go's 64-bit `int`. A large page number wraps the offset to 0 or to a negative value, and the ORM then drops the negative offset. | `page=4611686018427387905` (2^62+1) with `page_size=4`: the offset is 2^64, which wraps to 0. The handler accepts any positive 64-bit page. | A page past the owner's last profile is empty. | not executed | ProfileRepo.OffsetWrapReturnsFirstPage | ProfileRepo.ListPagePastEnd |
| internal/adapter/http/device_profile.go:144-147 | `userContext` writes the 401 answer and returns `c.JSON`'s error, which is nil once the body is written, together with a nil context and an empty id. Every handler checks only that error and goes on. | A PUT with a non-empty, valid body and no `auth_user_id` in the request's locals: the 401 body is replaced by 400 "invalid user id in context". A GET of the list without it calls the service with the nil context, whose `ctx.Value` panics. | A request without an identity is answered 401 NOT_AUTHORIZED "unauthorized" and the service is not called. | not executed | HttpProfile.NoIdentityAnswers | HttpProfile.UserContextIntended |
