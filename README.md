# the-hunt core in Dafny

A Dafny model of the core of *the-hunt*, a Go JSON API that tracks companies
and users in PostgreSQL behind bearer-token authentication, per-permission
authorization and per-client rate limiting. The model covers:

- **Rate limiting** (`clients.dfy`): the client registry of
  `internal/data/clients.go` as a class over a map from IP to client, with
  an integer token bucket per client, the limiter lookup that creates or
  refreshes an entry, and one cleanup sweep that drops idle clients.
- **Middleware** (`middleware.dfy`): `authenticate`,
  `requireAuthorization`, `requirePermissions` and `recoverPanic` as
  decision functions over the request's header, the token and user lookup
  results and the request context, returning "call next", "respond" or
  "panic"; `rateLimit` as a method that consults the client registry.
- **Permissions, context and tokens** (`permissions.dfy`, `context.dfy`,
  `tokens.dfy`, `data_tokens.dfy`): permission sets and the all/some test,
  the three context keys with their setters and getters, token generation
  (the digest is a parameter) and both token validators.
- **Data writes and query assembly** (`sqltext.dfy`, `list_query.dfy`,
  `update_query.dfy`, `company_store.dfy`, `user_store.dfy`): SQL text is a
  sequence of literal pieces and numbered references; the list queries, the
  optimistic-concurrency `Update`/`PartialUpdate` statements and the
  `$n` placeholders are built step by step as in the source and proved to
  number their arguments `1..len(args)` in order. The tables are classes
  over maps from id to row. Update and PartialUpdate are conditional on
  the stored version and bump it by one; Insert and Delete are not.
- **Validation and error mapping** (`validator.dfy`, `companies.dfy`,
  `users.dfy`, `password.dfy`, `goerrors.dfy`, `types_errors.dfy`,
  `data_errors.dfy`, `responses.dfy`): the validator class and its rules,
  the company, user, password and token checks, the two `MapError`
  searches over an ordered list of key/value pairs, and the status, message
  and details each error response helper produces.
- **Utilities** (`api_helpers.dfy`, `text.dfy`, `base.dfy`, `filters.dfy`,
  `list_meta.dfy`, `stats.dfy`, `mrwriter.dfy`, `environments.dfy`):
  id parsing, the log message choice, decimal text, truncating division,
  field filters, paging metadata, request statistics, the metrics response
  writer and the environment test.

Go's `map` iteration order is unspecified; wherever the source ranges over
a map and returns at the first match, the model takes the entries as a
sequence in some order, and the lemmas hold for every order.
Regular expressions, URL and mail parsing, bcrypt, SHA-256, random text,
the clock and the database's own errors are parameters of the model.

## Model

| member | source | states |
|---|---|---|
| Environments.IsDevTable | internal/types/environments.go:10-12 | every environment except production and staging counts as development, including qa, development and unknown or empty names |
| Permissions.NewPermissionSet | internal/types/permissions.go:18-20 | the set holds exactly the codes passed, duplicates collapsed, so it is never larger than the list |
| Permissions.HasPerms | internal/types/permissions.go:22-29 | under "all", every required code is held; under any other strategy, at least one is held; a nil held set panics |
| Permissions.NonEmptyIntersection | internal/types/permissions.go:27 | the intersection is non-empty exactly when some required code is held |
| Permissions.EmptyRequirement | internal/types/permissions.go:22-29 | an empty requirement passes under "all" and fails under any other strategy |
| Permissions.AllImpliesSome | internal/types/permissions.go:22-29 | for a non-empty requirement, passing under "all" implies passing under "some" |
| Permissions.OrderFree | internal/types/permissions.go:22-29 | the answer depends only on the set of required codes, not on their order or repetition |
| MetricsWriter.RecordedStatus | cmd/api/mrwriter.go:13-31 | the first call fixes the status: 200 when there is no call or the first call writes the body, otherwise the first header's code |
| MetricsWriter.Recorder.WriteHeader | cmd/api/mrwriter.go:21 | the wrapped writer receives the header call |
| MetricsWriter.Recorder.Write | cmd/api/mrwriter.go:31 | the wrapped writer receives the body; a healthy connection reports all of it written and no error, a broken one none written and its error |
| MetricsWriter.MetricsResponseWriter.New | cmd/api/mrwriter.go:13-18 | a new writer starts at status 200 with no header written, wrapping the given writer |
| MetricsWriter.MetricsResponseWriter.WriteHeader | cmd/api/mrwriter.go:20-27 | the call is always forwarded; the status changes only if nothing was written before; afterwards the header counts as written; the status stays what the forwarded calls determine |
| MetricsWriter.MetricsResponseWriter.Write | cmd/api/mrwriter.go:29-32 | the body is forwarded and the status is kept; afterwards the header counts as written; the wrapped writer's byte count and error are returned unchanged |
| MetricsWriter.MetricsResponseWriter.Unwrap | cmd/api/mrwriter.go:34-36 | returns the wrapped writer itself |
| MetricsWriter.FirstCallWins | cmd/api/mrwriter.go:20-32 | once a first call has fixed the status, no later call changes it |
| MetricsWriter.WriteFirstIs200 | cmd/api/mrwriter.go:29-32 | writing the body before any header leaves the status at 200, whatever headers follow |
| Passwords.PasswordRules | internal/types/password.go:15-19 | all three checks are recorded under "password" |
| Passwords.Validate | internal/types/password.go:15-19 | the validator's errors become the old errors with the three password checks applied in order |
| Passwords.OnlyPasswordKey | internal/types/password.go:15-19 | no message is recorded under any key except "password" |
| Passwords.EmptyPassword | internal/types/password.go:16-17 | an empty password gets "must be provided" and "must be at least 8 bytes long", in that order |
| Passwords.PasswordByLength | internal/types/password.go:17-18 | a non-empty password gets no message from 8 to 128 bytes, only the too-short message below 8 bytes, and only the too-long message above 128 bytes |
| Passwords.Compare | internal/types/password.go:30-42 | nil exactly when bcrypt reports nil; a mismatch becomes ErrPasswordMismatch; any other error is returned unchanged |
| Tokens.Hash | internal/types/tokens.go:27-30 | the hash is the whole SHA-256 digest of the plaintext: exactly 32 bytes |
| Tokens.GenerateToken | internal/types/tokens.go:32-42 | the token carries the plaintext and its digest, the user, the scope and the admin flag, and expires ttl after now |
| Tokens.PlainTokenRules | internal/types/tokens.go:44-47 | both checks are recorded under "token" |
| Tokens.ValidatePlainToken | internal/types/tokens.go:44-47 | the validator's errors become the old errors with the two token checks applied in order |
| Tokens.PlainTokenMessages | internal/types/tokens.go:44-47 | an empty token gets both messages; a 26-byte token gets none; any other non-empty token gets only the length message |
| Tokens.GeneratedTokenValidates | internal/types/tokens.go:32-47 | every 26-character base32 plaintext that rand.Text can return passes PlainToken.Validate with no errors |
| GoErrors.FindMapping | internal/types/errors.go:33-47 | the range loop over the entries in visiting order: it finds the value of a matching key; it finds nothing exactly when every key is an error or a string that compiles and none matches; it panics only at a key that is neither, with MustCompile's or the type switch's message |
| GoErrors.FindMappingByEntries | internal/types/errors.go:33-47 | over errors and strings that compile the loop never panics, and it finds a value exactly when some key matches; whatever it finds is a matching key's value |
| GoErrors.FindMappingOrderFree | internal/types/errors.go:33 | over errors and strings that compile, whose matching keys agree on the value, every visiting order of the map gives the same result |
| GoErrors.BadPatternOrderMatters | internal/types/errors.go:33-41 | a matching key visited before a pattern that does not compile returns its value, while visited after it the loop panics in MustCompile: the order matters once a pattern is invalid |
| TypesErrors.MapError | internal/types/errors.go:27-51 | nil stays nil; over errors and strings that compile, a matched error becomes the value of a matching key and an error no key matches is returned unchanged; a panic needs a key that is not an error or is a string that does not compile |
| TypesErrors.MapErrorOrderFree | internal/types/errors.go:33 | over errors and strings that compile whose matching keys agree, the result does not depend on the order the map is ranged over |
| TypesErrors.TestMapError | internal/types/errors_test.go:1-56 | the package's test table: jawa maps to ewok, pyke maps to hutt, hutt passes through, and nil stays nil, in either visiting order |
| DataErrors.MapError | internal/data/errors.go:22-46 | nil stays nil; over errors and strings that compile, a matched error becomes the value of a matching key and an error no key matches becomes ErrUnknown; a panic needs a key that is not an error or is a string that does not compile |
| DataErrors.MapErrorOrderFree | internal/data/errors.go:28 | over errors and strings that compile whose matching keys agree, the result does not depend on the order the map is ranged over |
| DataErrors.UnknownIsNotDuplicateKey | internal/data/errors.go:14-15 | ErrUnknown has the same text as ErrDuplicateKey, yet errors.Is tells the two apart in both directions |
| DataErrors.FallbackHidesOriginal | internal/data/errors.go:44-45 | when no key matches, the returned error no longer wraps the original, so errors.Is cannot find it |
| Filters.CheckKeys | internal/data/filters.go:34-54 | true exactly when every key of the map is in the whitelist |
| Filters.SortCheck | internal/data/filters.go:43-45 | true exactly when the sort key is in the whitelist |
| Stats.CounterKey | internal/types/stats.go:25 | the key is the status text followed by the code in parentheses, so it ends in ")" |
| Stats.NoParenInNumber | internal/types/stats.go:25 | the decimal text of a code holds no "(" |
| Stats.CounterKeyInjective | internal/types/stats.go:25 | two different int64 codes never share a key, whatever the status texts are |
| Stats.SumRemove | internal/types/stats.go:11-14 | the total of the counts splits at any key |
| Stats.SumUpdate | internal/types/stats.go:26-31 | setting one count changes the total by the difference |
| Stats.RespCounter.New | internal/types/stats.go:16-20 | a new counter is empty |
| Stats.RespCounter.Incr | internal/types/stats.go:22-32 | the code's key gains one (a missing key starts at one), no other key changes, and the total grows by one |
| Stats.RequestStats.New | internal/types/stats.go:48-52 | all totals start at zero with an empty, fresh counter, and the invariant holds |
| Stats.RequestStats.AddResponse | internal/types/stats.go:54-57 | the status count and the response total each grow by one; the invariant that the total equals the sum of the per-status counts is kept; nothing else changes |
| Stats.RequestStats.AddRequest | internal/types/stats.go:59-61 | the request total grows by one and nothing else changes |
| Stats.RequestStats.AddTime | internal/types/stats.go:63-65 | the processing time grows by the duration's whole microseconds and nothing else changes |
| Stats.Microseconds | internal/types/stats.go:64 | nanoseconds are divided by 1000 and truncated toward zero, for negative durations too |
| Base.GoDiv | internal/types/stats.go:64 | Go's integer division: it agrees with Euclidean division on non-negative operands; for every sign the quotient times the divisor is no larger in magnitude than the dividend and falls short of it by less than the divisor, and a non-zero quotient is positive exactly when the operands agree in sign (truncation toward zero) |
| Text.AtoiItoa | internal/types/stats.go:25 | reading back the decimal text of a number gives the number again |
| Text.ItoaInjective | internal/types/stats.go:25 | different numbers get different decimal text |
| Text.ParseInt64 | cmd/api/helpers.go:48 | strconv.ParseInt(s, 10, 64): a value is returned only within the int64 range |
| Text.ParseIntToString | cmd/api/helpers.go:48 | every int64 parses back from its decimal text |
| Text.ByteLen | internal/types/password.go:17-18 | len of a Go string counts UTF-8 bytes: at least one and at most four per character |
| Text.ByteLenAscii | internal/types/tokens.go:46 | an ASCII string has as many bytes as characters |
| Text.Split | cmd/api/middleware.go:71 | strings.Split gives one more piece than there are separators, and no piece holds the separator |
| Text.JoinSplit | cmd/api/middleware.go:71 | joining the pieces of a split with the separator gives back the text |
| Text.SplitJoin | cmd/api/middleware.go:71 | splitting a join of separator-free pieces gives back the pieces |
| ApiHelpers.ParseIdParam | cmd/api/helpers.go:46-57 | no error exactly when the text parses as a positive int64, which is then the id; otherwise the id is 0 with "Int is required", "Negative ids are not allowed" or "0 is not allowed" |
| ApiHelpers.ParseIdRoundTrip | cmd/api/helpers.go:46-57 | the decimal text of every positive int64 is accepted as that id; zero and negative ids are refused with their own messages |
| ApiHelpers.NonNumericId | cmd/api/helpers.go:48-50 | text that starts with neither a sign nor a digit is refused with "Int is required" |
| ApiHelpers.LogMessage | cmd/api/helpers.go:30-36 | the package's log message when it has one, otherwise "Error encountered: " followed by its message; never empty |
| RequestContext.Lookup | cmd/api/context.go:23 | the most recent binding for the key, if there is one; nothing exactly when no binding has that key |
| RequestContext.LookupPush | cmd/api/context.go:17-20 | a new layer answers for its own key and hides no other key |
| RequestContext.SetUser | cmd/api/context.go:17-20 | afterwards the user key answers the new user; the other keys and the header are unchanged |
| RequestContext.SetPerms | cmd/api/context.go:35-38 | afterwards the permissions key answers the new set; the other keys and the header are unchanged |
| RequestContext.SetAdmin | cmd/api/context.go:53-56 | afterwards the admin key answers true; the other keys and the header are unchanged |
| RequestContext.GetUser | cmd/api/context.go:22-33 | panics exactly when no user is bound and dontPanic is not set; with dontPanic set, a missing user is nil |
| RequestContext.GetPerms | cmd/api/context.go:40-51 | panics exactly when no permissions are bound and dontPanic is not set; with dontPanic set, missing permissions are nil |
| RequestContext.GetAdmin | cmd/api/context.go:58-69 | panics exactly when no admin flag is bound and dontPanic is not set; with dontPanic set, a missing flag is false |
| RequestContext.GetAfterSet | cmd/api/context.go:17-69 | each getter returns what its setter just stored, with or without dontPanic |
| RequestContext.SetLeavesOthers | cmd/api/context.go:13-15 | setting one key leaves what the other two getters return unchanged |
| RequestContext.EmptyContext | cmd/api/context.go:22-69 | on a request with nothing bound, each getter panics with its own message, or returns nil or false when dontPanic is set |
| Text.Itoa | internal/data/companies.go:149 | the decimal text of a number is digits only, with a leading zero exactly for zero |
| Text.IntToString | cmd/api/errors.go:60 | a number's text starts with a minus sign exactly when the number is negative |
| Text.ParseItoa | cmd/api/helpers.go:48 | parsing the decimal text of any number up to the int64 maximum gives that number back |
| Text.Utf8Width | internal/types/companies.go:27 | every character takes one to four bytes |
| Middleware.BearerToken | cmd/api/middleware.go:71-78 | a value is found only when the header splits on spaces into exactly "Bearer" and one more part, so the value holds no space |
| Middleware.BearerTokenExactly | cmd/api/middleware.go:71-78 | a header is accepted with value t exactly when it is "Bearer " followed by t and t holds no space |
| Middleware.StricterThanRfc | cmd/api/middleware.go:72 | a lower-case scheme name and a second space are both refused, although section 2.1 of RFC 6750 allows them |
| Middleware.PlainTokenValidIff | cmd/api/middleware.go:82-87 | the presented token passes validation exactly when it is 26 bytes long |
| Middleware.InvalidAuthToken | cmd/api/middleware.go:74 | the invalid-token answer is a 401 that carries the `WWW-Authenticate: Bearer` challenge |
| Middleware.BindUser | cmd/api/middleware.go:105-126 | the request is handed on exactly when both the user and the user's permissions were found, with both bound; a user that is gone is a 404 naming the id; any other user-lookup error is a 500 with "Couldn't find user for token", and a permission-lookup error a 500 with "Couldn't retrieve user permissions", each carrying the error |
| Middleware.Authenticate | cmd/api/middleware.go:55-130 | the Vary header is always set, and a request without an Authorization header goes on with the anonymous user bound |
| Middleware.MalformedHeader | cmd/api/middleware.go:71-76 | a header that is not a bearer header gets the 401 challenge |
| Middleware.BadTokenBeforeLookup | cmd/api/middleware.go:81-87 | a bearer value that is not 26 bytes long gets the 401 before any store is asked, so the answer does not depend on the stores |
| Middleware.TokenLookupFails | cmd/api/middleware.go:89-99 | an unknown token gets the 401; any other lookup failure is a 500 with "Couldn't parse authentication token" |
| Middleware.TokenFound | cmd/api/middleware.go:101-128 | an admin token binds admin without asking the user or permission store; a user token binds the user and then the user's permissions; a user that is gone gets a 404 naming the token's user id; any other user-lookup error is a 500 with "Couldn't find user for token", and a permission-lookup error a 500 with "Couldn't retrieve user permissions" |
| Middleware.AuthenticateNext | cmd/api/middleware.go:70-129 | a request with an authorization header is handed on only with a bearer token that the store found: an admin token binds admin, any other binds the found user and then that user's found permissions |
| Middleware.AuthenticateBinds | cmd/api/middleware.go:55-130 | whatever authenticate hands on carries admin, or the anonymous user, or a real user together with that user's permissions |
| Middleware.RequireAuthorization | cmd/api/middleware.go:132-151 | the request is refused with 401 exactly when it is not admin and its user is the anonymous one; otherwise it goes on unchanged |
| Middleware.RequirePermissions | cmd/api/middleware.go:153-183 | a request that goes on is the request received, unchanged |
| Middleware.PermissionGate | cmd/api/middleware.go:153-183 | the anonymous caller gets 401 before any permission is considered; admin callers and empty requirements pass; a user with bound permissions gets 403 exactly when the permission test fails and goes on with the request unchanged exactly when it succeeds; a user with no permission set bound panics on the nil set |
| Middleware.GateAfterAuthenticate | cmd/api/middleware.go:132-183 | behind authenticate the permission gate never panics on a nil permission set |
| Middleware.PanicResponse | cmd/api/middleware.go:21-27 | the answer to a panic is a 500 with the `Connection: close` header |
| Middleware.RecoverPanic | cmd/api/middleware.go:17-33 | a panic becomes that 500 response, and any other outcome is kept as it is |
| Middleware.RateLimit | cmd/api/middleware.go:35-53 | in development, or with limiting off, the request goes on and the registry is unchanged; otherwise the client's bucket decides, the registry takes the new bucket, and a refused client gets 429 |
| Clients.NewLimiter | internal/data/clients.go:40-43 | a new client's bucket has the registry's rate and burst and starts full |
| Clients.Advance | internal/data/clients.go:62 | the tokens after a refill are the old count plus `rate` per elapsed time unit, capped at the burst; they never drop, and a clock that did not move adds none |
| Clients.Allow | internal/data/clients.go:62 | an event is allowed exactly when a token is there after the refill; it then takes one token, and a refused event changes nothing |
| Clients.AllowManyAtOneInstant | internal/data/clients.go:62 | at a single instant a bucket lets through as many events as it holds tokens, and no more |
| Clients.FreshBurst | internal/data/clients.go:37-48 | a client seen for the first time gets exactly `burst` events of a burst through |
| Clients.AllowManyAfter | internal/data/clients.go:62 | a burst of events at one instant after the last count gets as many through as the refilled bucket holds, and no more |
| Clients.AllowManyState | internal/data/clients.go:62 | events within the bucket at the instant of its last count take one token each |
| Clients.WaitRefills | internal/data/clients.go:62 | an emptied bucket that waits k time units lets through the smallest of the burst size, the burst and k times the rate |
| Clients.OneMorePerTick | internal/data/clients.go:62 | at one token per time unit an emptied bucket refuses at once and admits exactly one event a time unit later |
| Clients.BurstOfFourScenario | internal/data/clients.go:62 | burst 4 at 2 per second: four events at once pass, a fifth is refused, and one half a second later passes |
| Clients.TouchedEntries | internal/data/clients.go:37-48 | after a lookup the ip is present and seen now, keeps its bucket or gets a fresh one, and no other entry changes |
| Clients.Swept | internal/data/clients.go:50-56 | a sweep keeps exactly the clients idle for no longer than the timeout, unchanged |
| Clients.SweptIdempotent | internal/data/clients.go:50-56 | a second sweep at the same instant removes nothing more |
| Clients.EvictedStartsOver | internal/data/clients.go:37-56 | a client removed by a sweep starts over with a full bucket at its next lookup |
| Clients.AllowedStepSeen | internal/data/clients.go:58-63 | IsIpAllowed marks the client seen whatever the verdict, a refusal leaves its bucket as it was, and other clients are untouched |
| Clients.FirstRequestAllowed | internal/data/clients.go:58-63 | a client's first request is allowed exactly when the burst is at least one |
| Clients.ClientMap.New | internal/data/clients.go:26-35 | the registry starts empty, with the configured rate and burst, and takes its cleanup timeout from the cleanup interval |
| Clients.ClientMap.GetLimiter | internal/data/clients.go:37-48 | the registry becomes the looked-up registry and the returned bucket is the ip's entry |
| Clients.ClientMap.Cleanup | internal/data/clients.go:50-56 | the loop deletes exactly the stale clients: the registry becomes the sweep of the old one |
| Clients.ClientMap.IsIpAllowed | internal/data/clients.go:58-63 | the verdict and the new registry are those of the lookup followed by the bucket's decision |
| Clients.ClientMap.CleanCyclePass | internal/data/clients.go:69-76 | one pass of the cleanup cycle is the same sweep |
| Responses.ServerErrorResponse | cmd/api/errors.go:29-39 | the answer is 500 and carries the error; its message is the first one passed, or the default when none is |
| Responses.BadIdResponse | cmd/api/errors.go:41-48 | a bad id is a 400 with "Invalid ID provided", the error, and the parse error's text as details |
| Responses.DuplicateKeyResponse | cmd/api/errors.go:50-55 | a duplicate key is a 400 with "Duplicate key provided" and no error or details |
| Responses.NotFoundResponse | cmd/api/errors.go:57-68 | a missing record is a 404 with "Could not find the record you requested"; the details name the first lookup key when one is given and are empty exactly when none is |
| Responses.RouteNotFoundResponse | cmd/api/errors.go:70-75 | an unknown route is a 404 with "Could not find the route you requested" and no error or details |
| Responses.NotAllowedResponse | cmd/api/errors.go:77-82 | a wrong method is a 405 with "The requested method is not allowed for this resource" and no error or details |
| Responses.BadRequestResponse | cmd/api/errors.go:84-91 | a malformed payload is a 400 with "Invalid request payload", the error, and the decoding error's text as details |
| Responses.FailedValidationResponse | cmd/api/errors.go:93-105 | failed validation is a 422 with "Invalid request payload", whose details are the field errors and whose error text is their encoding |
| Responses.EditConflictResponse | cmd/api/errors.go:107-112 | an edit conflict is a 409 with the source's try-again message and no error or details |
| Responses.RateLimitExceededResponse | cmd/api/errors.go:114-119 | a client over its rate gets a 429 with "Rate limit exceeded" and no error or details |
| Responses.UserNotActivatedResponse | cmd/api/errors.go:121-126 | a user not yet activated gets a 401 with the source's check-your-email message and no error or details |
| Responses.UnauthorizedResponse | cmd/api/errors.go:128-133 | an unknown caller gets a 401 with "Unauthorized. Please try logging in again" and no error or details |
| Responses.ForbiddenResponse | cmd/api/errors.go:135-140 | a known caller without the permission gets a 403 with "Forbidden. Please check your permissions" and no error or details |
| Responses.InvalidTokenResponse | cmd/api/errors.go:142-150 | a bad token is a 401 naming the scope, and the `WWW-Authenticate: Bearer` header is set exactly for the authentication scope |
| Validation.Added | internal/validator/validator.go:30-36 | AddError puts the message at the end of the key's list, creating the list when the key is new, and leaves every other key as it was |
| Validation.Failed | internal/validator/validator.go:50-54 | a key collects at most one message per check |
| Validation.ApplyMessages | internal/validator/validator.go:50-54 | after a series of checks a key is present exactly when it was before or some check for it failed, and its list is the old list followed by the failing checks' messages in call order |
| Validation.ApplyAppend | internal/validator/validator.go:50-54 | running two series of checks one after the other is running their concatenation |
| Validation.Apply3 | internal/validator/validator.go:50-54 | three checks in a row pass through the intermediate maps of the first one and the first two |
| Validation.FailedAppend | internal/validator/validator.go:50-54 | the messages of two series of checks are those of the first followed by those of the second |
| Validation.FailedCons | internal/validator/validator.go:50-54 | the first check contributes its message under its key exactly when it fails |
| Validation.FailedOtherKey | internal/validator/validator.go:50-54 | checks for other keys record nothing under a key |
| Validation.Failed3 | internal/validator/validator.go:50-54 | three checks record, under a key, the failing ones' messages in call order |
| Validation.ApplyEmptyValid | internal/validator/validator.go:22-28 | a new validator stays valid through a series of checks exactly when every check passes |
| Validation.NameRules | internal/types/companies.go:26-27 | the name checks are all under "name" and all pass exactly when the name is non-empty and at most 128 bytes long |
| Validation.Show | internal/validator/validator.go:41-45 | one message is shown as a string, and any other number of messages as the list itself |
| Validation.Validator.New | internal/validator/validator.go:22-24 | a new validator has no errors |
| Validation.Validator.Valid | internal/validator/validator.go:26-28 | the validator is valid exactly when no key holds a message |
| Validation.Validator.AddError | internal/validator/validator.go:30-36 | the errors map becomes the map with the message added, and every key still holds at least one message |
| Validation.Validator.Check | internal/validator/validator.go:50-54 | a passing check changes nothing and a failing one adds its message |
| Validation.Validator.Errors | internal/validator/validator.go:38-48 | the shown map has the same keys, each key shown as its one message or as its list, and a list is shown only when it has several messages |
| Validation.PermittedValue | internal/validator/validator.go:56-58 | a value is permitted exactly when it occurs in the permitted list |
| Validation.NoDuplicatesSnoc | internal/validator/validator.go:67-69 | a list extended by one value is free of duplicates exactly when the list was and the value is new |
| Validation.UniqueStep | internal/validator/validator.go:67-69 | each turn of the loop keeps the seen map's keys equal to the values so far, and its size equal to their count exactly when they are distinct |
| Validation.Unique | internal/validator/validator.go:64-72 | the answer is true exactly when no two positions of the list hold the same value |
| Users.Deref | internal/types/users.go:28 | the anonymous user points to a zero user |
| Users.IsAnonymous | internal/types/users.go:42-44 | a user found anonymous is non-nil and zero |
| Users.AnonymousIsIdentity | internal/types/users.go:28-44 | anonymity is pointer identity: the anonymous pointer is anonymous, while nil and another pointer to a zero user are not |
| Users.EmailRules | internal/types/email.go:11-15 | the e-mail checks are all recorded under "email" |
| Users.ValidateEmail | internal/types/email.go:11-15 | the validator's errors become those of the two e-mail checks run in order |
| Users.ValidateUser | internal/types/users.go:31-40 | the validator's errors become those of the name checks, then the e-mail checks, then the password checks when a password is present |
| Users.ValidatePartialUser | internal/types/users.go:46-59 | the validator's errors become those of the checks of each present field, in field order |
| Users.EmptyPasswordPasses | internal/types/users.go:37-39 | a user without a password gets no password message, and is valid when its name and e-mail are good |
| Users.EmailAlwaysChecked | internal/types/users.go:35 | the e-mail messages of a user are exactly those of the e-mail checks, whatever the rest of the user holds |
| Users.PartialUserFailed | internal/types/users.go:46-59 | the messages under any key are those of the name, e-mail and password checks of the present fields, in that order |
| Users.PartialUserFields | internal/types/users.go:46-59 | an absent field records nothing under its key, and a present empty password gets both the missing and the too-short message |
| Users.FieldFailed | internal/types/users.go:46-59 | the messages under a field's key come from that field's own checks alone |
| Companies.Items | internal/types/companies.go:31-32 | a nil stack has no items |
| Companies.StackRules | internal/types/companies.go:32-34 | the stack checks are all recorded under "tech_stack" |
| Companies.UrlRules | internal/types/companies.go:29 | the URL check is recorded under "url" |
| Companies.CheckStack | internal/types/companies.go:32-34 | the validator's errors become those of the three stack checks in order, the last on what Unique reports |
| Companies.Validate | internal/types/companies.go:25-35 | the validator's errors become those of the name, URL, stack-provided and stack checks, in that order |
| Companies.ValidatePartial | internal/types/companies.go:37-52 | the validator's errors become those of the checks of each present field, in field order |
| Companies.CompanyFailed | internal/types/companies.go:25-35 | the messages under any key are those of the name, URL, provided and stack checks, in that order |
| Companies.CompanyMessages | internal/types/companies.go:25-35 | a company gets a name message exactly when its name is empty or over 128 bytes, a URL message exactly when the URL does not parse, and a nil stack gets both the missing and the empty message |
| Companies.UrlMessages | internal/types/companies.go:29 | there is one URL message exactly when the URL does not parse |
| Companies.NilStackMessages | internal/types/companies.go:31-32 | a nil stack is reported both as missing and as empty |
| Companies.CompanyNameFailed | internal/types/companies.go:26-27 | the name messages come from the name checks alone |
| Companies.CompanyUrlFailed | internal/types/companies.go:29 | the URL messages come from the URL check alone |
| Companies.CompanyStackFailed | internal/types/companies.go:31-34 | the stack messages are the missing-stack one followed by the stack checks' own |
| Companies.NameMessages | internal/types/companies.go:26-27 | the name checks fail exactly when the name is empty or over 128 bytes |
| Companies.StackMessages | internal/types/companies.go:32-34 | a stack of more than five items and a stack with a repeated item each get their own message, and a non-empty stack of at most five distinct items gets none |
| Companies.PartialLikeCompany | internal/types/companies.go:37-52 | a partial update with every field present gets, under each key, the messages a company with those values would get |
| Companies.PartialFailed | internal/types/companies.go:37-52 | the messages under any key are those of the present name, URL and stack checks, in that order |
| Companies.PartialAbsentFields | internal/types/companies.go:37-52 | a field absent from a partial update records nothing under its key |
| Companies.PartialAbsentKey | internal/types/companies.go:37-52 | an absent field's key gets no message |
| DataTokens.GenerateToken | internal/data/tokens.go:28-37 | the token carries the plaintext and its digest, copies the user and the scope, and expires ttl after now |
| DataTokens.TokenRules | internal/data/tokens.go:44-47 | both checks of this package are recorded under "plaintext" |
| DataTokens.Validate | internal/data/tokens.go:44-47 | the validator's errors become the old errors with the two plaintext checks applied in order |
| DataTokens.TokenMessages | internal/data/tokens.go:45-46 | an empty plaintext gets only "must be provided"; a 26-byte one gets only the length message; every other non-empty one passes, the opposite of the newer check on every non-empty plaintext |
| DataTokens.GeneratedTokenRejected | internal/data/tokens.go:28-47 | every token made from a 26-character base32 plaintext fails this package's check |
| DataTokens.ActivationScopesDiffer | internal/data/tokens.go:13 | this package's activation scope, "actiation", is not the newer package's "activation" |
| ListMeta.NewListMetadata | internal/data/helpers.go:34-46 | no records give all-zero metadata whatever the filters; otherwise a nil page or page size panics, a zero page size panics on the division, and the metadata copies the page and page size, starts at page 1 and carries the record count |
| ListMeta.LastPageIsCeiling | internal/data/helpers.go:43 | with records and a positive page size the last page is the ceiling of records over page size: the pages before it hold fewer than all records and the pages up to it hold them all |
| ListQuery.SearchParts | internal/data/companies.go:146-154 | the j-th search entry gives the clause `key ~* $n` with n one past the arguments before it |
| ListQuery.InParts | internal/data/companies.go:156-161 | the j-th `in` entry gives the clause `$n = any(key)` with n one past the arguments before it |
| ListQuery.EntryArgs | internal/data/companies.go:146-161 | each entry contributes its value as one argument, in visiting order |
| ListQuery.ManyArgs | internal/data/companies.go:138-183 | the arguments are one per search and `in` entry, plus, when both paging pointers are set, the page size and the offset as the last two |
| ListQuery.RenderSearchPart | internal/data/companies.go:149 | a search clause reads `key ~* $n` |
| ListQuery.RenderInPart | internal/data/companies.go:159 | an `in` clause reads `$n = any(key)` |
| ListQuery.RenderPagingPart | internal/data/companies.go:182 | the paging clause reads `limit $n-1 offset $n` |
| ListQuery.ManyTexts | internal/data/companies.go:139-183 | the statement's parts are the head, then "where" and the clauses joined with " and " when there are any, then the paging clause when paging is set |
| ListQuery.SearchStep | internal/data/companies.go:147-149 | one turn of the search loop appends the entry's value and its clause numbered by the new argument count |
| ListQuery.InStep | internal/data/companies.go:157-159 | one turn of the `in` loop appends the entry's value and its clause numbered by the new argument count |
| ListQuery.WhereClauses | internal/data/companies.go:144-161 | the two loops leave the arguments equal to the entries' values in order and the clauses equal to the rendered search and `in` clauses |
| ListQuery.GetManyQuery | internal/data/companies.go:137-185 | the assembled query is the rendering of the statement's pieces and the arguments are those the statement numbers |
| ListQuery.EntriesMeantAt | internal/data/companies.go:147-159 | with distinct keys each entry's reference is meant for that entry's value |
| ListQuery.EntriesMeantKeys | internal/data/companies.go:147-159 | every meant reference belongs to some entry |
| ListQuery.ColumnsInjective | internal/data/companies.go:146-183 | search, `in`, limit and offset references never name one another |
| ListQuery.RecordCount | internal/data/companies.go:198-220 | the count handed to the metadata is 0 when no row came back and the rows' `count(*) over ()` column otherwise |
| ListQuery.ListedKeysPlain | internal/data/companies.go:36-38 | keys taken from a list of plain column names are plain |
| ListQuery.SearchPartBound | internal/data/companies.go:148-149 | a search clause numbers exactly the argument appended with it |
| ListQuery.InPartBound | internal/data/companies.go:158-159 | an `in` clause numbers exactly the argument appended with it |
| ListQuery.MeantSearch | internal/data/companies.go:147-149 | each search entry's reference is meant for its value |
| ListQuery.MeantIn | internal/data/companies.go:157-159 | each `in` entry's reference is meant for its value |
| ListQuery.WherePartBound | internal/data/companies.go:144-161 | the j-th clause numbers the j-th argument |
| ListQuery.WherePartPlain | internal/data/companies.go:146-161 | with plain keys no clause's literal text holds or starts a `$n` |
| ListQuery.WhereBound | internal/data/companies.go:163-164 | the clauses joined with " and " number the entries' arguments $1 onwards in order |
| ListQuery.WherePlain | internal/data/companies.go:163-164 | with plain keys the joined clauses hold no literal `$n` |
| ListQuery.PagingPartBound | internal/data/companies.go:180-183 | the paging clause numbers the page size and the offset as the last two arguments |
| ListQuery.MeantPaging | internal/data/companies.go:181 | `limit` is meant for the page size and `offset` for (page - 1) * page size |
| ListQuery.HeadWhereBound | internal/data/companies.go:139-165 | the head and the where-clauses joined with spaces number the entries' arguments |
| ListQuery.PagingPlain | internal/data/companies.go:182 | the paging clause holds no literal `$n` |
| ListQuery.ManyPlain | internal/data/companies.go:139-185 | with plain names no literal text of the statement holds or starts a `$n` |
| ListQuery.PagedBound | internal/data/companies.go:180-185 | with paging the statement numbers every argument, limit and offset last |
| ListQuery.UnpagedBound | internal/data/companies.go:163-185 | without paging the head and the where-clauses number every argument |
| ListQuery.GetManyWellBound | internal/data/companies.go:137-185 | the statement's placeholders are exactly $1..$len(args) in order, and each numbers the argument meant for it: an entry's value, the page size or the offset |
| SqlText.PlaceholderOfRef | internal/data/companies.go:149 | the text `$n` written for argument n is read back as the single reference n |
| SqlText.PlaceholdersAppend | internal/data/companies.go:185 | the references of two texts joined where no number runs across the seam are those of the first followed by those of the second |
| SqlText.PlaceholdersOfRender | internal/data/companies.go:185 | when no literal text holds or starts a `$n`, the references PostgreSQL reads in a statement are exactly those its pieces number, in order |
| SqlText.RenderAppend | internal/data/companies.go:185 | the text of two runs of pieces is the text of the first followed by the text of the second |
| SqlText.RenderJoin | internal/data/companies.go:163-185 | joining the texts of the groups with a separator is the text of the groups joined as pieces |
| SqlText.BoundAppend | internal/data/companies.go:148-149 | appending a run that numbers the next arguments to one that numbers the first ones numbers them all |
| SqlText.JoinBound | internal/data/companies.go:163-164 | groups that each number one argument in turn, joined with a separator, number all the arguments in order |
| SqlText.JoinPlain | internal/data/companies.go:163-185 | groups joined with a plain separator keep their literals plain |
| UpdateQuery.SetPieces | internal/data/companies.go:263-279 | each field gives one assignment and one reference, in order |
| UpdateQuery.FieldArgs | internal/data/companies.go:263-279 | the j-th argument is the j-th field's value |
| UpdateQuery.SnocGood | internal/data/companies.go:263-279 | adding a field for a column not used yet keeps the columns distinct and clear of id and version |
| UpdateQuery.FieldsMeantAt | internal/data/companies.go:263-279 | with distinct columns each field's column is meant for that field's value |
| UpdateQuery.SetBound | internal/data/companies.go:262-279 | the assignments number the fields' values in order, starting at the first free number |
| UpdateQuery.SetPlain | internal/data/companies.go:263-279 | with plain column names the assignments hold no literal `$n` |
| UpdateQuery.TailIndices | internal/data/companies.go:281-284 | the closing condition references `$i` and then `$i+1` |
| UpdateQuery.TailBound | internal/data/companies.go:281-285 | the closing condition numbers the id and then the version, the last two arguments |
| UpdateQuery.MeantFixed | internal/data/companies.go:282 | the id and version references are meant for the record's id and the version the caller read |
| UpdateQuery.MeantFields | internal/data/companies.go:263-279 | every field's column is meant for that field's value |
| UpdateQuery.PartialHeadBound | internal/data/companies.go:254-260 | the opening assigns updated_at from `$1`, the first argument |
| UpdateQuery.PartialHeadPlain | internal/data/companies.go:254-257 | the opening holds no literal `$n` besides its reference |
| UpdateQuery.TailPlain | internal/data/companies.go:281-284 | the closing condition holds no literal `$n` besides its references |
| UpdateQuery.PartialBinds | internal/data/companies.go:254-285 | the partial statement numbers the time, the present fields' values, the id and the version, in that order |
| UpdateQuery.PartialPlain | internal/data/companies.go:254-284 | the partial statement holds no literal `$n` |
| UpdateQuery.PartialMeant | internal/data/companies.go:254-285 | with distinct columns other than updated_at, each reference of a partial statement is meant for its value |
| UpdateQuery.PartialWellBound | internal/data/companies.go:249-285 | a partial update passes the present fields plus three arguments, and its placeholders are exactly $1..$n in order, each numbering the value meant for it |
| UpdateQuery.FullTailBound | internal/data/companies.go:227-228 | after the version bump the condition numbers the id and the version as the last two arguments |
| UpdateQuery.FullBinds | internal/data/companies.go:225-238 | the full statement numbers every field's value and then the id and the version |
| UpdateQuery.FullHeadBound | internal/data/companies.go:226-227 | the first assignment numbers the first field as `$1` |
| UpdateQuery.FullPlain | internal/data/companies.go:225-230 | the full statement holds no literal `$n` |
| UpdateQuery.FullWellBound | internal/data/companies.go:224-238 | a full update passes the fields plus two arguments, and its placeholders are exactly $1..$n in order, each numbering the value meant for it |
| UpdateQuery.TailText | internal/data/companies.go:281-284 | the closing condition reads ` where id = $i and version = $i+1 returning ...` |
| UpdateQuery.HeadText | internal/data/companies.go:254-257 | the opening reads `update <table> set updated_at = $1, version = version + 1` |
| UpdateQuery.RenderSetSnoc | internal/data/companies.go:264 | adding a field appends `, column = $n` to the statement text |
| UpdateQuery.PartialStart | internal/data/companies.go:254-262 | before any field the text is the opening and the only argument is the time |
| UpdateQuery.PartialSnoc | internal/data/companies.go:263-267 | one present field appends its assignment to the text and its value to the arguments |
| UpdateQuery.AppendField | internal/data/companies.go:263-267 | the text and arguments built so far stay those of the fields seen, and the counter stays two past them |
| UpdateQuery.PartialFinish | internal/data/companies.go:281-285 | appending the closing condition and the id and version gives the partial statement and its arguments |
| CompanyStore.MapErr | internal/data/companies.go:80-83 | the mapped error is absent exactly when the statement's error is |
| CompanyStore.NoRowsMapped | internal/data/companies.go:69-304 | a missing row becomes ErrRecordNotFound for the version lookup and ErrEditConflict for both updates, whatever the patterns match and whether they compile |
| CompanyStore.DriverErrorMapped | internal/data/companies.go:69-304 | when the duplicate-key pattern compiles, any other database error becomes ErrDuplicateKey where the statement maps the pattern and its text matches, and ErrUnknown otherwise; when it does not compile, those statements panic |
| CompanyStore.UpdateBumpsVersion | internal/data/companies.go:224-247 | an update goes through exactly when the stored version is the caller's; it then stores the caller's fields, the time and the version one higher, hands that version back and touches no other row; otherwise it is an edit conflict that changes nothing |
| CompanyStore.StaleUpdateConflicts | internal/data/companies.go:227-228 | once an update went through, sending the same company again is an edit conflict, while sending it with the version handed back goes through |
| CompanyStore.PartialFields | internal/data/companies.go:262-279 | a partial update assigns at most three fields |
| CompanyStore.PatchedFields | internal/data/companies.go:254-284 | a partial update sets exactly the present fields, keeps the others and the id and creation time, and always moves updated_at to now and the version up by one |
| CompanyStore.PatchedAllIsUpdated | internal/data/companies.go:224-304 | with every field present a partial update stores what a full update of those values stores |
| CompanyStore.PartialStepRows | internal/data/companies.go:249-304 | a partial update goes through exactly when the stored version is the caller's, returns the stored row and touches no other; otherwise it is an edit conflict returning a company holding only the id |
| CompanyStore.PartialColumns | internal/data/companies.go:262-279 | a partial update assigns each column at most once and never id, version or updated_at |
| CompanyStore.PartialStatementWellBound | internal/data/companies.go:249-285 | the partial statement's placeholders run $1..$len(args): `$1` is the time, each present field's reference numbers its new value, and id and version take the last two |
| CompanyStore.PartialMeant | internal/data/companies.go:263-279 | each present field's column is meant for that field's new value |
| CompanyStore.PartialAssignments | internal/data/companies.go:254-279 | the text and arguments built are those of the opening and the present fields, and the counter is two past the fields |
| CompanyStore.PartialUpdateQuery | internal/data/companies.go:254-285 | the statement sent is the rendering of the partial statement's pieces, with the time, the present fields' values, the id and the version |
| CompanyStore.UpdateStatementWellBound | internal/data/companies.go:225-238 | Update's fixed statement numbers its six arguments $1..$6 in order, each for its own column |
| CompanyStore.GetMany | internal/data/companies.go:137-222 | a failed query returns its error as it is and nothing else; otherwise the rows come back with the metadata for the count the last row carried |
| CompanyStore.ListStatementWellBound | internal/data/companies.go:137-185 | for whitelisted search and `in` keys the list statement's placeholders run $1..$len(args), each numbering the value meant for it |
| CompanyStore.ListHeadPlain | internal/data/companies.go:139-142 | the select list holds no `$` |
| CompanyStore.ListKeysPlain | internal/data/companies.go:36-38 | the whitelisted keys hold no `$` and start with no digit |
| CompanyStore.CompanyTable.constructor | internal/data/companies.go:31-34 | the table starts empty with the sequence at 1 |
| CompanyStore.CompanyTable.GetVersion | internal/data/companies.go:69-84 | the stored version is returned exactly when the row is there and the database reports nothing; a missing row is ErrRecordNotFound, another error ErrUnknown, and the version is then 0 |
| CompanyStore.CompanyTable.Insert | internal/data/companies.go:86-110 | the row gets the next id, now as both times and version 1, scanned back into the company; a database error changes nothing and is mapped |
| CompanyStore.CompanyTable.Update | internal/data/companies.go:224-247 | the table, company and error are those of the version-checked update; a database error changes nothing and is mapped |
| CompanyStore.CompanyTable.PartialUpdate | internal/data/companies.go:249-304 | the table, company and error are those of the version-checked partial update; a database error changes nothing and is mapped |
| CompanyStore.CompanyTable.Delete | internal/data/companies.go:306-330 | a database error is returned as it is; otherwise the row is gone, and the error is ErrRecordNotFound exactly when there was no row |
| UserStore.MapErr | internal/data/users.go:33-36 | the mapped error is absent exactly when the statement's error is |
| UserStore.NoRowsMapped | internal/data/users.go:97-367 | a missing row becomes ErrRecordNotFound for the lookups and ErrEditConflict for both updates, whatever the patterns match and whether they compile |
| UserStore.DriverErrorPassesThrough | internal/data/users.go:39-367 | when the duplicate-key pattern compiles, any other database error becomes ErrDuplicateKey where the statement maps the pattern and its text matches, and is otherwise returned unchanged; when it does not compile, those statements panic |
| UserStore.LoginStep | internal/data/users.go:118-131 | login yields a user exactly when it yields no error |
| UserStore.LoginOrder | internal/data/users.go:118-131 | an unknown address is ErrRecordNotFound and an unactivated user ErrUserNotActivated whatever the password; an activated user gets in exactly when bcrypt accepts the password, and a mismatch is ErrPasswordMismatch |
| UserStore.Scanned | internal/data/users.go:134-160 | a user read back by these statements carries the id, times, name, e-mail and version, and neither the activation flag nor any password |
| UserStore.GeneratedTokenFound | internal/data/users.go:134-158 | a token GenerateToken made and stored under its digest is found again from the digest of its plaintext: for the same scope exactly until it expires, never for another scope |
| UserStore.TokenExpiryStrict | internal/data/users.go:136-143 | a token expiring at the very instant of the request, or of another scope, does not match, while one expiring later does |
| UserStore.UpdateBumpsVersion | internal/data/users.go:246-268 | an update goes through exactly when the stored version is the caller's; it then stores the name and e-mail, the time and the version one higher, keeps the hash and activation flag, hands that version back and touches no other row; otherwise it is an edit conflict that changes nothing |
| UserStore.StaleUpdateConflicts | internal/data/users.go:250 | once an update went through, sending the same user again is an edit conflict, while sending it with the version handed back goes through |
| UserStore.RangeAccepted | internal/data/users.go:246-259 | a statement whose references run 1..len(args) in order references exactly the arguments passed |
| UserStore.AsWrittenUpdateRejected | internal/data/users.go:246-259 | the Update statement as written references $1, $2, $4, $5, $6 with five arguments, so no reading of it binds them |
| UserStore.AsWrittenIndices | internal/data/users.go:249-250 | the references as written are 1, 2, 4, 5, 6 |
| UserStore.HeadIndices | internal/data/users.go:249 | the first assignment references $1 |
| UserStore.MidIndices | internal/data/users.go:249 | the e-mail and time assignments reference $2 and $4 |
| UserStore.AsWrittenPlain | internal/data/users.go:247-251 | the statement as written holds no literal `$n` besides its references |
| UserStore.FullTailIndices | internal/data/users.go:249-250 | after the version bump the condition references `$n` and `$n+1` |
| UserStore.HeadMidPlain | internal/data/users.go:248-249 | the assignments hold no literal `$n` |
| UserStore.HeadPlain | internal/data/users.go:248-249 | the opening holds no literal `$n` |
| UserStore.MidPlain | internal/data/users.go:249 | the e-mail and time assignments hold no literal `$n` |
| UserStore.UpdateColumns | internal/data/users.go:249 | the corrected statement assigns three distinct usable columns |
| UserStore.UpdateFieldArgs | internal/data/users.go:253-259 | the corrected statement's fields carry the five arguments Update passes, in order |
| UserStore.UpdateStatementWellBound | internal/data/users.go:246-259 | the corrected statement numbers the same five arguments $1..$5 in order, each for its own column, and is accepted |
| UserStore.PartialFields | internal/data/users.go:332-343 | a partial update assigns at most the name and the e-mail, never a password |
| UserStore.PatchedFields | internal/data/users.go:324-349 | a partial update sets exactly the present name and e-mail, keeps the hash and activation flag even when a password came with it, and always moves updated_at to now and the version up by one |
| UserStore.PartialStepRows | internal/data/users.go:319-367 | a partial update goes through exactly when the stored version is the caller's, returns the row's id, name, e-mail and version but no hash, and touches no other row; otherwise it is an edit conflict returning a user holding only the id |
| UserStore.PartialColumns | internal/data/users.go:332-343 | a partial update assigns each column at most once and never id, version or updated_at |
| UserStore.PartialStatementWellBound | internal/data/users.go:319-349 | the partial statement's placeholders run $1..$len(args): `$1` is the time, each present field's reference numbers its new value, id and version take the last two, and the statement is accepted |
| UserStore.PartialAssignments | internal/data/users.go:324-343 | the text and arguments built are those of the opening and the present fields, and the counter is two past the fields |
| UserStore.PartialUpdateQuery | internal/data/users.go:324-349 | the statement sent is the rendering of the partial statement's pieces, with the time, the present fields' values, the id and the version |
| UserStore.SearchOnly | internal/data/users.go:177-188 | the users' list keeps the search and paging filters and drops any `in` filter |
| UserStore.GetMany | internal/data/users.go:162-244 | a failed query returns its error as it is and nothing else; otherwise the rows come back with the metadata for the count the last row carried |
| UserStore.ListStatementWellBound | internal/data/users.go:162-207 | for whitelisted search keys the list statement's placeholders run $1..$len(args), each numbering the value meant for it, with two more arguments only when paging is set |
| UserStore.ListHeadPlain | internal/data/users.go:164-175 | the select list holds no `$` |
| UserStore.ListKeysPlain | internal/data/users.go:19 | the whitelisted keys hold no `$` and start with no digit |
| UserStore.UserTable.constructor | internal/data/users.go:14-17 | the table starts empty with the sequence at 1 |
| UserStore.UserTable.GetForLogin | internal/data/users.go:97-132 | a database error is mapped and yields no user; otherwise the result is the login step on the row with that address, and a user is returned only when it is stored, activated, has that address and holds no plaintext |
| UserStore.UserTable.GetForToken | internal/data/users.go:134-160 | there is no error exactly when the database reports nothing and the token matches; the user is then the token owner's row as scanned, and otherwise the zero user with ErrRecordNotFound or the mapped error |
| UserStore.UserTable.Insert | internal/data/users.go:39-67 | the row gets the next id, now as both times, version 1, the hash but no plaintext, and is not activated; a database error changes nothing and is mapped |
| UserStore.UserTable.Update | internal/data/users.go:246-268 | with the statement corrected, the table, user and error are those of the version-checked update; a database error changes nothing and is mapped |
| UserStore.UserTable.PartialUpdate | internal/data/users.go:319-367 | the table, user and error are those of the version-checked partial update; a database error changes nothing and is mapped |
| UserStore.UserTable.Delete | internal/data/users.go:369-393 | a database error is returned as it is; otherwise the row is gone, and the error is ErrRecordNotFound exactly when there was no row |

## Left out

- Concurrency: the mutex around the client registry, the read/write lock around the statistics and the `CleanCycle` goroutine with its endless sleep loop; one sweep (`Clients.ClientMap.Cleanup`) is modelled, run sequentially.
- The floating-point refill arithmetic of `golang.org/x/time/rate`: each client's limiter is an integer token bucket with the configured rate and burst.
- SQL execution through `database/sql` and `lib/pq`: tables are maps from id to row, list rows come from a parameter, and whitespace inside the statements is not reproduced.
- `RowsAffected` and `Scan` failures, other than the database error passed in as a parameter.
- Strings are sequences of Unicode characters, so only valid UTF-8 is modelled: a Go string holding invalid UTF-8 (an Authorization header with stray bytes, say) has no counterpart, and `Text.ByteLen` counts the UTF-8 encoding of well-formed text only.
- SHA-256, `rand.Text`, bcrypt, `regexp`, `net/url` and `net/mail` are parameters (a digest function, a plaintext, a comparison result, a matcher, a URL predicate, an address predicate).
- MetricsWriter.Recorder.Write: the underlying writer either takes the whole body or fails with nothing written; a Go `io.Writer` that reports a short write (`0 < n < len(b)`) is not modelled.
- `NewSearchFields`, `NewSortFields` and `NewInFields` (internal/data/filters.go:56-66): type conversions of their argument list; a safelist is that sequence of strings itself.
- `regexp.MustCompile` is the matcher's compile verdict: a pattern it refuses panics with `regexp: Compile("<pattern>"): <reason>`, without `strconv.Quote`'s escaping. The stores' Insert and Update take an engine that compiles their `.*duplicate key.*` literal, which is valid RE2 syntax.
- `http.StatusText`, JSON reading and writing (`readJSON`, `writeJSON`, `MarshalJSON`) and the serialisation of the error body; responses are records of status, headers, message and details.
- The sort clause in the list queries (`f.Sort.FromOldest()`), whose type is not part of this model.
- int64 wrap-around of ids, versions, counters and page arithmetic: integers are unbounded.
- Column defaults of the schema, which is not part of this model: Insert assumes the database gives a new row version 1 and the statement's instant as both times, and sends back the next id; the Go code only scans `returning id, created_at, updated_at, version`.
- `pq.Array` of a nil versus an empty tech stack: both are the same sequence of strings here.
- Pointers and aliasing: the source writes the new version back through the caller's pointer; the model returns the updated value.
- `companies.GetOne`, and `users.GetVersion`, `GetOne`, `Activate` and `DeleteTokensForUser`: plain lookups and deletes outside the core.
- `Insert`, `New` and `DeleteForUser` of `internal/data/tokens.go`: SQL I/O around `generateToken`, which is modelled.
- The users list query ignores its `in` filters as the source does; only the search filters shape the statement.
- `fmt.Sprintf` on `$%d` references is modelled by rendering a reference piece.
- `MaybeDie`/`Die`, logging output and the logger itself; `logError` is modelled by the message it logs.
- Lines 40-67 of `internal/data/companies.go` repeat the company validation of `internal/types/companies.go`; it is modelled once.
- Outbound mail, configuration, handlers, routes, the server and the developer scripts.

## Findings

| source | as written | input that shows it | evidently intended | confidence | as-written member | corrected member |
|---|---|---|---|---|---|---|
| internal/data/tokens.go:46 | Validate records "must not be exactly 26 bytes" when the plaintext is exactly 26 bytes long; check and message agree, and no code in the repository calls this validator (the token checks at cmd/api/middleware.go:83 and cmd/api/users.go:123 use the `types` PlainToken.Validate) | any token from this package's own `generateToken`, whose plaintext is 26 base32 characters: this package's validator rejects every token its generator makes | probably a plaintext of exactly 26 bytes, as `internal/types/tokens.go:46` requires; the dead validator makes this uncertain | not executed | DataTokens.GeneratedTokenRejected | Tokens.GeneratedTokenValidates |
| internal/data/users.go:246-259 | `set name = $1, email = $2, updated_at = $4 ... where id = $5 and version = $6` with five arguments | any user: the statement references $4, $5 and $6 but never $3, and $6 has no argument | number the references $1..$5 in argument order | not executed | UserStore.AsWrittenUpdateRejected | UserStore.UpdateStatementWellBound |
