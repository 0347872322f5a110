# Model of the lusoiam identity server

lusoiam signs users in (password, upstream provider, second factor), keeps their sessions, and hands out OIDC tokens and
CAS tickets. Its state lives in SQL tables that many requests change at once through small statements. This project
models those statements and the logic around them, and proves what every run keeps.

How it is built:

- Each SQL statement is one atomic step over a table, a map from id to row. Classes (`Store`, `Service`, `Handler`,
  `Limiter`, `AuditLog`, `KeyManager`, `JWKSCache`, `Patch`) carry the state and are proved equal to functions on it.
  Where requests run concurrently a second view lets the same statements of any number of callers interleave
  (`OidcWorld`, `CasTickets`, `BackupCodes`, `Lockout`, `Mfa`), with one clock that never goes back and history that no
  step reads.
- `OidcStore`, `OidcService`, `OidcWorld`, `OidcFamilies`, `OidcSweep`: authorization codes, access and refresh tokens.
  `CasTickets`, `CasVerdicts`: service tickets and sessions. `BackupCodes`, `Mfa`, `MfaProvenance`, `MfaHandlers`:
  second factors. `Lockout`: failed passwords. `Federation`: accounts and upstream identities. `KeyFiles`, `KeyManager`:
  signing keys. `RateLimit`, `ClientIp`: throttling. `Patterns`, `SqlBuilders`: text and statements that must keep a
  meaning. `Codec`, `Scopes`, `Randomness`, `Partitions`: printers, parsers, sampling, the calendar.

What is taken as given: fresh random ids; ideal hashing, MAC and signatures; read-committed transactions, row locks and
foreign keys as the migrations declare them; a failing DEFAULT partition when a new partition would cover its rows.
Random bytes, clock readings, ids, row orders and upstream identities are parameters. A database error in the middle of a
call is the same as the call ending there; where the source swallows such an error (`Lockout`) going on without the write
is a step of its own. Session rows leave by the hourly sweep alone, and no user row is ever deleted, as in the code.

Where the code does less or other than its comments and documents say, the model follows the code:

- internal/store/README.md:361 says that reuse of a rotated refresh token revokes its family. It does not
  (`OidcService.ReuseRevokesNothing`).
- The documented `*` of service patterns is translated by PatternToLike, which only tests call; the admin API derives its
  pattern otherwise (`Patterns.AdminNeverMeansGlob`).
- The store comments say a missed partition run is caught by the next one. Once a row of that month has gone to the
  DEFAULT partition it never is (`Partitions.EnsureSucceedsIff`).
- ReplaceBackupCodes means to keep two sets from being valid at once. Two overlapping calls leave both
  (`BackupCodes.OverlapLeavesTwoSets`); exactly when that happens is `BackupCodes.OneLiveSetIff`.
- A lookup by the address as sent, and an insert of the trimmed one, can disagree (`Federation.ConstraintFiresIff`).
- The retry-after and sliding bounds of the limiter are exact: 2 * limit - 1, not 2 * limit.
- Counting a failure and writing the lock are separate statements, so a login in between does not stop the lock
  (`Lockout.LockAfterReset`); apart from that every lock is earned (`Lockout.LocksAreEarned`).
- Session gate and session creation are separate statements, so a session with acr "0" can belong to a user who has a
  confirmed method by then (`MfaProvenance.ConfirmBetweenGateAndSession`); exactly when it does is
  `MfaProvenance.SingleFactorIff`.
- The hourly cleanup can be noticed by calls that run over it. The exact conditions are `OidcSweep.InvisibleIff` and
  `CasTickets.InvisibleIff`; what a refresh then loses is `OidcSweep.RefreshLosesItsFamily`.
- The newest key file is to sign after a restart. It does unless a name sorts after every timestamp, as that of the
  signing.pem does which rotate-key's hint says to move into the directory (`KeyManager.SingleKeyStaysPrimary`).
- A provider login completed by a second factor is recorded with `pwd` in its amr although no password was entered
  (`AmrOf` in `Mfa`).

## Model

| member | source | states |
|---|---|---|
| OidcStore.Store.CreateOIDCAuthCode | internal/store/postgres/oidc.go:81-96 | inserts the code unless its id is taken or its session row is gone; nothing else changes |
| OidcStore.Store.ConsumeOIDCAuthCode | internal/store/postgres/oidc.go:99-116 | one atomic step: the code is returned and marked consumed iff it is there, unconsumed and not expired; else nothing changes |
| OidcStore.Store.CreateOIDCAccessToken | internal/store/postgres/oidc.go:135-146 | inserts the access token unless its id is taken or it names a session that is gone |
| OidcStore.Store.CreateOIDCRefreshToken | internal/store/postgres/oidc.go:212-224 | inserts the refresh token unless its id is taken or it names a session that is gone |
| OidcStore.Store.GetOIDCRefreshToken | internal/store/postgres/oidc.go:227-246 | finds exactly a row that is neither rotated, revoked nor expired |
| OidcStore.Store.RotateOIDCRefreshToken | internal/store/postgres/oidc.go:250-262 | rotates iff neither rotated nor revoked; unlike the read it does not test expiry |
| OidcStore.Store.RevokeOIDCAccessToken | internal/store/postgres/oidc.go:185-191 | revokes at most one access row |
| OidcStore.Store.RevokeOIDCRefreshToken | internal/store/postgres/oidc.go:265-271 | revokes at most the one named refresh row, not its descendants |
| OidcStore.Store.DeleteExpiredOIDCTokens | internal/store/postgres/oidc.go:284-300 | the loop over three tables deletes exactly the rows expired for over an hour; the total is the number of rows gone |
| OidcStore.Store.CreateSession | internal/store/postgres/sessions.go:33-55 | inserts the session unless its id is taken |
| OidcStore.Store.DeleteExpiredSessions | internal/store/postgres/sessions.go:94-101 | deletes exactly the sessions expired for over an hour; their codes go with them, their tokens lose session_id |
| OidcService.Service.ExchangeCode | internal/oidc/service.go:171-212 | with nobody in between, the tables and the result are those of the call run step by step, and in fields: tokens iff the code is live, made for this client and redirect and fits the verifier, the user is live, the session row is there and the ids are new; each error iff its own condition; the new rows and id_token spelled out |
| OidcService.Service.RefreshTokens | internal/oidc/service.go:216-281 | likewise for a refresh: who gets which error, that the token is rotated before anything is issued, and that answer, access row and successor carry the old scopes when none are asked for, else exactly those asked for |
| OidcService.LoneExchange | internal/oidc/service.go:171-212 | an exchange left alone in the interleaved machine: the exact condition of tokens and of each error in the fields of the code, PKCE included, and the rows that are then there |
| OidcService.LoneRefresh | internal/oidc/service.go:216-281 | a refresh left alone: the exact condition of each answer, the rotated row, and scopes, expiry, previous_id, acr and auth_time of what is issued |
| OidcService.Service.IssueTokensWithRotation | internal/oidc/service.go:424-484 | likewise for the inserts of the access and refresh token |
| OidcService.Service.Revoke | internal/oidc/service.go:377-390 | hint "" or access_token touches the access table only, every other hint the refresh table only; the row it revokes and what stays are spelled out |
| OidcService.IntrospectOutcome | internal/oidc/service.go:327-375 | the exact condition of each answer of introspection, hint by hint |
| OidcService.IntrospectVersusBearer | internal/oidc/service.go:327-375 | introspection and the bearer lookup disagree about a token exactly when it is unrevoked and this is its expiry instant |
| OidcService.MismatchBurns | internal/oidc/service.go:171-212 | a code presented with a wrong client, redirect or verifier issues nothing and can never be redeemed afterwards, by anyone |
| OidcService.ReuseRevokesNothing | internal/oidc/service.go:216-245 | presenting a rotated refresh token again fails and leaves every row as it was |
| OidcWorld.Keeps | internal/oidc/service.go:171-281 | every step of every interleaving (calls half-way, revocations, sweeps of codes, tokens and sessions, crashes) keeps the protocol invariant |
| OidcWorld.RunKeeps | internal/oidc/service.go:171-281 | so does every run |
| OidcWorld.ReachableInv | internal/oidc/service.go:171-281 | the invariant holds in every reachable world |
| OidcFamilies.SpentOnceInRun | internal/store/postgres/oidc.go:99-116 | over any run, once one event has redeemed a code or rotated a refresh token no later event does so again |
| OidcFamilies.RedeemedInTime | internal/store/postgres/oidc.go:99-116 | a redeemed code was redeemed strictly before its expiry |
| OidcFamilies.AtMostOneSuccessor | internal/oidc/service.go:248-281 | two refresh tokens with the same previous_id are the same token |
| OidcFamilies.OneFamilyPerCode | internal/oidc/service.go:171-212 | roots of two families come from two different codes |
| OidcFamilies.ChainTo | internal/oidc/service.go:424-484 | every refresh token hangs on a chain of predecessors that begins at a root |
| OidcFamilies.ChainsNest | internal/oidc/service.go:424-484 | two chains with one root never fork |
| OidcFamilies.InnerIsRotated | internal/store/postgres/oidc.go:250-262 | every token of a chain but the last is rotated |
| OidcFamilies.OneLiveMember | internal/store/postgres/oidc.go:250-262 | a family has at most one member that is not rotated |
| OidcFamilies.FamilyCarries | internal/oidc/service.go:248-281 | along a family client and user are constant, scopes only shrink, and the session is the root's until its row is swept |
| OidcFamilies.SuccessorScopes | internal/oidc/service.go:236-281 | a successor has exactly the scopes of its predecessor, or just those its request asked for, all of them scopes of the predecessor |
| OidcFamilies.RootFromCode | internal/oidc/service.go:171-212 | a root carries exactly its code's user, session, client and scopes, and the request that redeemed it named the code's client and redirect and, if the code has a challenge, a verifier that hashes to it; without one the client is confidential and need not use PKCE |
| OidcFamilies.AccessTokenOrigin | internal/oidc/service.go:424-450 | every user access token traces to one spent credential: a code redeemed by its own client with its redirect and verifier, whose scopes it has, or a refresh token, whose scopes it has unless fewer were asked for |
| OidcFamilies.OneAccessTokenPerCredential | internal/oidc/service.go:424-450 | two user access tokens that trace to the same spent code or refresh token are the same token |
| OidcFamilies.StrongIdTokenFromStrongCode | internal/oidc/service.go:253-281 | an id_token with an acr other than "0" was minted for a code of the same user with that acr and auth_time; a refresh always says "0" |
| OidcFamilies.IdTokenSays | internal/oidc/service.go:253-281 | over every run, what each id_token says: user, acr and auth_time of the redeemed code, or after a refresh acr "0" and the birth of the token used up |
| OidcSweep.AlikeUnlessMissed | cmd/server/main.go:488-535 | for any run with its sweeps, the swept and the unswept store stay alike, every call in the same phase with the same answer, exactly when no statement needs a row that a sweep took |
| OidcSweep.InvisibleIff | cmd/server/main.go:488-535 | for every placing of the sweeps at once: a run cannot notice them exactly when each code redemption, insert naming a session and revocation by session that succeeds comes within an hour of that session's expiry, and each rotation within an hour of the token's |
| OidcSweep.RefreshLosesItsFamily | cmd/server/main.go:522-527 | the input that shows it: a refresh lasting one instant, over the moment its session has been expired for an hour, rotates its token and then cannot insert a successor |
| OidcSweep.AnswersAlike | internal/store/postgres/oidc.go:284-300 | swept and unswept tables answer every read and introspection alike, and every redemption of a code whose session is not an hour past its expiry |
| OidcSweep.LateRotationNotices | internal/store/postgres/oidc.go:250-262 | a rotation notices the sweep exactly when its row had expired for over an hour |
| RateLimit.Limiter.constructor | internal/middleware/ratelimit.go:138-150 | an empty limiter with the given limit and window |
| RateLimit.Limiter.AllowAt | internal/middleware/ratelimit.go:158-193 | the buckets map and the answer are those of the fixed-window specification |
| RateLimit.Limiter.EvictTick | internal/middleware/ratelimit.go:197-218 | the loop drops exactly the buckets unseen for over ten windows |
| RateLimit.EvictionInvisible | internal/middleware/ratelimit.go:136-218 | over any calls and evictor ticks on any keys all answers equal those of a limiter that never evicts, call readings up to four and a half windows out of order and tick readings of any age included |
| RateLimit.KeysIndependent | internal/middleware/ratelimit.go:158-193 | what a key is told depends on that key's calls alone |
| RateLimit.CurrentWindow | internal/middleware/ratelimit.go:158-193 | a counting window lets through at most its limit |
| RateLimit.SlidingBound | internal/middleware/ratelimit.go:158-193 | any half-open stretch of one window length has at most 2 * limit - 1 accepted calls (limit read as 1 when below 1) |
| RateLimit.RunBound | internal/middleware/ratelimit.go:158-218 | the same bound for the evicting limiter, any key and any run in which the calls on that key come in the order of their clock readings; other calls may be up to four and a half windows out of order, ticks of any age |
| RateLimit.BoundIsTight | internal/middleware/ratelimit.go:158-193 | for every limit some run meets the bound |
| RateLimit.RetryAfterIsExact | internal/middleware/ratelimit.go:158-193 | after a refusal the key is accepted n whole seconds later iff n is at least the retryAfter it was told |
| RateLimit.RefusalsDoNotPostpone | internal/middleware/ratelimit.go:158-193 | further refusals move nothing |
| ClientIp.ClientIP | internal/middleware/ratelimit.go:68-99 | an untrusted peer or an empty header gives the peer; else the walk from the right |
| ClientIp.WalkMeans | internal/middleware/ratelimit.go:84-99 | the walk finds the last outside address, or else the leftmost entry |
| ClientIp.FrontIgnoredIff | internal/middleware/ratelimit.go:61-99 | entries put in front never change the answer exactly when the proxies appended an outside address |
| Patterns.PatternToLike | internal/auth/cas/service.go:180-195 | the builder loop computes the translation |
| Patterns.ToLikeMeansGlob | internal/auth/cas/service.go:167-195 | for every pattern and URL, LIKE on the translation accepts iff the glob does; the translation is well formed |
| Patterns.FromLikeToLike | internal/auth/cas/service.go:180-195 | the written pattern can be read back from the stored one |
| Patterns.ToLikePattern | internal/api/admin/services.go:223-228 | the admin API's own derivation: % appended unless a LIKE character occurs |
| Patterns.AdminIsPrefix | internal/api/admin/services.go:223-228 | what such a pattern means: the URLs that extend the text, or a single URL when the text ends in a lone backslash |
| Patterns.AdminNeverMeansGlob | internal/api/admin/services.go:223-228 | for every text some URL tells that reading and the glob reading apart |
| Patterns.FindCASServiceForURL | internal/store/postgres/cas.go:19-40 | an error iff the pattern of some live row trips on the URL; else a service is found iff an enabled one matches, and none with a longer pattern does |
| Patterns.TripsMeans | internal/store/postgres/cas.go:19-40 | only a pattern that ends in a lone backslash can trip, and such a pattern never accepts |
| Patterns.AdminWellFormedIff | internal/api/admin/services.go:223-228 | the admin API stores such a pattern exactly for texts with a LIKE character that end in a lone backslash |
| Codec.DecodeEncode | internal/crypto/hmac.go:29-58 | unpadded base64url (section 5 of RFC 4648) decodes back every byte string, and its text has no dot |
| Codec.TwoTextsOneMeaning | internal/crypto/hmac.go:39-58 | the non-strict decoder ignores left-over bits, so two texts can mean one byte |
| Codec.EncodeDecodeIff | internal/crypto/hmac.go:29-58 | a text that decodes encodes back to itself exactly when it has no line break and the spare bits of its last group are zero |
| Codec.VerifySign | internal/crypto/hmac.go:29-58 | Verify gives back every signed payload |
| Codec.VerifyIff | internal/crypto/hmac.go:39-58 | exactly which texts verify to a payload |
| Codec.OnlySignedVerifies | internal/crypto/hmac.go:39-58 | with an ideal MAC only signed payloads are read back |
| Codec.SetBytesBigBytes | internal/crypto/signing.go:203-214 | shortest big-endian bytes read back to the number, with no leading zero |
| Codec.ParsePublished | internal/crypto/jwt.go:227-242 | for every modulus and 64-bit exponent, a published key parses back to itself iff the exponent is not negative (section 6.3.1 of RFC 7518) |
| Scopes.SplitFields | internal/api/oidc/token.go:125-142 | the loop over a start index computes the closed runs and the pending one |
| Scopes.SplitScope | internal/api/oidc/token.go:115-123 | dropping empty fields drops nothing |
| Scopes.FieldsAreTheRuns | internal/api/oidc/token.go:125-142 | for every text, the result is the one list of its maximal blank-free runs in order |
| Scopes.SplitJoin | internal/api/oidc/token.go:115-142 | splitting the space join of names without blanks gives them back (section 3.3 of RFC 6749) |
| Scopes.SplitJoinOnlyNames | internal/oidc/service.go:476-484 | the round trip is the identity only for such lists |
| Lockout.Service.UpsertCredential | internal/store/postgres/credentials.go:37-49 | a new password resets counter and lock |
| Lockout.Service.IncrementFailedAttempts | internal/store/postgres/credentials.go:52-63 | counts one up in the 32-bit column and returns the new count, or fails at its end |
| Lockout.Service.Authenticate | internal/auth/password/service.go:43-102 | every outcome and the new credential row, case by case and in fields: unknown, disabled, no password, locked, malformed hash, wrong, right (counter 0, lock gone, password kept), and each of the three writes failing |
| Lockout.AloneIsARun | internal/auth/password/service.go:43-102 | an attempt alone takes exactly the check, count, clock and lock steps of the interleaved machine, or gives up the write that fails |
| Lockout.RoomRunsOut | internal/auth/password/service.go:90-102 | once the room in flight, the grace and the lost writes are used up a lock was written after the start, and it holds 15 minutes from there, less d when more than one attempt is in flight |
| Lockout.FailuresSpaced | internal/auth/password/service.go:43-102 | with at most w attempts in flight of which g lose a write, and at most d from reading the clock to writing the lock, from the fifth failure on any w + g + 1 consecutive failed checks span 15 minutes, less d when w > 1; with w = 1 and g = 0 they are 15 minutes apart, whatever d |
| Lockout.RateBound | internal/auth/password/service.go:20-102 | a stretch of length T without reset has at most 4 + w * (1 + floor(T / 15 min)) failed checks, and one more per attempt that loses a write; for w > 1 the 15 minutes are less d |
| Lockout.RateAlone | internal/auth/password/service.go:20-102 | attempts one at a time, none losing a write: at most 5 + floor(T / 15 min), whatever d |
| Lockout.LateWriteShortensTheLock | internal/auth/password/service.go:90-102 | why d counts for two: a lock written late for an early reading replaces a later lock |
| Lockout.DelayIsLost | internal/auth/password/service.go:43-102 | for every d below 15 minutes a run with two attempts in flight in which three consecutive failures span 15 minutes less d exactly |
| Lockout.OverlapEscapesTheLock | internal/auth/password/service.go:62-76 | without a bound on attempts in flight any number of failed checks fits in one instant |
| Lockout.LocksAreEarned | internal/auth/password/service.go:43-102 | over every run with successes and password changes: the counter is the number of failures counted since the last of them, the account is locked only by a lock written since, and each lock comes after at least five such failures unless callers that were on their way at that change have been ever since |
| Lockout.SuccessAlone | internal/auth/password/service.go:62-88 | an attempt alone with the right password takes the success and reset moves of those runs, or gives up the reset that fails |
| Lockout.LockAfterReset | internal/auth/password/service.go:76-102 | the input behind that exception: a caller that counted the fifth failure writes its lock after another one has logged in, and locks an account with no failure on it |
| BackupCodes.NormalizeCode | internal/auth/mfa/backup.go:99-114 | the loop computes the normal form |
| BackupCodes.NormalizeMeans | internal/auth/mfa/backup.go:97-114 | character by character: space, dash and tab are dropped, ASCII letters raised, all else kept |
| BackupCodes.NormalFormMeansVariants | internal/auth/mfa/backup.go:97-114 | two texts normalise alike exactly when one turns into the other by adding or dropping separators and changing ASCII case |
| BackupCodes.Service.ReplaceBackupCodes | internal/store/postgres/mfa.go:172-197 | the rows of the user are replaced by one unused row per hash |
| BackupCodes.Service.ListUnusedBackupCodes | internal/store/postgres/mfa.go:201-215 | each unused row of the user once, in any order |
| BackupCodes.Service.MarkBackupCodeUsed | internal/store/postgres/mfa.go:218-229 | marks iff the row is there and unused |
| BackupCodes.Service.VerifyBackupCode | internal/auth/mfa/backup.go:51-78 | alone: accepts iff the code normalises to an unused code of the user, and uses up exactly one such row |
| BackupCodes.VerifyIsARun | internal/auth/mfa/backup.go:51-78 | a verification alone does in the interleaved machine what VerifyBackupCode does |
| BackupCodes.ReplaceIsARun | internal/store/postgres/mfa.go:172-197 | a generation alone does there what ReplaceBackupCodes does |
| BackupCodes.Keeps | internal/auth/mfa/backup.go:24-78 | every step of every interleaving of verifications and generations keeps the invariant |
| BackupCodes.AcceptedOnce | internal/auth/mfa/backup.go:51-78 | over every run no row is accepted twice, and each acceptance was of a code issued to that user |
| BackupCodes.AtMostTenPerSet | internal/auth/mfa/backup.go:13-19 | over every run at most ten acceptances per generated set |
| BackupCodes.ReplacedNeverAccepted | internal/store/postgres/mfa.go:169-197 | once a generation's DELETE has seen a row, and unless it rolls back, that row is never accepted again |
| BackupCodes.OneLiveSetIff | internal/store/postgres/mfa.go:169-197 | after every run, for every user: the rows are those of one set, and ten at most, exactly when no other generation for the user committed between the DELETE and the commit of the last one |
| BackupCodes.OverlapLeavesTwoSets | internal/store/postgres/mfa.go:172-197 | when two generations overlap, twenty codes can be live |
| Randomness.RandomPassword | internal/crypto/random.go:41-66 | the chunked loop spells the first n accepted bytes of the whole source; it fails exactly for n <= 0 or a source with too few |
| Randomness.EachCharacterAlike | internal/crypto/random.go:47-59 | every character is picked by exactly cutoff / size accepted byte values |
| Randomness.EveryPasswordAlike | internal/crypto/random.go:41-66 | every choice of positions is drawn by the same number, (cutoff / size)^n, of accepted byte strings |
| Randomness.SpellIffDraws | internal/crypto/random.go:41-66 | for an alphabet without repeats those strings are exactly the accepted ones that spell the password |
| Randomness.StarvesIffDivides | internal/crypto/random.go:45-47 | no byte is ever accepted exactly when the alphabet size divides 256 |
| Randomness.ShippedPasswords | internal/crypto/random.go:28-31 | the shipped 56 letters: 4 accepted bytes each |
| Randomness.RandomCode | internal/auth/mfa/backup.go:81-95 | the letters chosen byte by byte, with the dash for length 8 |
| Randomness.CodeBias | internal/auth/mfa/backup.go:81-91 | the first 8 of the 31 letters have 9 preimages, the others 8 |
| Randomness.IssuedCodeNormalises | internal/auth/mfa/backup.go:81-114 | a code as issued, dash included, normalises to the letters that are hashed |
| CasTickets.Service.constructor | internal/auth/cas/service.go:45-47 | no tickets, no sessions |
| CasTickets.Service.IssueServiceTicket | internal/auth/cas/service.go:70-90 | stores the raw URL to expire 60 s from now; fails exactly for a taken id or a missing session |
| CasTickets.SixtySeconds | internal/auth/cas/service.go:30-90 | a ticket just issued can be consumed exactly until 60 s later |
| CasTickets.Service.ConsumeCASTicket | internal/store/postgres/cas.go:92-111 | one atomic step: consumed iff there, unconsumed and not expired |
| CasTickets.Service.RevokeSession | internal/store/postgres/sessions.go:81-89 | stamps the one session unless it is revoked already |
| CasTickets.Service.DeleteExpiredCASTickets | internal/store/postgres/cas.go:113-121 | deletes exactly the tickets expired for over an hour and counts them |
| CasTickets.Service.Validate | internal/auth/cas/service.go:102-147 | every outcome, with nobody in between, in fields: valid iff prefix, unconsumed, in time, URL in normal form, session live and user live; the exact condition of each error; the ticket is used up whatever follows |
| CasTickets.AloneOutcome | internal/auth/cas/service.go:102-147 | the same for every table and environment, as a statement about the lone call of the interleaved machine |
| CasTickets.AloneIsThreeSteps | internal/auth/cas/service.go:102-147 | the class answers as the interleaved machine does when a call is left alone |
| CasTickets.Keeps | internal/auth/cas/service.go:70-147 | every step of every interleaving keeps the invariant |
| CasTickets.ConsumedOnce | internal/store/postgres/cas.go:92-111 | in every interleaving a ticket passes consumption at most once and before expiry, and a success means: issued, its URL the normal form presented, its session live afterwards, its user found live by that very call |
| CasTickets.AcceptedIffNormalForm | internal/auth/cas/service.go:115-117 | a ticket in time is accepted iff the presented URL normalises to the stored raw URL, and is used up either way |
| CasTickets.OwnUrlWorks | internal/auth/cas/service.go:80-117 | its own URL works iff that is its own normal form; some URL works iff the stored one is in the range of normalisation |
| CasTickets.InvisibleIff | cmd/server/main.go:488-535 | for every placing of the ticket and session sweeps: a run cannot notice them, every call in the same phase with the same verdict, exactly when each ticket that is inserted and each that is consumed comes within an hour of its session's expiry |
| CasTickets.LateIssueNotices | internal/store/postgres/sessions.go:94-101 | an insert notices the session sweep exactly when its session expired over an hour ago |
| CasVerdicts.NoVerdictChangesIff | cmd/server/main.go:488-535 | the same for the answers alone: no placing of the sweeps changes a verdict exactly when no call uses up a ticket of a session an hour past its expiry, for another URL, and goes on to answer |
| CasTickets.LateTicketNotices | internal/store/postgres/sessions.go:94-101 | a ticket still good when its session is an hour past expiry goes with the session: the verdict becomes InvalidTicket, which differs from the unswept one exactly for another URL |
| CasTickets.InsertedInTimeStillShows | internal/auth/cas/service.go:70-117 | so it shows for a ticket inserted within the hour, 3550 s after its session expired, and presented with another URL 55 s later |
| Partitions.MonthLength | internal/store/postgres/audit_partitions.go:20-22 | consecutive months meet, year ends and leap years included |
| Partitions.Tiles | internal/store/postgres/audit_partitions.go:19-23 | a day between the ends of n months lies in exactly one of them, and only such days do |
| Partitions.NameRoundTrip | cmd/audit-prune/main.go:34 | a partition name parses back to its month for the years 0 to 9999 and not at all otherwise |
| Partitions.NamesDiffer | internal/store/postgres/audit_partitions.go:23 | no two months share a name |
| Partitions.AuditLog.EnsureAuditLogPartitions | internal/store/postgres/audit_partitions.go:15-35 | the loop makes the partitions month by month and stops at the first error |
| Partitions.AuditLog.CreatePartition | internal/store/postgres/audit_partitions.go:25-31 | CREATE IF NOT EXISTS, refused on overlap or a row already in DEFAULT |
| Partitions.AuditLog.AuditPrune | cmd/audit-prune/main.go:81-118 | drops the listed names that parse to an earlier month in order, up to the first DROP that fails; nothing on a dry run or a bad argument |
| Partitions.EnsureSucceedsIff | internal/store/postgres/audit_partitions.go:15-35 | ensuring n months succeeds iff no row of those months is in DEFAULT; then each has its partition and nothing else changed |
| Partitions.PruneIsExact | cmd/audit-prune/main.go:81-98 | a partition is dropped iff all of it is before the cutoff and its year has four digits; later rows and DEFAULT survive |
| Partitions.PruneOutcome | cmd/audit-prune/main.go:81-118 | a pass does all its work exactly when no due DROP fails; one that stops half-way has dropped only what was due, and a later pass does the rest |
| Partitions.Disjoint | internal/store/postgres/audit_partitions.go:15-35 | no two partitions share a day |
| Partitions.InsertKeeps | internal/store/postgres/audit_partitions.go:15-35 | routing a row to its partition, or else to DEFAULT, keeps the invariant |
| KeyFiles.NamesSortByTime | cmd/rotate-key/main.go:65-66 | for the years 0 to 9999 file names sort exactly as their instants do, and coincide only within one second |
| KeyManager.KeyManager.LoadFromDir | internal/crypto/signing.go:87-141 | an error iff no file is usable; else the usable files in name order, the last as primary and the rest retiring |
| KeyManager.PemNameMeans | internal/crypto/signing.go:102-104 | a key file is one whose name ends in .pem, letter case aside |
| KeyManager.KeyManager.JWKS | internal/crypto/signing.go:194-201 | publishes the primary and then every retiring key |
| KeyManager.PublishOrder | internal/crypto/signing.go:194-214 | the document has the primary first and then the retiring keys in loading order, each with the kid and modulus of its own key; the kid is the text of the first eight bytes of the modulus |
| KeyManager.JWKSCache.constructor | internal/crypto/jwt.go:144-152 | an empty expired cache; a zero ttl means 15 minutes |
| KeyManager.JWKSCache.Refresh | internal/crypto/jwt.go:181-223 | replaces the key map by the index of the fetched document, RSA entries only, or changes nothing on failure |
| KeyManager.IndexMeans | internal/crypto/jwt.go:203-218 | a kid resolves exactly when a readable RSA entry has it, and to the last such entry |
| KeyManager.JWKSCache.GetKey | internal/crypto/jwt.go:155-178 | the cached key while fresh, else what one refresh finds; keys and expiry change only by a successful refresh |
| KeyManager.PublishResolves | internal/crypto/signing.go:194-214 | with distinct kids the published document resolves exactly the loaded keys |
| KeyManager.FreshServer | internal/crypto/signing.go:87-141 | a server just started on a directory with a usable key meets the invariant from which the next three rows start |
| KeyManager.TokenResolvesIff | cmd/rotate-key/main.go:93-102 | after every run with careful removals, the kid of an unexpired token resolves, and then to the key that signed it, exactly when its key is not lost to a rotation that replaced its file; a client finds the key then, and otherwise only in its fresh cache |
| KeyManager.LostIffReplaced | cmd/rotate-key/main.go:65-91 | when every file has a key of its own, a key is lost exactly when a rotation replaced its file and a restart came after that |
| KeyManager.TokensStayVerifiable | cmd/rotate-key/main.go:93-102 | in particular all unexpired tokens stay verifiable when no rotation of the run replaces a usable file |
| KeyManager.NewKeyBecomesPrimary | internal/crypto/signing.go:26-33 | after rotate and restart the new key signs exactly when its file could be put in place and no usable file has a greater name |
| KeyManager.SingleKeyStaysPrimary | cmd/rotate-key/main.go:30-37 | a signing.pem moved into the directory sorts after every timestamp, so it keeps signing whatever is rotated in beside it |
| KeyManager.SameSecondLosesTheKey | cmd/rotate-key/main.go:65-91 | a second rotation in one second overwrites the first key, whose tokens then resolve no more |
| Federation.Service.GetUserByEmail | internal/store/postgres/users.go:35-49 | a row that is not deleted and has that address but for letter case, found iff there is one |
| Federation.Service.InsertUser | internal/store/postgres/users.go:79-94 | refused iff a live user has the address |
| Federation.Service.InsertIdentity | internal/store/postgres/federation.go:71-91 | refused iff (provider, sub) is taken |
| Federation.EmailPtrMeans | internal/auth/federation/service.go:135-142 | the stored address: lower case, no blanks at either end, and none at all iff there is nothing but blanks |
| Federation.Service.LinkOrCreate | internal/auth/federation/service.go:27-116 | all branches: known identity, verified address, collision, new account |
| Federation.LinkWrites | internal/auth/federation/service.go:33-116 | after a sign-in that lets somebody in the pair is in the identity table and belongs to that live account, exactly unless the row of a deleted account held it before; what the identity and user tables then are |
| Federation.Service.UnlinkUserFederation | internal/api/admin/federation.go:130-192 | removed, not found, or refused because nothing else would remain; the loop counts the others |
| Federation.UnlinkOutcome | internal/api/admin/federation.go:130-192 | each answer of the handler and the one identity row it deletes, case by case |
| Federation.WhoIsLetIn | internal/auth/federation/service.go:33-79 | an existing account is returned iff it owns the known identity, or else the provider verified an address that is its own |
| Federation.ConstraintFiresIff | internal/auth/federation/service.go:85-102 | the unique index fires exactly for an unknown identity whose address is free as sent and taken once trimmed; never for trimmed lower-case addresses |
| Federation.OrphanIff | internal/auth/federation/service.go:97-112 | an account nobody can sign in to is left behind exactly when the identity row of a deleted account blocks the pair, no verified address is taken, and the trimmed address is not taken unless the address as sent is |
| Federation.RunKeepsValid | internal/auth/federation/service.go:27-116 | over every run live addresses stay unique and rows well formed |
| Federation.SameAccount | internal/auth/federation/service.go:33-53 | over every run a linked pair keeps letting the same account in, whatever address it shows |
| Federation.LinkedForGood | internal/auth/federation/service.go:33-116 | over every run that neither unlinks the account nor deletes it, whoever was let in once, by a verified address or anew, is let into the same account again whatever address the pair shows |
| Federation.NeverLockedOut | internal/api/admin/federation.go:160-192 | over every sequential run an account that can sign in still can, unless it is deleted |
| Federation.EverySignInSucceeds | internal/auth/federation/service.go:27-116 | without deletions and with trimmed lower-case addresses every sign-in succeeds, the unique index is never met, and every account keeps a way in |
| Federation.LockedOutIff | internal/api/admin/federation.go:160-192 | over every interleaving of the checks and deletes of any unlink requests: an account that could sign in no longer can exactly when it has no password and some delete came after all the other links its check saw had been deleted |
| Federation.CutLocksOutIff | internal/api/admin/federation.go:160-192 | one delete takes the last way in exactly then, and never without another delete since its check |
| Federation.FindAndLook | internal/api/admin/federation.go:130-185 | the reads of that machine with nothing in between are the check of the handler |
| Federation.UnlinksRaceIff | internal/api/admin/federation.go:160-192 | any number of unlinks that all check before any deletes: the account can sign in no more exactly when it is deleted, or has no password and they take every identity it has; one alone never does that |
| Federation.TwoUnlinksRace | internal/api/admin/federation.go:160-192 | two suffice: they lock out a password-less account with two identities |
| Mfa.ComputeStatus | internal/auth/mfa/service.go:150-160 | required but not enrolment-required iff some method is confirmed; required iff that or forced |
| Mfa.StatusForUser | internal/auth/mfa/service.go:125-145 | the loop lists each confirmed kind once, in order of first occurrence |
| Mfa.ReadableWindow | internal/auth/mfa/challenge.go:35-72 | a challenge can be read for 300 seconds and never 301 seconds after issue |
| Mfa.WindowIsTight | internal/auth/mfa/challenge.go:35-72 | 301 seconds is the exact bound |
| Mfa.Keeps | internal/api/mfa/handler.go:98-245 | every step of every interleaving of logins, challenges, enrolments and codes keeps the provenance invariant |
| MfaProvenance.SessionsAreJustified | internal/api/mfa/handler.go:475-489 | over every run acr "1" goes back to an accepted factor of that user, under a challenge issued to them less than 301 s before it was read, after a successful first step; any other session is "0" and its request had seen no confirmed method |
| MfaProvenance.StrongIdTokenNeedsFactor | internal/api/oidc/authorize.go:139-161 | an id_token with acr "1" goes back to an accepted factor of the user it names, and its auth_time is when the session of that factor was created |
| MfaProvenance.SingleFactorIff | internal/api/cas/login.go:173-219 | over every run with two-factor sign-in on, the user of an acr "0" session had no confirmed method when it was created exactly when each one confirmed between its request's look and that moment was deleted again before it |
| MfaProvenance.SingleFactorWithoutGateIff | internal/api/cas/login.go:173-219 | with it off nobody looks, and the user had none exactly when each one it ever had was deleted before |
| MfaProvenance.NoneConfirmedIff | internal/store/postgres/mfa.go:136-169 | after any events a user has no confirmed method exactly when each one it had, and each one confirmed since, was deleted |
| MfaProvenance.ConfirmBetweenGateAndSession | internal/api/cas/login.go:173-219 | a method confirmed in between leaves a single-factor session for an enrolled user |
| MfaProvenance.ForcedProviderDeadEnd | internal/api/federation/handler.go:196-219 | over every run with a factor forced, a user with neither a confirmed method nor an unused backup code who signs in through providers gets no session as long as that stays so |
| MfaProvenance.NoSessionWhenForced | internal/api/federation/handler.go:196-219 | the same from the start of the server: such a user has no session |
| MfaHandlers.Handler.SignIn | internal/api/cas/login.go:173-219 | the gate in sequence: challenge an enrolled user for 300 s (a provider login also when forced), else a session with acr "0" and amr pwd, or fed and the provider |
| MfaHandlers.Handler.VerifyTOTP | internal/auth/mfa/totp.go:106-140 | accepts iff the code fits some confirmed TOTP method of the user |
| MfaHandlers.Handler.FinishChallenge | internal/api/mfa/handler.go:475-489 | creates the acr "1" session with the factor's amr |
| MfaHandlers.Handler.ReadChallenge | internal/auth/mfa/challenge.go:54-72 | the challenged user iff the challenge is not past its second of expiry |
| MfaHandlers.Handler.ChallengeTOTP | internal/api/mfa/handler.go:98-129 | a session with acr "1" and amr pwd, otp iff the challenge is readable and a confirmed method accepts; else nothing changes |
| MfaHandlers.Handler.ChallengeBackup | internal/api/mfa/handler.go:145-175 | likewise with amr pwd, mfa and one backup code used up |
| MfaHandlers.Handler.ChallengeWebAuthnFinish | internal/api/mfa/handler.go:206-245 | likewise with amr pwd, hwk for a confirmed key |
| MfaHandlers.LoginIsARun | internal/api/cas/login.go:173-219 | a login left alone does in the interleaved machine what the handler does |
| MfaHandlers.AnswerIsARun | internal/api/mfa/handler.go:98-245 | answering a challenge alone does in the interleaved machine what the handlers do |
| SqlBuilders.Push | internal/store/postgres/admin.go:44-54 | appending an argument and a condition on it keeps what the earlier placeholders mean and narrows the WHERE by just that condition |
| SqlBuilders.BuildListUsers | internal/store/postgres/admin.go:30-67 | the WHERE selects exactly the described rows, every placeholder is bound, LIMIT and OFFSET are the last two |
| SqlBuilders.BuildListAuditEvents | internal/store/postgres/audit.go:67-112 | the same for the audit filter |
| SqlBuilders.ListUsers | internal/store/postgres/admin.go:30-90 | the page is the wanted slice of the wanted rows; the total is their number, or 0 when the page is empty |
| SqlBuilders.ListAuditEvents | internal/store/postgres/audit.go:67-134 | the same for audit events |
| SqlBuilders.TotalIsCountIff | internal/store/postgres/admin.go:56-90 | the reported total is right exactly when nothing matches or the page is not past the end |
| SqlBuilders.SearchMeansContains | internal/store/postgres/admin.go:44-49 | a search means containment, letter case aside, for every text exactly when it has none of %, _ and backslash |
| SqlBuilders.AssignPatches | internal/store/postgres/admin.go:105-161 | a SET list in step with its arguments gives every named column its value and leaves the rest |
| SqlBuilders.Patch.AddGiven | internal/store/postgres/admin.go:106-113 | adds the column iff the field is given |
| SqlBuilders.Patch.Run | internal/store/postgres/admin.go:139-161 | changes exactly the one live row; with nothing given it only reads |
| SqlBuilders.UpdateUser | internal/store/postgres/admin.go:105-161 | exactly the non-nil fields of the one live row change; empty display name and zero time become NULL |
| SqlBuilders.UserColumns | internal/store/postgres/admin.go:105-161 | what that leaves in each of the six columns: the given text as it is, an empty display name and the zero time as NULL, everything not given as it was |
| SqlBuilders.UpdateOIDCClient | internal/store/postgres/admin.go:273-320 | the same for clients |
| SqlBuilders.ClientColumns | internal/store/postgres/admin.go:273-320 | the same column by column |
| SqlBuilders.UpdateCASService | internal/store/postgres/admin.go:418-466 | the same for CAS services; an empty description becomes NULL |
| SqlBuilders.ServiceColumns | internal/store/postgres/admin.go:418-466 | the same column by column |

## Left out

- HTTP request parsing, cookies other than the signed value, templates, the web UI and static assets: presentation.
- net/url, JSON, XML, attribute release and claim building: libraries or plain copying; `normalizeServiceURL` is an arbitrary function.
- ValidateAuthRequest, scopesAllowed, UserInfo, ClientCredentials beyond its token insert: single-body checks. The consent POST never calls ValidateAuthRequest, so nothing is claimed about requested scopes being allowed ones.
- Argon2, HMAC, SHA-256, RSA, TOTP and WebAuthn internals: ideal functions. WebAuthn counters and last-used times are not kept.
- Password-reset and email-verification tokens: their updates are unconditional, so they are single use only in sequence.
- SMTP, provider exchanges and discovery: network I/O; an exchange is an arbitrary identity.
- Logging, audit writes, headers, configuration loading: no property beyond the statement itself.
- last_login_at, last_seen_at and cached profile columns other than email: nothing reads them in what is modelled.
- Unicode case folding and white space: ASCII only, in `Federation`, `SqlBuilders` and `BackupCodes`.
- Lockout.Service.Authenticate: the clock reading and the row read of one attempt are one instant; a failed read ends the attempt with an error and nothing changed, and is not an outcome here.
- Lockout.FailuresSpaced: the delay d is a parameter of the run, since nothing in the code bounds it; a stretch with no successful login and no password change, with the 32-bit counter clear of its end; runs with those are `Lockout.LocksAreEarned`, which counts failures and says nothing of times.
- Lockout.RateBound: with more than one attempt in flight it says nothing for a delay of 15 minutes or more.
- OidcSweep.InvisibleIff: exact for the phases of calls; when the final answers alone differ is proved for CAS tickets only (`CasVerdicts`).
- RateLimit.Limiter.AllowAt: buckets are values in a map rather than shared pointers, and durations are unbounded integers; the mutex is the atomicity of a step.
- BackupCodes.ReplacedNeverAccepted: a generation is its DELETE and its commit; the inserts in between are not visible to others and are one step.
- OidcStore.Store.CreateSession: of a session row only the id and the expiry; revocation of a session touches no token, and the statement that would revoke a session's refresh tokens has no caller in the code but is an event of `OidcWorld`.
- CasTickets.InvisibleIff: foreign-key cascade from sessions to tickets only; attribute lookup after validation has no effect on the verdict.
- Partitions.EnsureSucceedsIff: day numbers rather than instants. The bounds are bare date literals, so a boundary is midnight in the time zone of the database session; that this is UTC is taken as given.
- KeyManager.TokenResolvesIff: that the operator waits out the longest lifetime before removing a file, and that new keys are new with kids of their own, are hypotheses.
- KeyManager.JWKSCache.GetKey: the read lock and the refresh are one step of one caller.
- Federation.LockedOutIff: unlink requests only; sign-ins and new passwords that come between a check and its delete are not in that machine. Loading the identity and looking at what else there is are separate steps; since no password changes, reading the credential and the list is one.
- Federation.NeverLockedOut: requests one after another; two concurrent first logins of one identity are not modelled.
- MfaProvenance.SessionsAreJustified: the factor check and the reading of the challenge are separate steps with no bound between them; the 301 seconds are to the reading. A challenge can be answered more than once, as in the code.
- MfaHandlers.Handler.FinishChallenge: clearing the challenge cookie of the browser and the CAS ticket or redirect that follows; the server's tables do not depend on them.
- MfaHandlers.Handler.SignIn: the two logins share one method; credential and provider checks, service lookup and redirects happen around it.
- SqlBuilders.BuildListUsers: conditions are a tree over numbered placeholders, not their text; the parentheses of the OR group are the tree.
- SqlBuilders.UpdateUser: unique-index errors of an update are not modelled.
