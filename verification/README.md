# Verification of cryden

A Dafny model of cryden, an embeddable authentication engine, and proofs about it. What is modelled
is what the engine has to get right over whole runs rather than in one call:

- `Sessions`, `Rotation`: refresh-token rotation and reuse detection over one shared session table.
  A rotation is a read and a later write, and any other call may come between.
- `Calendar`, `Timestamps`, `Spellings`, `Anomaly`: SQLite's fixed-width TEXT timestamps, from an instant through
  its civil date to 30 characters, and the counting windows that compare them as strings.
- `Like`, `Query`, `Sql`, `SafeQuery`, `Dialects`, `Widget`, `Asking`: a model-written query intent is scoped to its
  owner, validated, compiled to text with placeholders, and run. `Sql` reads the text word by word and
  evaluates it, so the compiler is proved against what the text says; `Dialects` is about when the two stores agree,
  and `Asking` tells the answers without the pipeline: which rows, which cells, which refusals.
- `Base64`, `Argon2`, `Hashers`: the PHC string codec, dispatch over stored hashes, and upgrade on login.
- `AccountStores`, `Pending`, `Login`, `Engine`, `Runs`, `Gate`, `Factors`, `CodeLogins`, `Provenance`, `Enrolments`, `Answers`,
  `Lockout`: signing in by password, magic link and OAuth, the shared second-factor gate, the three completions, and
  account lockout. `Login` is the state machine, `Engine` carries its steps out on the stores, and the others are about
  its runs: what a session rests on (`Gate`), what stays and works once (`Factors`, `CodeLogins`), where every factor of
  an account came from (`Provenance`), and what is answered to whom (`Enrolments`, `Answers`).
- `RateLimit`: the in-memory limiter and the Redis script as one policy.
- `Audit`, `Stuffing`, `Digest`: the audit log, credential-stuffing suppression, and the digest.
- `RecoveryCodes`, `Migrate`: single-use codes, and crash-safe migrations.
- `Text`, `Sorting`, `Wrappers`: decimal text, byte order, splitting and sorting; results and options.

Where the source changes state the model is a class with the source's fields, and each method is tied
to a function of the state before; the theorems are about those functions and their runs.

## Assumptions

- Generated ids and raw tokens are fresh. SHA-256 is a constructor, so equal digests come from equal strings.
- A signature verifies exactly for what the engine's own secret signed, and no host claim sets `typ`.
- Each store call is one atomic step, each SQLite transaction too, and store calls fail only where a
  property says so. Reads inside the gate succeed.
- Instants are integers, nanoseconds in `Timestamps`. Clocks are non-decreasing where a property is about
  elapsed time (the sign-in runs, `Stuffing`, the sliding bound); rotation and the two limiters' agreement
  hold for any clock. A login reads the clock twice, first and last; the readings between are one of the two.
- bcrypt's cost can be read back from its own output, which starts with `$2a$` and verifies its password, and from no
  text that starts with `$argon2id$`;
  Argon2's key has the length asked for. Otherwise cryptography is uninterpreted.
- The primary keys and UNIQUE columns of the schema hold, and every operation modelled is proved to keep them.
- On a text column `=` is equality, and identity columns hold text or NULL. All other comparisons are arbitrary.
- An optional store that is not configured behaves as an empty one.

## Where the code and its description differ

- `Revoke` of the in-memory store rewrites the time of an already revoked session and succeeds; SQLite's
  reports it as not found. `UnguardedRevocationAgrees` gives the exact condition.
- Decoding an Argon2id hash accepts more than this package writes. The version segment may hold spaces, a plus
  sign and zeros before the number and anything after it (`VersionSpellings`); the base64 segments may hold line
  breaks, and bits beyond their last whole byte (`EncodeOfDecode`). `DecodedHashIsOurs` says when a hash that
  decodes is the one written for what it decodes to.
- A timestamp column reads more than is written into it: one-digit hours, commas, fractions of any length and
  numeric offsets. `ReadableIff` says which texts are read and as what, `FormatOfParse` which are as written.
- `contains` is not substring for values with `%` or `_`, nor with a backslash on Postgres
  (`ContainsIsSubstringIffPlain`), and a backslash separates the two stores: for one value
  (`DialectsAgreeIffNoBackslash`) and for whole intents (`DialectsSelectTheSame`).
- The stuffing cooldown looks at the newest fifty events only (`FloodDefeatsTheCooldown`), and a run that gets
  past it exists for every configuration that flags at all (`FloodIsReachable`).
- A zero instant written to a nullable column comes back as no instant (`OptionalRoundTrip`).
- The digest prints nothing when its total is zero, which hand-built counts can reach by cancelling
  (`CancellingCounts`); counts from the store cannot (`CountsDoNotCancel`).
- A second-factor completion takes any factor the account has by then, not only those the pause offered,
  and a pending token serves until it expires. `EverySessionIsEarned` asks for a second factor held at that moment;
  a TOTP code is not used up by it and can sign in twice (`CodeSignsInAgain`), a recovery code is.
- The Redis limiter is described as the in-memory policy with its counter elsewhere. For limits below one it is not: Redis
  then admits nothing, the in-memory limiter the first call of each window (`LimitsBelowOne`, `VerdictsAgreeIff`).
- Fixed windows admit up to one call fewer than twice the limit in a sliding window, and no more (`SlidingBound`,
  `SlidingBoundIsReached`).
- `ChangePassword`, `DisableTOTP` and `DeletePasskey` compare a password without touching counter or lock,
  so the guess bound is about `Login` (`EveryStepIsALockStep`).

## Model

| member | source | states |
|---|---|---|
| `Sessions.SqliteSessionStore.Create` | store/sqlite/session_store.go:25-30 | inserts a live row, or refuses and changes nothing when the id or the token hash is taken |
| `Sessions.SqliteSessionStore.Revoke` | store/sqlite/session_store.go:108-116 | stamps a live row only; a missing or revoked one is not found and nothing changes |
| `Sessions.SqliteSessionStore.RevokeFamily` | store/sqlite/session_store.go:123-128 | every live row of the family is stamped, every other row is untouched |
| `Sessions.SqliteSessionStore.RevokeAllForUser` | store/sqlite/session_store.go:132-137 | every live row of the user is stamped, every other row is untouched |
| `Sessions.SqliteSessionStore.RotateToken` | store/sqlite/session_store.go:142-166 | both halves happen or neither: a lost guard or a refused insert leaves the table as it was |
| `Sessions.StoreCallsTouchTheirOwn` | store/sqlite/session_store.go:25-166 | what each store call leaves: the row, family or user it names is stamped with the time given, once; every other row keeps every field |
| `Sessions.SqliteSessionStore.Rotate` | token/refresh.go:49-99 | alone against the store: unknown token, reuse with the whole family revoked, or the successor in place of the old row |
| `Sessions.MemorySessionStore.Create` | store/memory/session_store.go:22-28 | agrees with the guarded insert on a fresh session |
| `Sessions.MemorySessionStore.RevokeFamily` | store/memory/session_store.go:76-87 | the loop over the map stamps exactly the live rows of the family |
| `Sessions.MemorySessionStore.RevokeAllForUser` | store/memory/session_store.go:89-100 | the loop over the map stamps exactly the live rows of the user |
| `Sessions.MemorySessionStore.RotateToken` | store/memory/session_store.go:106-121 | the unguarded swap: the old row is stamped even if it was revoked already |
| `Sessions.MemorySessionStore.Rotate` | token/refresh.go:49-99 | alone against the map: the same new table and the same answer as against the guarded store |
| `Sessions.RotateAnswers` | token/refresh.go:49-99 | InvalidToken if and only if no session has the token; of a revoked session, reuse, and its family and no other is revoked; of a live one, a live successor of the same family, owner and device under the new token, or nothing changes when the store refuses it |
| `Sessions.UnguardedRotationAgrees` | store/memory/session_store.go:110-116 | the unguarded rotation is the guarded one if and only if the old row, when present, is live |
| `Sessions.UnguardedRevocationAgrees` | store/memory/session_store.go:63-74 | the unguarded Revoke is the guarded one if and only if the row, when present, is live |
| `Rotation.EveryRunIsSafe` | store/sqlite/session_store.go:142-166 | after every interleaving of logins, split rotations, logouts and deletions: at most one live session a family, each family one chain from its root with one owner, ip and user agent, each token exchanged at most once |
| `Rotation.StepKeepsInv` | token/refresh.go:49-99 | every atomic step keeps the inductive invariant behind that |
| `Rotation.StepIsOneOfFour` | store/sqlite/session_store.go:108-166 | whatever the call, the table is only stamped, shrunk by a user, given a root, or has one live row replaced by its successor |
| `Rotation.StepTouchesItsOwn` | store/sqlite/session_store.go:25-166 | each call of the protocol changes only the sessions it is about, and those as it says: one, a family, a user's, or none |
| `Rotation.RotatingGrowsChain` | token/refresh.go:78-95 | a successful rotation extends the chain it went through, at its end, by the new session, and every session before that is dead |
| `Rotation.DeadFamiliesStayDead` | store/sqlite/session_store.go:150-158 | a family without a live session never has one again, whatever rotations were already in flight |
| `Rotation.ReuseKillsTheFamilyForGood` | token/refresh.go:63-73 | once any client is told its token was reused, the family is dead in every later state |
| `Rotation.RevocationTimesAreKept` | store/sqlite/session_store.go:108-136 | every revocation time keeps its first value while the row exists, and a deleted row does not come back |
| `Rotation.SpentTokenIsReuse` | token/refresh.go:56-73 | a token that was exchanged is found revoked by every later reader |
| `Rotation.ReuseIsAnsweredIffRevoked` | token/refresh.go:63-73 | in every run the second half of a rotation is answered reuse if and only if the row it read was revoked, and then its family is dead in every later state |
| `Rotation.ReplayIsAnsweredAsReuse` | token/refresh.go:56-73 | whoever begins with the raw text of an exchanged token, its row still there, is answered reuse, and the family is dead from then on |
| `Rotation.LostRaceChangesNothing` | store/sqlite/session_store.go:150-158 | a rotation is told not found exactly when it read a live row that is live no more, and then nothing changes |
| `Rotation.UnguardedRaceLeavesTwoLive` | store/memory/session_store.go:110-116 | two rotations that both read the live root leave two live sessions in the unguarded store |
| `Calendar.Civil` | store/sqlite/sqlite.go:79-81 | every day number has a valid civil date, and it is that day's |
| `Calendar.CivilOfDayNumber` | store/sqlite/sqlite.go:91-117 | every valid date is the civil date of its own day |
| `Calendar.CivilOrder` | store/sqlite/sqlite.go:73-81 | dates are ordered as days are, and different days have different dates |
| `Calendar.CivilFollowsTheCalendar` | store/sqlite/sqlite.go:79-81 | day 0 is 1 January of year 1, and each day's date is the day after the one before, with thirty days in April, June, September and November, 28 or by the rule of 4, 100 and 400 29 in February, and 31 else |
| `Timestamps.FixedWidth` | store/sqlite/sqlite.go:73-81 | 30 characters if and only if the year is 0000 to 9999, more otherwise |
| `Timestamps.FieldsTick` | store/sqlite/sqlite.go:73-81 | one nanosecond later the fields are those of a clock and calendar that have ticked once, from midnight of 1 January of year 1 |
| `Timestamps.TextIs` | store/sqlite/sqlite.go:73-81 | the text: year, month, day, hour, minute, second and nanosecond in 4, 2, 2, 2, 2, 2 and 9 digits between their separators |
| `Timestamps.StringOrderIsTimeOrder` | store/sqlite/sqlite.go:62-81 | in those years string order is time order, and equal texts are equal instants |
| `Timestamps.ParseOfFormat` | store/sqlite/sqlite.go:91-117 | reading a written instant gives the same instant |
| `Timestamps.ParseOfLocal` | store/sqlite/sqlite.go:91-117 | a local time with a numeric offset, a dot or a comma, reads as the instant it names |
| `Spellings.ReadableIff` | store/sqlite/sqlite.go:91-117 | a text is read as an instant if and only if it spells a valid date and clock naming that instant in some zone: hour in two digits or one, a fraction behind a dot or comma or none, Z or hours and minutes off UTC |
| `Timestamps.OffsetIs` | store/sqlite/sqlite.go:91-117 | an offset of up to 24 hours and 60 minutes is that many seconds east or, with a minus, west |
| `Timestamps.FractionIs` | store/sqlite/sqlite.go:91-117 | a fraction of any length is cut off at the nanosecond, never rounded up |
| `Timestamps.FormatOfParse` | store/sqlite/sqlite.go:91-117 | a readable text is the one formatTime writes for its instant if and only if it has 30 characters, a dot before the fraction and Z at the end |
| `Timestamps.ParseOfTrimmed` | store/sqlite/sqlite.go:62-81 | the zero-trimming layout would read back as well |
| `Timestamps.TrimmedOrderIsNotTimeOrder` | store/sqlite/sqlite.go:62-73 | but not sort: a whole second would sort after every later fraction of it |
| `Timestamps.ScanTime.Scan` | store/sqlite/sqlite.go:91-117 | NULL, text, bytes and times are read, offsets and commas included; anything else or an unreadable text is refused and the value kept |
| `Timestamps.OptionalRoundTrip` | store/sqlite/sqlite.go:122-177 | an optional timestamp survives the column if and only if it is not the zero instant |
| `Like.PlainValueIsSubstring` | store/sqlite/safe_query_store.go:181-186 | for values free of wildcards, contains is ASCII case-insensitive substring |
| `Like.ContainsIsSubstringIffPlain` | store/sqlite/safe_query_store.go:159-186 | and for no other value: contains is substring on every text if and only if the value is free of them |
| `Like.PatternIsItsPieces` | store/sqlite/safe_query_store.go:181-186 | a pattern matches if and only if the text falls into pieces, one for each of its characters: any for a percent sign, any one character for an underscore, that letter in either case else |
| `Like.DialectsAgreeIffNoBackslash` | store/postgres/safe_query_store.go:147-174 | contains means the same in both dialects on every text if and only if the value has no backslash |
| `Query.ValidateIntent` | ai/validate.go:87-117 | accepts exactly the intents whose entity, aggregate, grouping, fields and operators are all allowlisted |
| `Query.AllowedNamesAreWords` | ai/validate.go:22-76 | every allowlisted name is one word of SQL text |
| `SafeQuery.BuildWhereClause` | store/sqlite/safe_query_store.go:159-179 | refuses unlisted fields and operators; otherwise clause n carries the n-th placeholder and value n is argument n |
| `SafeQuery.StatementTextIsReadBack` | store/sqlite/safe_query_store.go:95-152 | the text of a compiled statement parses back to that statement |
| `SafeQuery.ConditionsMeanFilters` | store/sqlite/safe_query_store.go:159-186 | the clauses from k on, bound to the arguments, mean the filters from k on |
| `SafeQuery.CompiledStatementSelects` | store/sqlite/safe_query_store.go:95-152 | running the text selects exactly the rows that meet the conjunction of the filters |
| `SafeQuery.LimitIsBound` | store/postgres/safe_query_store.go:82-83 | the trailing LIMIT placeholder binds the argument after the filters' |
| `SafeQuery.SelectIsCompiled` | store/postgres/safe_query_store.go:82-107 | the select text answers with the first rows, up to the limit, that meet the filters |
| `SafeQuery.CountIsCompiled` | store/sqlite/safe_query_store.go:122-129 | the count text answers with the number of rows that meet the filters |
| `SafeQuery.GroupByIsCompiled` | store/sqlite/safe_query_store.go:131-152 | the group_by text answers with the sizes of the groups of those rows |
| `SafeQuery.RunSafeQuery` | store/sqlite/safe_query_store.go:69-93 | answers what the intent means without SQL, and refuses exactly what is not allowlisted |
| `SafeQuery.TextIgnoresValues` | store/sqlite/safe_query_store.go:159-179 | the WHERE text is the same for any two filter lists with the same fields and operators |
| `Dialects.DialectsSelectTheSame` | store/postgres/safe_query_store.go:147-174 | an intent means the same in both stores, on every database and under every comparison, if and only if none of its contains values has a backslash |
| `Widget.ScopeToOwner` | widget/ask.go:133-157 | drops every user_id filter (every filter at all on users), adds the owner's, leaves the caller's slice as it was |
| `Widget.ExecuteIntent` | ai/execute.go:27-37 | default limit, validation, then the store |
| `Widget.Ask` | widget/ask.go:85-121 | scopes before it validates and runs; its result is the scoped intent's answer |
| `Widget.ScopingIsIdempotent` | widget/ask.go:133-157 | scoping twice to one owner is scoping once |
| `Widget.ScopingIgnoresUserId` | widget/ask.go:133-157 | a user_id filter inserted anywhere changes nothing |
| `Widget.ScopingKeepsValidity` | widget/ask.go:133-157 | scoping a valid intent gives a valid intent |
| `Widget.ScopedQuerySelectsOwnRows` | widget/ask.go:133-157 | a scoped query selects, of the owner's rows, those that meet the surviving filters |
| `Widget.OthersRowsCannotBeSeen` | widget/ask.go:85-157 | two databases that agree on the owner's rows give the same answer to every intent, in select, count and group_by |
| `Asking.AskAnswers` | widget/ask.go:85-157 | an allowed question is answered from exactly the owner's rows that meet its other filters, in table order: their number, the sizes of their groups, or the allowed columns of the first of them, as many as the intent's own limit or 50 when that is zero |
| `Asking.AskRefuses` | widget/ask.go:85-157 | and refused if and only if nobody asks, the entity is none of the three, or a name, an operator or the limit is not allowed, in that order; a bad filter on users is dropped |
| `Asking.StoreAnswers` | store/sqlite/safe_query_store.go:69-152 | the store answers from the rows that meet every filter, and refuses any name it does not know |
| `Asking.UnlistedColumnsCannotBeSeen` | ai/validate.go:22-76 | two databases that differ only in columns off the allowlists, the stored hashes and secrets among them, answer every intent alike |
| `Base64.DecodeOfEncode` | security/argon2idhasher.go:173-234 | unpadded base64 reads back what it wrote, for every byte string |
| `Base64.EncodeOfDecode` | security/argon2idhasher.go:189-234 | a text that decodes is written back as it was if and only if it has no line breaks and no unused bit set |
| `Base64.SymbolsAreTheAlphabet` | security/argon2idhasher.go:173-181 | the 64 values are written as the letters, digits, plus and slash of table 1 of RFC 4648, in that order |
| `Base64.TextIs` | security/argon2idhasher.go:173-181 | what is written, by position: three bytes are four characters that are the digits of one 24-bit number, and one or two left over are two or three |
| `Base64.DecodableIff` | security/argon2idhasher.go:222-231 | a text decodes if and only if it has alphabet characters and line breaks only, and no lone character left over |
| `Argon2.DecodeOfEncodeHash` | security/argon2idhasher.go:173-234 | what decoding an encoded hash gives, for every parameter set, salt and key |
| `Argon2.RoundTrip` | security/argon2idhasher.go:104-234 | the round trip holds if and only if the parameters are usable and the lengths match; always when validate passes |
| `Argon2.HashText` | security/argon2idhasher.go:173-184 | the text that is written: the algorithm, v=19, memory, iterations and lanes, then salt and key |
| `Argon2.ValidatesIff` | security/argon2idhasher.go:104-124 | within the other bounds exactly those parameters are accepted whose hash claims no less memory than Argon2 uses, with salts of 8 and keys of 16 bytes at least |
| `Argon2.ParamsTextIsInjective` | security/argon2idhasher.go:182-184 | the parameter text is injective in memory, iterations and parallelism |
| `Argon2.DecodedHashIsOurs` | security/argon2idhasher.go:173-234 | a hash that decodes is the one this package writes if and only if its version segment is v=19 and both base64 segments are canonical; its parameter segment always is |
| `Argon2.VersionSpellings` | security/argon2idhasher.go:195-205 | with the version segment replaced the hash decodes alike if and only if the segment spells 19: v=, spaces, an optional plus, zeros, 19, then no digit and otherwise anything |
| `Argon2.OtherVersionsAreUnsupported` | security/argon2idhasher.go:195-205 | a hash of another version is refused as that |
| `Argon2.DecodesIff` | security/argon2idhasher.go:189-234 | a hash decodes if and only if it has six parts: nothing, argon2id, a spelling of version 19, a plainly written parameter text within bounds, and base64 of some salt and some key |
| `Hashers.WrittenHashIsIdentified` | security/multihasher.go:28-43 | a written hash names the algorithm that wrote it |
| `Hashers.AlgorithmIs` | security/multihasher.go:28-43 | a hash is bcrypt's or Argon2id's by its first characters, and unknown if and only if it starts with none of the five names |
| `Hashers.EveryWrittenHashVerifies` | security/multihasher.go:103-112 | whichever hasher is primary, a hash either algorithm wrote verifies its password |
| `Hashers.WrittenHashDecides` | security/multihasher.go:103-112 | it accepts a guess if and only if the key derived from the guess is the password's, or bcrypt takes the guess for that hash |
| `Hashers.ImportedHashDecides` | security/argon2idhasher.go:138-151 | so does a hash with any other parameters, salt and key, under those it carries, if they are usable; else it accepts nothing |
| `Hashers.RecognisedNeedsNoPrimary` | security/multihasher.go:103-112 | the primary is asked only about a format of neither kind, and a text that says Argon2id and does not decode is refused for every password |
| `Hashers.FreshHashIsCurrent` | security/argon2idhasher.go:157-171 | a hash just written by a hasher does not need rehashing under it |
| `Hashers.StaleIffWeaker` | security/argon2idhasher.go:157-171 | a hash written by one hasher needs rehashing under another if and only if the writer is weaker: another algorithm, a lower bcrypt cost, or less memory, fewer iterations, a shorter salt or key, whatever the lanes |
| `Hashers.OtherKindsAreStale` | security/argon2idhasher.go:157-171 | to an Argon2id hasher every hash of another kind is out of date |
| `Hashers.UserPasswords.UpgradePasswordHash` | auth/rehash.go:27-66 | rewrites an out-of-date hash and records the algorithms; a failing hash or update keeps the old one, a failing record keeps the rewrite |
| `Hashers.UpgradeIsRecorded` | auth/rehash.go:27-66 | a rewrite that goes through is recorded from the old hash's algorithm to the hasher's own, and touches no other account |
| `Hashers.StepConverges` | auth/rehash.go:27-66 | a login or password change makes no hash newly out of date, and upgrades only one that was |
| `Hashers.AtMostOneUpgrade` | auth/rehash.go:27-66 | under one fixed hasher every run, whatever fails in it, upgrades an account at most once, and only if it was out of date |
| `Hashers.RecordedWereMade` | auth/rehash.go:27-66 | over any run the audit log never counts more upgrades of an account than were made |
| `Hashers.LoginLeavesHashCurrent` | auth/login.go:110-117 | after a successful login the stored hash verifies the password, and is out of date if and only if it was before and the rewrite failed |
| `AccountStores.UserStore.GetByEmail` | store/memory/user_store.go:34-43 | the loop finds the one user with the email, or none |
| `AccountStores.UserStore.IncrementFailedAttempts` | store/memory/user_store.go:91-101 | one more failed attempt on that account, returned as it was stored |
| `AccountStores.UserStore.ResetFailedAttempts` | store/memory/user_store.go:103-114 | counter and lock cleared together |
| `AccountStores.UserStore.LockAccount` | store/memory/user_store.go:116-126 | the lock set, the counter kept |
| `AccountStores.TOTPStore.Upsert` | store/memory/totp_store.go:23-30 | writing a secret clears its confirmation |
| `AccountStores.TOTPStore.Confirm` | store/memory/totp_store.go:42-53 | confirms an existing secret, keeping it |
| `AccountStores.TOTPStore.Delete` | store/memory/totp_store.go:55-63 | removes an existing secret, or reports it missing |
| `AccountStores.VerificationStore.GetByTokenHash` | store/memory/verification_store.go:30-39 | the loop finds the one row with the hash, used or not |
| `AccountStores.WebAuthnStore.Delete` | store/memory/webauthn_store.go:59-69 | removes that user's credential and no other |
| `AccountStores.OAuthStore.GetByProviderID` | store/memory/oauth_store.go:32-41 | the loop finds the one identity of the provider's user, or none |
| `Pending.PendingLifetime` | token/mfa_pending.go:47-77 | a pending token names its user until five minutes less the cut-off fraction of a second, and not a moment longer |
| `Pending.AccessTokensAreRefused` | token/mfa_pending.go:63-77 | no access token is taken for a pending one |
| `Engine.Engine.FinishLogin` | auth/login.go:226-298 | one session in a family of its own, or a refusal that leaves the sessions alone |
| `Engine.Engine.CompletePrimaryAuth` | auth/login.go:182-213 | methods gathered from the three stores; pauses with a pending token when there are any, else finishes |
| `Engine.Engine.Login` | auth/login.go:31-124 | rate limit, lock, comparison, counter, lock-out, reset and rehash in the source's order, then the gate |
| `Engine.Engine.RequestMagicLink` | auth/magiclink.go:33-102 | a fifteen-minute token for a known email, silence for an unknown one |
| `Engine.Engine.CompleteMagicLink` | auth/magiclink.go:115-160 | unknown, wrong purpose, used and expired are refused; a good token is marked used before the gate |
| `Engine.Engine.LoginWithOAuth` | auth/oauth.go:66-124 | existing link, email conflict, or a new user and identity, then the gate |
| `Engine.Engine.CompleteLoginWithTOTP` | auth/mfa.go:167-198 | pending token, user, confirmed secret and code in that order, then one session |
| `Engine.Engine.CompleteLoginWithRecoveryCode` | auth/recoverycodes.go:127-156 | pending token, then one unused code consumed, then one session |
| `Engine.Engine.CompleteLoginWithWebAuthn` | auth/webauthn.go:264-333 | pending token, user, ceremony token and a response by one of the user's own credentials, in that order, then one session |
| `Engine.Engine.EnrollTOTP` | auth/mfa.go:20-56 | refused while a confirmed secret stands, else an unconfirmed one is written |
| `Engine.Engine.ConfirmTOTP` | auth/mfa.go:64-104 | an unconfirmed secret and a valid code confirm it |
| `Engine.Engine.DisableTOTP` | auth/mfa.go:110-143 | the current password removes the secret |
| `Engine.Engine.GenerateRecoveryCodes` | auth/recoverycodes.go:55-105 | only with a real factor; ten codes of nineteen characters are handed out, each spelling the digits whose hash is stored |
| `Gate.EverySessionIsEarned` | auth/login.go:182-274 | in every sequential run a created session follows a primary factor of its user on any path, with none enrolled, or within five minutes with one enrolled and a second factor proved |
| `Gate.StepIsProved` | auth/login.go:182-213 | one call creates a session only on a second factor, or on a primary one when none is enrolled, and signs a pending token only on a primary one when one is |
| `Gate.ProvedSecondIsHeld` | auth/webauthn.go:264-333 | a second factor is proved only by a user who holds one, and a passkey only by a user with a passkey |
| `Gate.PendingTokensWereIssued` | token/mfa_pending.go:47-77 | every pending token of a run was issued by a gate that saw a primary factor and an enrolled second one |
| `Gate.MethodsAre` | auth/login.go:182-213 | paused if and only if a real factor is enrolled; the secret, the passkey and the recovery code are offered in that order, each once, and a recovery code only beside a real factor |
| `Runs.StepKeepsWellFormed` | auth/oauth.go:66-124 | every operation keeps ids, emails, token hashes, credentials and identities unique |
| `Factors.ConfirmedSecretStays` | auth/mfa.go:20-143 | a confirmed secret is never overwritten or unconfirmed; only its owner's password removes it |
| `Factors.PasskeyStays` | auth/webauthn.go:176-209 | a passkey stays until its owner's password removes that credential |
| `Factors.LinkWorksOnce` | auth/magiclink.go:136-159 | in every sequential run one mailed token proves a primary factor at most once |
| `Factors.StepKeepsIdentities` | auth/oauth.go:139-195 | no call re-points an identity that is linked already |
| `Factors.IdentityNamesOneUser` | auth/oauth.go:66-124 | in every sequential run one identity of one provider proves the primary factor of one user only |
| `CodeLogins.ProvingSpends` | auth/recoverycodes.go:127-156 | an answer that proves a recovery code takes one of its hash from the user's unused codes and nothing from others; one that proves none takes nothing |
| `CodeLogins.SigningInSpends` | auth/recoverycodes.go:127-156 | whoever signs in with a recovery code has one fewer of that hash |
| `CodeLogins.OnlyTwoTouchCodes` | auth/recoverycodes.go:55-156 | no call but those answers and a new batch touches any code |
| `CodeLogins.NewCodesReplace` | auth/recoverycodes.go:55-105 | a new batch is given only beside a real factor, and replaces that user's codes and no other's |
| `CodeLogins.CodeWorksOnce` | auth/recoverycodes.go:127-156 | in every sequential run whose batches have distinct hashes one code proves a user's second factor at most once before that user's next batch |
| `Provenance.ConfirmedSecretWasProved` | auth/mfa.go:20-104 | in every run from no secrets a confirmed secret was enrolled by its account, then proved with a code of it, and has stood ever since |
| `Provenance.PasskeyWasRegistered` | auth/webauthn.go:102-165 | in every run from no passkeys each was registered, verified, for the account it belongs to |
| `Provenance.FollowedLinkWasMailed` | auth/magiclink.go:33-160 | in every run from no mailed tokens a link that proves a primary factor was asked for with that account's email within the last fifteen minutes |
| `Provenance.IdentityWasLinked` | auth/oauth.go:66-195 | in every run from no identities each was linked by its account or created it |
| `Provenance.CodeWasGiven` | auth/recoverycodes.go:55-105 | in every run from no codes each that can be used was given to its account beside a real factor |
| `Provenance.PasswordWasGiven` | auth/password.go:27-94 | in every run from no accounts each password hash was given at registration, empty when a provider created the account, at a change by someone who proved the current password, or by the rewrite of one that was proved, and has stood ever since |
| `Enrolments.EnrolledSecretConfirms` | auth/mfa.go:20-104 | a secret enrolled and then proved with a code of it is a second factor from then on, and other accounts' secrets are as they were |
| `Enrolments.RegisteredPasskeyAnswers` | auth/webauthn.go:102-165 | a registered passkey gates the account and a verified response naming it proves the factor |
| `Enrolments.GeneratedCodesAnswer` | auth/recoverycodes.go:55-167 | every code of a new batch proves the factor, however it is retyped |
| `Enrolments.AskedLinkProves` | auth/magiclink.go:33-160 | a link asked for proves its own account's factor and no other's, and for fifteen minutes to the nanosecond |
| `Enrolments.LinkedIdentityProves` | auth/oauth.go:139-195 | a linked identity proves its account's factor |
| `Enrolments.RegisteredAccountProves` | auth/signup.go:22-105 | a registered account proves its factor with its password |
| `Enrolments.NewPasswordEndsSessions` | auth/password.go:27-94 | only the current password changes it, and then every session of the account ends, and no other's |
| `Enrolments.DisabledSecretIsGone` | auth/mfa.go:110-143 | only the password takes a secret down, and it alone is gone then |
| `Enrolments.RemovedPasskeyIsGone` | auth/webauthn.go:176-209 | only the password takes a passkey down, and every other passkey stays |
| `Enrolments.FactorRefusals` | auth/mfa.go:20-143 | why setting up or taking down a factor is refused, reason by reason, each if and only if |
| `Enrolments.AccountRefusals` | auth/signup.go:22-105 | why a registration, a password change or a link to a provider is refused, each if and only if |
| `Enrolments.RefusalsLeaveBe` | auth/login.go:31-124 | whatever the call, a refusal leaves the state as it was, but for the counted password, the link already taken and the code already spent |
| `Answers.AnswerIsTheSession` | auth/login.go:226-298 | whatever the call, tokens are answered if and only if one live root session was created, theirs, with the caller's ip and user agent and an access token of the configured lifetime |
| `Answers.AnsweredTokenRotates` | auth/login.go:250-274 | the refresh token so answered rotates into a successor in the same family |
| `Answers.ProvedPrimaryPasses` | auth/login.go:182-213 | whoever proves a primary factor on any path gets a session, or with a real factor enrolled a pending token and all enrolled methods |
| `Answers.ProvedSecondSignsIn` | auth/webauthn.go:264-333 | whoever proves a second factor of any kind with a live pending token is signed in |
| `Answers.PasswordRefusals` | auth/login.go:31-124 | why a password is refused, each reason if and only if: an unknown email and a wrong password are told apart by nothing |
| `Answers.LinkRefusals` | auth/magiclink.go:115-160 | why a link is refused, each reason if and only if |
| `Answers.OAuthRefusals` | auth/oauth.go:66-124 | a provider's sign-in is refused if and only if the email is another account's or the linked user is gone |
| `Answers.SecondRefusals` | auth/mfa.go:167-198 | why a second factor is refused: the pending token before all else, then what is missing, then what does not match |
| `Answers.LinkRequestsLookAlike` | auth/magiclink.go:33-102 | a request for a link is answered alike for every email, and mails one only to an account |
| `Answers.RightPasswordIsAnswered` | auth/login.go:76-123 | the right password of an unlocked account gets a session, or a pending token and all enrolled methods |
| `Answers.PausedLoginFinishes` | auth/mfa.go:167-198 | a paused login finishes with the right code for as long as its pending token lives |
| `Answers.CodeSignsInAgain` | auth/mfa.go:167-198 | a code that has signed in does so again, beside the first session, exactly while it still matches and its pending token lives |
| `Lockout.EveryStepIsALockStep` | auth/login.go:80-112 | counter and lock of an account move only on a password Login compared for it |
| `Lockout.LockFollowsTries` | auth/login.go:80-112 | at every point of every run counter and lock are what the account's own tries make them, for accounts created on the way as well |
| `Lockout.CounterCountsFailures` | auth/login.go:85-112 | for every account that starts clean or is created in the run, the counter is the failures since the last success, and the lock is set if and only if that is at least the threshold |
| `Lockout.CounterAndLock` | store/memory/user_store.go:91-126 | and the lock then stands until the last failure plus the lockout |
| `Lockout.FailuresAreSpaced` | auth/login.go:80-93 | past the threshold the next comparison comes a whole lockout later |
| `Lockout.GuessesAreBounded` | auth/login.go:80-112 | with threshold k and lockout D a run without success makes at most k + floor(T / D) comparisons on an account, old or new |
| `Lockout.GuessBoundIsReached` | auth/login.go:80-112 | for every k, D and number of lockouts a run makes exactly that many |
| `RecoveryCodes.GroupDigits` | auth/recoverycodes.go:179-187 | groups of four behind dashes, for digits of any length, spelling those digits; nineteen characters for sixteen digits |
| `RecoveryCodes.GenerateRecoveryCode` | auth/recoverycodes.go:173-188 | the code hashes to its bytes' hex |
| `RecoveryCodes.HexIs` | auth/recoverycodes.go:173-188 | each byte is two lower-case hex digits, its upper half first |
| `RecoveryCodes.RetypedCodeReadsBack` | auth/recoverycodes.go:163-167 | however a code is retyped, with dashes, case and outer white space, the same digits are hashed |
| `RecoveryCodes.OnlySpellingsMatch` | auth/recoverycodes.go:163-167 | a text hashes to given digits if and only if, trimmed, it spells them |
| `RecoveryCodes.CodesFromBytesAreDistinct` | auth/recoverycodes.go:173-188 | different random bytes give different hashes |
| `RecoveryCodes.RecoveryCodeStore.ReplaceAll` | store/memory/recovery_code_store.go:24-37 | the user's codes become the new batch, all unused |
| `RecoveryCodes.RecoveryCodeStore.CountUnused` | store/memory/recovery_code_store.go:39-49 | the number of the user's unused codes |
| `RecoveryCodes.RecoveryCodeStore.Consume` | store/memory/recovery_code_store.go:51-63 | spends the first unused code with the hash, or reports none and changes nothing |
| `RecoveryCodes.SpendTakesOne` | store/memory/recovery_code_store.go:51-63 | consumption succeeds if and only if the hash is unused, and removes exactly one of it |
| `RecoveryCodes.BatchIsConserved` | store/memory/recovery_code_store.go:24-63 | until the next batch, consumed and unused together are the batch, whatever other users do |
| `RecoveryCodes.EachCodeWorksOnce` | auth/recoverycodes.go:127-156 | with distinct hashes no code is consumed twice, and a code works if and only if it has not been |
| `RateLimit.InMemoryRateLimiter.Allow` | security/ratelimiter.go:44-59 | one window step on the key's counter, nothing at all on a denial |
| `RateLimit.StandIn.Script` | cmd/smoketest/redis-rate-limiter/main.go:101-127 | the script's step on the key's counter, other keys untouched; an argument that is no integer is refused and changes nothing |
| `RateLimit.CountersSimulate` | security/redisratelimiter.go:33-42 | over every call sequence the in-memory count is the smaller of the Redis hits and the limit |
| `RateLimit.SameVerdicts` | cmd/smoketest/redis-rate-limiter/main.go:101-137 | window W in memory and W + 1 ticks in the stand-in give the same verdicts |
| `RateLimit.LimitsBelowOne` | security/ratelimiter.go:44-59 | a limit below one admits nothing in Redis, and in memory what a limit of one admits |
| `RateLimit.VerdictsAgreeIff` | security/redisratelimiter.go:33-42 | so the two limiters agree on every run if and only if the limit is positive |
| `RateLimit.StuckCounterHeals` | security/redisratelimiter.go:33-42 | a counter found without expiry is admitted again one window after its next call |
| `RateLimit.SlidingBound` | security/ratelimiter.go:44-59 | any closed interval of one window admits fewer than twice the limit on a key |
| `RateLimit.SlidingBoundIsReached` | security/ratelimiter.go:44-59 | and for every limit and window some run of calls admits one fewer than that |
| `RateLimit.DenialPostponesNothing` | security/ratelimiter.go:44-59 | a denied call, or one on another key, leaves this key's window as it was |
| `Anomaly.MemoryAnomalyStore.CountFailuresForIP` | store/memory/anomaly_store.go:56-108 | the failures of the IP at or after the bound; none for no IP |
| `Anomaly.MemoryAnomalyStore.CountTargetsForIP` | store/memory/anomaly_store.go:69-93 | distinct accounts among those failures, and the ones that named no account |
| `Anomaly.SqliteAnomalyStore.CountFailuresForIP` | store/sqlite/anomaly_store.go:97-116 | the number of the recorded attempts that failed at the IP at or after the bound, as in memory |
| `Anomaly.SqliteAnomalyStore.CountTargetsForIP` | store/sqlite/anomaly_store.go:118-134 | the distinct accounts and the unknown targets of the recorded attempts, as in memory |
| `Anomaly.SqliteAnomalyStore.RecordAttempt` | store/sqlite/anomaly_store.go:30-44 | one more attempt, stored as its row |
| `Anomaly.SqliteAnomalyStore.ForgetUser` | store/sqlite/user_store.go:108-139 | a deleted user's attempts keep their row and lose their account, and the rows still stand for the attempts |
| `Anomaly.SqliteWindowIsMemoryWindow` | store/sqlite/anomaly_store.go:83-134 | the string-compared window holds exactly what the instant-compared one holds |
| `Anomaly.CountsOfSum` | store/memory/anomaly_store.go:69-93 | one more failure adds an unknown target, a new account, or nothing |
| `Anomaly.CountsAre` | store/memory/anomaly_store.go:56-108 | the counts are the sizes of three sets told by position: the failures, the accounts they named, and those that named none |
| `Anomaly.BreadthAtMostFailures` | security/stuffing.go:70-72 | breadth never exceeds the failures of the same window |
| `Anomaly.DeletionNeverLowersBreadth` | store/sqlite/user_store.go:108-139 | deleting a user keeps every failure count and changes breadth by the user's failures there less one, never down |
| `Audit.AuditStore.SearchByType` | store/memory/audit_store.go:42-52 | the newest events of a type, newest first, up to the limit |
| `Audit.AuditStore.CountByType` | store/memory/audit_store.go:57-69 | the number of events of each type in the window, absent when none |
| `Audit.NewestIs` | store/memory/audit_store.go:42-52 | the search finds exactly the events that fewer than the limit of their type follow |
| `Stuffing.RecentlyFlaggedForStuffing` | auth/stuffing.go:123-147 | whether one of the newest fifty stuffing events is this IP's and inside the cooldown |
| `Stuffing.DetectCredentialStuffing` | auth/stuffing.go:42-112 | appends one event if and only if detection is on, the accounts failed against plus the failures at unknown accounts reach the threshold, and no event of the IP within the cooldown is among the newest fifty |
| `Stuffing.DetectedIffDue` | auth/stuffing.go:42-147 | the same of every log and every history of attempts, in terms of neither Evaluate nor the search |
| `Stuffing.SignalsAre` | security/stuffing.go:70-151 | the spray is signalled if and only if accounts and unknown failures together reach a positive threshold, and as mostly unknown if and only if the unknown outnumber the accounts as well |
| `Stuffing.SuppressedIff` | auth/stuffing.go:123-147 | suppressed if and only if a recent event of the IP has fewer than fifty stuffing events after it |
| `Stuffing.EventsAreSpaced` | auth/stuffing.go:42-147 | in every run two events of one IP are more than the cooldown apart or have at least fifty others between them |
| `Stuffing.FloodDefeatsTheCooldown` | auth/stuffing.go:123-147 | after fifty stuffing events of others an IP is recorded again within its cooldown |
| `Stuffing.FloodIsReachable` | auth/stuffing.go:42-147 | for all thresholds that flag and every positive cooldown some run records one IP twice at the same moment, exactly fifty events apart |
| `Migrate.UpMigrationNames` | store/sqlite/migrate.go:121-135 | the up-migrations of the directory, sorted |
| `Migrate.MigrationNamesAre` | store/sqlite/migrate.go:121-135 | each file whose name ends in .up.sql once, in ascending order, and nothing else |
| `Migrate.Database.ApplyMigration` | store/sqlite/migrate.go:78-95 | body and record together or neither, whatever fails or crashes in between |
| `Migrate.Database.Migrate` | store/sqlite/migrate.go:43-76 | commits the missing files in order up to the first that does not; succeeds if and only if all of them commit |
| `Migrate.CallCommits` | store/sqlite/migrate.go:43-95 | from a front part of the files a call commits on, file by file up to its first mishap, that file too if the crash came after its commit, and completes if and only if it reaches the last |
| `Migrate.EveryHistoryIsAPrefix` | store/sqlite/migrate.go:43-95 | after any history of cut-off calls, over releases that add files at the end, the bodies never shrink, are a prefix of the last release's names, and all of them once a call for those completes |
| `Migrate.FreshDatabase` | store/sqlite/migrate.go:43-95 | from an empty database over such releases: no body twice, ascending, always a prefix |
| `Migrate.FurtherCallsCommitNothing` | store/sqlite/migrate.go:61-75 | after a completed call a further call commits nothing and succeeds |
| `Migrate.CompletedCallIsInOrder` | store/sqlite/migrate.go:61-75 | a completed call leaves file-name order if and only if it started from a prefix of it |
| `Digest.FormatCount` | admin/digest.go:414-424 | a minus sign for a negative count, then its decimal digits with a comma before every third from the right |
| `Digest.GroupedReadsBack` | admin/digest.go:414-424 | for every count: without its commas it is the decimal text, and the commas part it in threes |
| `Digest.Total` | admin/digest.go:108-114 | the sum of the counts, in whatever order the map is walked |
| `Digest.UnclassifiedTypes` | admin/digest.go:294-313 | the occurring types no section claims, each once, in name order |
| `Digest.OtherNamesAreUnique` | admin/digest.go:294-313 | and there is only one such list, so map order cannot show |
| `Digest.EachTypeHasOnePlace` | admin/digest.go:137-201 | no event type stands twice in the sections |
| `Digest.UnclassifiedIsHost` | admin/digest.go:137-201 | the sections claim exactly the engine's own event types |
| `Digest.Lines` | admin/digest.go:222-265 | every occurring type is printed once with its count and the counts sum to the total, if and only if the total is not zero or nothing occurred |
| `Digest.CountsDoNotCancel` | admin/digest.go:108-114 | counts of events sum to zero only when nothing occurred |
| `Digest.CancellingCounts` | admin/digest.go:222-232 | counts that cancel print as an empty window |
| `Digest.BuildDigest` | admin/digest.go:70-105 | the counts of the window it names, as numbers of positions in the log, with no event dated later, and the newest events of the attention types that occurred, sorted newest first |
| `Digest.DigestOfOrderedHistory` | admin/digest.go:70-105 | with time-ordered events each attention type shows exactly the smaller of ten and its count, its newest, newest first; other types show none |
| `Digest.LinesOfOrderedHistory` | admin/digest.go:222-290 | and so the lines spell out below each attention type its newest events, up to ten, newest first, and below other types nothing |

## Left out

- SQL engines, drivers and connection pools, and Postgres isolation: a table is a map or a sequence. `Sql` reads only statements of the shape the compilers emit.
- Cryptography: SHA-256, HMAC, AES-GCM, bcrypt, Argon2 key derivation, JWT encoding. bcrypt's refusal of long passwords is a failing hash like any other.
- The WebAuthn ceremony and TOTP arithmetic: whether a ceremony token opens, a response's signature verifies, a registration is accepted and a code matches are opaque verdicts. The expiry of a ceremony token is part of its verdict. A passkey's sign count and its update, nickname and stored blob are not modelled.
- Acceptance of access tokens: sessions are observed when they are created, and only the `typ` test of the pending token is modelled.
- Concurrent redemption of magic links and concurrent rotation in memory: the code does not gate success on a guarded update there, so runs are sequential (`UnguardedRaceLeavesTwoLive` shows why for rotation).
- Email changes and account deletion inside login runs. Deletion is modelled for sessions (`Rotation`) and login attempts (`Anomaly`).
- `SignUp`, `ChangePassword`, `LinkOAuthIdentity`, passkey registration and removal are steps of the state machine on values, without a class method.
- Email, webhook, geolocation, LLM and breach-check interfaces, loggers and console output; anomaly signals other than credential stuffing.
- Timestamps.ScanTime.Scan: does not model the location of the time it reads, only its instant.
- Non-ASCII case folding, in ILIKE and in retyped recovery codes; LIKE on Postgres columns that are not text.
- The order of groups and of ties in group_by answers, and the order of rows a select without ORDER BY returns: rows keep table order.
- The digest's phrases, dates, window description, cap note and event descriptions: a line is its type, count and events.
- `ListRecentSuccesses` and the per-user failure count, `CountActive`, `ListByUser`, the user and session listings: easy members.
- The wording and numeric overflow of counts: counters and hits are unbounded integers.
- The metadata of audit events.
- Rate-limiter calls inside login are one verdict, taken from the call.
- API keys, password policy flags, configuration defaults, user-agent tables and smoke tests other than the Redis stand-in.
- Engine.Engine.CompleteLoginWithWebAuthn: does not model the update of the credential, and leaves to the verdict that a ceremony token was issued to the same user.
