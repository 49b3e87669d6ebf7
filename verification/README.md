# A verified model of the session, key and contract cores of webgates

The project models, in Dafny, the parts of the repository whose correctness rests on more
than one function, and proves what holds of them in all inputs and all interleavings.

- **Session renewal.** `Sessions`, `RepositoryContract` and `Tokens` hold the records, the
  persistence contract as relations between store states, and token issuance.
  `MemoryRepository` and `RenewalService` are the imperative layer: the in-process backend,
  shown to keep the contract, and `issue_session`, `renew_session` and `revoke_session`
  proved against a complete outcome table. `RenewalProtocol` is the concurrent layer: any
  number of requests, each between two repository calls, one store and one clock, with
  failures and dropped requests at every point. `RenewalInvariant`, `RenewalTheorems`,
  `RenewalAnswers`, `RenewalRefinement`, `RenewalAlone` and `RenewalExamples` are about its runs.
  `SurrealSessions` is a backend whose calls are not atomic, with what then fails and what
  is needed for it to hold; `SurrealAlone` is what it does where nothing interferes. It is the refresh-token
  rotation of section 4.14.2 of RFC 9700.
- **Verification keys.** `JwtCodec` and `CodecRuns` model the key set that clones of a codec
  share, sequentially and interleaved. `JwksVerifier` models fetching, caching and the
  verify-refresh-retry cycle with its decisions on error text, `TokenVerdicts` says which tokens
  it accepts and what it answers to the others, and `JwksRuns` and `JwksTheorems` are
  the same over crashes, restarts, cancellations and concurrent verifications.
- **Key-pair initialisation.** `KeyPair` models startups over two files, with writes that
  fail or crash half-way.
- **Text cores.** `FeatureLines`, `FeatureMatrix`, `FeatureDrift` and `Sorting` model the
  feature contract check, `FeatureDocument` writes its documents and shows that they are read
  back, `Csv` the comma-separated lists, `Text` the string operations.

Two kinds of state are kept apart. Classes (`MemorySessionRepository`, `SessionRenewer`,
`JsonWebToken`, `JwksVerifier`, `Es384KeyPairLoader`) follow the source statement by
statement. The transition systems cut the same code at its calls into shared state; their
steps use the contract relations and the functions that the classes are proved against.

## Assumptions

Drawn session, family and lease ids and refresh hashes are fresh, and a client presents a
token it was given or a value that was never drawn. All requests share one configuration
and one clock that does not run backwards. A repository call is atomic (except in `SurrealSessions`),
and one that returns an error has no effect. Times are unbounded integers; the panic of an overflowing
`SystemTime` addition is not modelled. The persistence contract leaves open which of several
failures is reported, whether a rotated-out hash is still found, whether a rotation releases
the lease, and at which instant between the start of the request and the commit expiry is
judged; the theorems hold for every choice. White space is the ASCII one.

## Where code and documentation differ

The model follows the code.

- Reuse of a rotated-out refresh token is documented as a compromise signal that revokes the
  family (webgates-sessions/README.md:83-85). The in-process backend finds active hashes only
  (`FindSessionByRefreshTokenHash`), so reuse after the rotation is only rejected
  (`ConsumedTokenIsOnlyRejected`, and over every such backend `ReusedTokenIsRejected`). Over such a backend a renewal can be taken for a replay if and
  only if a rotation of its session was committed after its lookup (`ReplayIsOpenOnlyIfOvertaken`),
  which may also hit a client that sent one token twice at once (`SimultaneousRenewalsEndTheSession`).
- A rotation under an expired lease is documented as refused (webgates-sessions/src/repository.rs:172).
  The in-process backend compares the lease with its own acquisition time, so an expired lease
  that nobody has taken over still commits (`ExpiredLeaseMayCommit`); `CommitIsOpen` gives the
  exact condition.
- Rotation is documented as atomic (webgates-sessions/src/repository.rs:197 and 247). The SurrealDB
  backend reads, checks and writes the whole record in separate queries, so two renewals can
  consume one token (`TwoRenewalsConsumeOneToken`), a rotation can undo a revocation
  (`RotationUndoesRevocation`) and a touch can revive a consumed token (`TouchRevivesConsumedToken`).
  `ConsumesAgainExactlyWhenOvertaken`, `GuardedWritesConsumeOnce` and `GuardedWritesKeepRevocation`
  give the conditions under which it does not.
- A successful fetch is documented to replace the installed keys and the cache
  (docs/distributed-sessions.md:70). A refresh that is cancelled between its write and its
  installation leaves the cache ahead of the keys until the next write or restart
  (`CancelledRefreshStrandsTheCache`); `CacheLeadsOnlyDuringRefresh` gives the exact condition.
- Startup is documented to fall back to the live endpoint (docs/distributed-sessions.md:66-72).
  A cache file that exists but cannot be read or loaded fails it even when the endpoint answers (`Bootstrap`, `UnusableCacheNeverStarts`).
- A JWKS document is documented as refused if no usable key can be built
  (webgates-codecs/src/jwt.rs:785-786). One unusable ES384 signing entry refuses the whole document (`KeySetForJwks`).
- Loading a key pair is documented to fail when the files are no valid pair
  (webgates-codecs/src/jwt.rs:410-413). Whether the halves belong together is not looked at
  (`LoadingIgnoresWhetherKeysMatch`).
- Reading a list back reverses it (`RoundTripReverses`), and the empty list is never read back
  (`EmptyListIsLost`).
- A heading that repeats a crate discards what was collected for it before (`EntryIsTheLastSection`).

## Model

| member | source | states |
|---|---|---|
| `Sessions.Validate` | webgates-sessions/src/config.rs:92-106 | validation accepts a configuration exactly when all three lifetimes are positive and the proactive window fits into the auth-token lifetime |
| `RenewalRefinement.RunRefines` | webgates-sessions/src/services.rs:319-423 | every interleaved run of renewals, issuances, revocations and touches is a run of a specification that keeps only active hash, expiry and revoked flag per session; all steps but create, committed rotation and revocation stutter |
| `RenewalRefinement.StepRefines` | webgates-sessions/src/services.rs:319-423 | each enabled step in an invariant state is one enabled step of that specification, with a swap only of the active hash, to an unused hash, and never to an earlier expiry |
| `RenewalTheorems.PreviousHashIsUsedOnce` | webgates-sessions/src/services.rs:392-408 | in every run a refresh hash is the previous hash of at most one committed rotation |
| `RenewalTheorems.RotationsFormOneChain` | webgates-sessions/src/services.rs:392-408 | of two successive committed rotations of a session the second consumes the hash that the first installed |
| `RenewalTheorems.ConsumedForever` | webgates-sessions/src/repository.rs:149-179 | a hash that a rotation has consumed is never again the active hash of any session |
| `RenewalTheorems.ActiveHashIsTheLastInstalled` | webgates-sessions/src/repository.rs:149-164 | the active hash of a session changes only by its own committed rotations |
| `RenewalTheorems.RevocationIsPermanent` | webgates-sessions/src/services.rs:385-409 | a session that is revoked, or whose family is, stays revoked in every later state, keeps its hash, and no renewal in flight or new commits a rotation of it |
| `RenewalTheorems.ExpiryNeverDecreases` | webgates-sessions/src/services.rs:385-407 | the expiry of a session never decreases along a run, although it is computed from the start time of each request |
| `RenewalTheorems.RenewedSessionIsTheIssuedOne` | webgates-sessions/src/services.rs:385-407 | the session a renewal returns has the id, family, subject and creation time that the stored session had at every earlier moment |
| `RenewalTheorems.OneUnexpiredLeasePerSession` | webgates-sessions/src/services.rs:366-383 | at no moment do two renewals between acquisition and rotation hold unexpired leases of one session |
| `RenewalTheorems.LostLeaseNeverCommits` | webgates-sessions/src/lease.rs:133-143 | a renewal whose lease was taken over or released commits no rotation afterwards |
| `RenewalTheorems.CommitHoldsItsLease` | webgates-sessions/src/repository.rs:166-179 | a committing renewal holds its own stored lease, unexpired at the instant at which the backend judges it; judged at the commit itself, an expired lease never commits |
| `RenewalTheorems.CommitIsOpen` | webgates-sessions/src/repository.rs:166-179 | a renewal that is ready can commit if and only if the session is live, the presented hash is active, and the stored lease is its own and unexpired at the instant of judgement |
| `RenewalExamples.ExpiredLeaseMayCommit` | webgates-repositories/src/memory/session.rs:216-221 | a concrete run in which a rotation commits long after its lease expired, because expiry is judged at the acquisition |
| `RenewalTheorems.TokensAreDeliveredAfterTheirCommit` | webgates-sessions/src/services.rs:388-421 | tokens reach the caller of a renewal only after its own rotation committed exactly that session and those tokens and made their hash the active one of the session; since then it did nothing but return, and nothing drawn for an uncommitted rotation is delivered |
| `RenewalTheorems.IssuedTokensAreDeliveredAfterTheirCreate` | webgates-sessions/src/services.rs:197-209 | tokens of an issuance are handed out only after its own create step made their hash the active one of the new session; since then it did nothing but return |
| `RenewalTheorems.ReplayAnswerIsJustified` | webgates-sessions/src/services.rs:413-420 | a replay is answered only with session and family revoked, and only for a token that the committed rotation of another request had consumed |
| `RenewalTheorems.ReplayIsOpen` | webgates-sessions/src/repository.rs:173-178 | a renewal that is ready can be taken for a replay if and only if some committed rotation has consumed its token |
| `RenewalTheorems.ReplayIsOpenOnlyIfOvertaken` | webgates-sessions/src/services.rs:340-420 | over a backend whose lookups find active hashes only, a renewal that is ready can be taken for a replay if and only if a rotation of its session was committed since its lookup |
| `RenewalTheorems.ReplayRevokesOneSession` | webgates-sessions/src/services.rs:413-420 | the family revocation of a replay leaves every other session, its liveness and its lease as they were |
| `RenewalAnswers.EveryAnswerIsJustified` | webgates-sessions/src/services.rs:326-422 | in every run each answer was given by a step of that renewal which had found its reason: a valid auth token for "not needed"; an invalid one, a token of no live unexpired session, or a session gone for "rejected"; the stored valid lease of another renewal, or no lease of its own, for "lease unavailable"; and except for a replay that step stored nothing |
| `RenewalAnswers.LogoutEndsTheSession` | webgates-sessions/src/services.rs:475-488 | from a logout of a session or of its family on, the session is revoked in every later state and no renewal of it, in flight or new, commits |
| `RenewalAnswers.TouchNotesOnly` | webgates-sessions/src/repository.rs:266-270 | a touch changes the last-seen time of its session and nothing else, whatever renewals are in flight |
| `RenewalAnswers.OperationsAreOpen` | webgates-sessions/src/repository.rs:253-270 | logouts and touches are possible exactly when their session or family exists |
| `RenewalExamples.SimultaneousRenewalsEndTheSession` | webgates-sessions/src/services.rs:340-420 | a concrete run: two renewals sent at once with one token end with a renewed session for the first and that session revoked by the replay answer of the second |
| `SurrealSessions.ConsumesAgainExactlyWhenOvertaken` | webgates-repositories/src/surrealdb/session.rs:366-448 | with reads and writes as separate queries, and as long as leases, touches and revocations are written on the hash they read, a rotation consumes a consumed hash again if and only if another rotation of that hash was written between its check and its write |
| `SurrealSessions.GuardedWritesConsumeOnce` | webgates-repositories/src/surrealdb/session.rs:366-448 | if every write finds the active hash that its operation has read, no hash is consumed twice in any run |
| `SurrealSessions.GuardedWritesKeepRevocation` | webgates-repositories/src/surrealdb/session.rs:450-475 | if every write finds the revocation that its operation has read, a revoked session stays revoked and no rotation of it is written |
| `SurrealSessions.TwoRenewalsConsumeOneToken` | webgates-repositories/src/surrealdb/session.rs:330-448 | an input: from any renewable session, two renewals consume one token when the first pauses between check and write beyond its lease |
| `SurrealSessions.RotationUndoesRevocation` | webgates-repositories/src/surrealdb/session.rs:366-475 | an input: a rotation written after a revocation that followed its check makes the session active again |
| `SurrealSessions.TouchRevivesConsumedToken` | webgates-repositories/src/surrealdb/session.rs:535-552 | an input: a touch that read before a rotation and writes after it makes the consumed token active again |
| `SurrealAlone.RenewalAlone` | webgates-repositories/src/surrealdb/session.rs:330-448 | from any state of any run, a renewal that nothing interrupts succeeds if and only if its hash is the active one of an unrevoked, unexpired session without a valid lease; it leaves exactly the extended session under the new hash, and otherwise the record as it was |
| `SurrealAlone.RevocationAlone` | webgates-repositories/src/surrealdb/session.rs:450-475 | a revocation that nothing interrupts revokes session and refresh token, drops the lease and keeps everything else |
| `SurrealAlone.TouchAlone` | webgates-repositories/src/surrealdb/session.rs:535-552 | a touch that nothing interrupts changes only the last-seen time |
| `SurrealAlone.WrittenAfterItsCheck` | webgates-repositories/src/surrealdb/session.rs:366-448 | in every run, also where operations overtake each other, a rotation is written only after its own check has found the active hash, its own valid lease and no revocation |
| `RenewalInvariant.InvAlways` | webgates-sessions/src/services.rs:319-423 | the invariant (records, hashes, leases, snapshots, chains and answers agree) holds in every state of every run |
| `RenewalInvariant.InvPreserved` | webgates-sessions/src/services.rs:319-423 | every step of every request keeps the invariant |
| `RenewalInvariant.NextGrows` | webgates-sessions/src/services.rs:385-386 | no step changes the identity of a session, undoes a revocation, forgets a hash or shortens a rotation log |
| `RenewalAlone.RenewedExactlyWhenAlone` | webgates-sessions/src/services.rs:326-421 | over every backend that keeps the contract, a renewal run alone from any state of any run, within its lease and without crossing an expiry, is answered with a renewed session if and only if the auth token is near expiry or expired, the hash is the active one of a live, unexpired session, and no valid lease is stored; the session it returns and the answer under a valid lease are exact |
| `RenewalAlone.RenewalAloneSucceeds` | webgates-sessions/src/services.rs:326-408 | whenever that condition holds at the end of a run, steps of the renewal alone reach the renewed session |
| `RenewalAlone.InactiveTokenIsRejected` | webgates-sessions/src/services.rs:336-351 | over any backend whose lookups find active hashes only, a renewal with a token that is not the active one of a live, unexpired session can only be rejected and stores nothing, however much time passes |
| `RenewalAlone.ReusedTokenIsRejected` | webgates-sessions/src/services.rs:336-351 | so does a renewal with a token that some rotation has consumed, at any time after that rotation |
| `RenewalAlone.IssuanceAloneSucceeds` | webgates-sessions/src/services.rs:186-210 | from any state of any run an issuance that nothing interrupts hands out its tokens and leaves exactly one more session, created now and expiring one refresh lifetime later, in a family of its own |
| `RenewalService.SessionRenewer.RenewSession` | webgates-sessions/src/services.rs:319-422 | run alone over the in-process backend, a renewal answers and changes the store exactly as the outcome table says, for every state, token, clock reading and draw; a renewed answer holds the drawn auth and refresh tokens; the backend stays valid when the drawn hash is in no use |
| `RenewalService.SessionRenewer.RenewFound` | webgates-sessions/src/services.rs:366-422 | the part of a renewal from the lease acquisition on, against its row of the table; it keeps the backend valid |
| `RenewalService.SessionRenewer.RenewHeld` | webgates-sessions/src/services.rs:385-422 | the part of a renewal that holds the lease: alone, it meets its row of the table; whatever others did since the lookup, a session no longer live is answered "rejected", a lease lost "lease unavailable", and a token no longer active as a replay, with the family and its sessions revoked |
| `RenewalService.AnsweredExactlyWhen` | webgates-sessions/src/services.rs:326-422 | when each answer is given, if and only if, by the stored records alone: "not needed", "rejected", "lease unavailable" with the very lease that is stored and valid, and each error |
| `RenewalService.RenewedExactlyWhen` | webgates-sessions/src/services.rs:326-408 | a renewal is answered with a renewed session exactly when it is needed, tokens can be issued, the hash leads to a live unexpired session and no valid lease is stored; the session is the stored one, seen now and expiring one refresh lifetime from now |
| `RenewalService.StoredExactly` | webgates-sessions/src/services.rs:366-411 | what each answer leaves stored: the renewed session as returned under the new hash and without lease; the lease when no tokens could be issued; otherwise everything as it was |
| `RenewalService.SessionRenewer.Create` | webgates-sessions/src/services.rs:289-300 | a renewer is built exactly from the valid configurations |
| `RenewalService.SessionIssuer.Create` | webgates-sessions/src/services.rs:160-170 | an issuer is built exactly from the valid configurations |
| `RenewalService.AbandonedLeaseBlocksUntilItExpires` | webgates-sessions/src/lease.rs:196-217 | the lease left by a renewal that could not issue tokens blocks the session until its time has passed, and not longer |
| `RenewalService.RenewalsChain` | webgates-sessions/src/services.rs:385-408 | the new token renews again exactly while the renewed session has not expired, and the lifetime then counts from the second renewal |
| `RenewalService.ConsumedTokenIsOnlyRejected` | webgates-repositories/src/memory/session.rs:246-256 | over the in-process backend a rotated-out token presented again is only rejected, at any time; nothing is revoked |
| `RenewalService.SessionIssuer.IssueSession` | webgates-sessions/src/services.rs:186-210 | an issuance creates one session, created now and expiring one refresh lifetime later, and returns the drawn tokens; it fails without effect, and with fresh ids only for want of tokens; the new token is then eligible until the expiry |
| `RenewalService.SessionRevoker.RevokeSession` | webgates-sessions/src/services.rs:475-488 | logout revokes the one session or the whole family, or fails without effect when it does not exist |
| `MemoryRepository.MemorySessionRepository.CreateSession` | webgates-repositories/src/memory/session.rs:66-111 | creation keeps the persistence contract; its two failures and their exact conditions |
| `MemoryRepository.MemorySessionRepository.FindSessionByRefreshTokenHash` | webgates-repositories/src/memory/session.rs:113-124 | lookup keeps the contract and finds a session exactly for the active hashes of sessions that are not revoked |
| `MemoryRepository.MemorySessionRepository.TryAcquireRenewalLease` | webgates-repositories/src/memory/session.rs:153-185 | acquisition keeps the contract, with expiry judged at the proposed acquisition time; unavailable exactly for sessions that are not live |
| `MemoryRepository.MemorySessionRepository.RotateRefreshToken` | webgates-repositories/src/memory/session.rs:187-259 | rotation keeps the contract; the complete condition of success, the new index and leases, and no effect on records otherwise |
| `MemoryRepository.MemorySessionRepository.RevokeSession` | webgates-repositories/src/memory/session.rs:261-283 | revocation of one session or of its family keeps the contract and leaves the session dead |
| `MemoryRepository.MemorySessionRepository.RevokeFamily` | webgates-repositories/src/memory/session.rs:285-306 | the family record and all its sessions become revoked, with their leases and index entries gone, and nothing else changes |
| `MemoryRepository.MemorySessionRepository.RevokeAll` | webgates-repositories/src/memory/session.rs:285-306 | the loop over the members revokes exactly them, in whatever order the map yields them |
| `MemoryRepository.MemorySessionRepository.RevokeSingleSession` | webgates-repositories/src/memory/session.rs:332-351 | one session and its refresh record become revoked, its hash and lease are dropped |
| `MemoryRepository.MemorySessionRepository.TouchSession` | webgates-repositories/src/memory/session.rs:308-318 | only the last-seen time of the session changes |
| `Tokens.HashDigest` | webgates-sessions/src/tokens.rs:324-335 | the loop writes the digest in lower-case base16 |
| `Tokens.UnhexInvertsHex` | webgates-sessions/src/tokens.rs:325-332 | the written text has two characters a byte and reads back as the digest |
| `Tokens.HexInvertsUnhex` | webgates-sessions/src/tokens.rs:325-332 | every text that reads as a digest is the one written for it |
| `Tokens.HexIsInjective` | webgates-sessions/src/tokens.rs:325-332 | distinct digests are stored under distinct hashes |
| `Tokens.HexAt` | webgates-sessions/src/tokens.rs:325-332 | byte `i` of the digest is read at positions `2 * i` and `2 * i + 1`, its high half first |
| `Tokens.DigitsAreLowerCase` | webgates-sessions/src/tokens.rs:325-332 | the sixteen digits are the decimal ones and the lower-case letters, in their order |
| `Tokens.IssueForSubject` | webgates-sessions/src/tokens.rs:641-668 | issuance succeeds exactly when all three parts do; the pair holds the drawn auth token and the drawn refresh token, and the hash is that of the latter; each of the three errors is reported exactly when its part is the first to fail |
| `JwtCodec.ConvertKeys` | webgates-codecs/src/jwt.rs:795-799 | conversion succeeds exactly when every entry converts, and otherwise reports the first that does not |
| `JwtCodec.KeySetForJwks` | webgates-codecs/src/jwt.rs:787-812 | a verification-only codec holds the keys of all entries and no fallback, and is refused for an empty set or any unusable entry |
| `JwtCodec.KidsAreTheEntries` | webgates-codecs/src/jwt.rs:1050-1062 | the `kid`s of the map are those of the entries |
| `JwtCodec.LastEntryWins` | webgates-codecs/src/jwt.rs:1050-1062 | of several entries with one `kid` the last one counts |
| `JwtCodec.KeyHasEntry` | webgates-codecs/src/jwt.rs:1050-1062 | every key of the map is that of an entry with its `kid` |
| `JwtCodec.JsonWebToken.ReplaceVerificationKeys` | webgates-codecs/src/jwt.rs:1029-1048 | a replacement installs the whole map; the fallback is one of the new keys, or absent when not allowed or when there are none |
| `JwtCodec.JsonWebToken.ReplaceVerificationKeysFromJwks` | webgates-codecs/src/jwt.rs:1050-1062 | a JWKS replacement with an entry that does not convert changes nothing; otherwise the map of all entries is installed |
| `JwtCodec.SelectedKeyIsTheLastEntry` | webgates-codecs/src/jwt.rs:1064-1104 | from a JWKS key set a header is given a key if and only if it is an ES384 JWT whose `kid` occurs, and then that of the last entry with this `kid` |
| `JwtCodec.FallbackServesMissingKid` | webgates-codecs/src/jwt.rs:1029-1104 | after a replacement an ES384 JWT without `kid` gets a key exactly when that is allowed and there are keys, and then one of the new ones |
| `CodecRuns.DecodeSeesOneWholeSet` | webgates-codecs/src/jwt.rs:1029-1104 | in every interleaving through any clones each decode takes its key from one set that was current between its start and its selection, and that set is the initial one or stems whole from one replacement |
| `CodecRuns.FieldsAreWholeOutsideTheLock` | webgates-codecs/src/jwt.rs:1034-1046 | although the two fields are written one after the other, they hold one installed set whenever no writer is inside the lock |
| `CodecRuns.RefusedNeverWrites` | webgates-codecs/src/jwt.rs:1050-1062 | in every run only replacements whose entries all convert ever enter the lock or install a set |
| `CodecRuns.InvAlways` | webgates-codecs/src/jwt.rs:1029-1104 | in every state of every run there is one writer or any readers, the fields agree with the last installed set up to what the writer has written, and every installed set comes from one replacement |
| `CodecRuns.RefusalChangesNothing` | webgates-codecs/src/jwt.rs:1050-1062 | the step that refuses a replacement finds an entry that does not convert and changes neither field, lock nor history |
| `CodecRuns.DecodeAlone` | webgates-codecs/src/jwt.rs:1064-1104 | from any state of any run without a writer, a decode that nothing interrupts goes through, takes the key of its header from the last installed set and changes nothing |
| `CodecRuns.ReplacementAlone` | webgates-codecs/src/jwt.rs:1029-1062 | from any state with a free lock, a replacement whose entries all convert goes through, and its set is what the fields hold and what was installed last |
| `CodecRuns.RefusalAlone` | webgates-codecs/src/jwt.rs:1050-1062 | a replacement with an entry that does not convert is refused at the first such entry and leaves everything else as it was |
| `JwksVerifier.CodecFromJwks` | examples/distributed/src/jwks.rs:244-259 | a codec is built exactly from documents with at least one ES384 signing entry, all of them convertible, and otherwise the error says which of the two failed |
| `JwksVerifier.LoadedKeysSign` | examples/distributed/src/jwks.rs:244-259 | such a codec has at least one key, no fallback, and only keys of ES384 signing entries on P-384 with the same `kid` |
| `JwksVerifier.SigningKeysAreFiltered` | examples/distributed/src/jwks.rs:245-250 | the loop keeps exactly the ES384 signing entries |
| `JwksVerifier.JwksVerifier.Refresh` | examples/distributed/src/jwks.rs:132-143 | a refresh succeeds exactly when fetch, build and cache write do, then installs and caches that document; a failed one changes neither keys nor cache and reports the first part that failed |
| `JwksVerifier.JwksVerifier.LoadCachedVerifier` | examples/distributed/src/jwks.rs:145-166 | which cache files give a verifier, none, or an error |
| `JwksVerifier.JwksVerifier.Bootstrap` | examples/distributed/src/jwks.rs:88-115 | startup succeeds exactly with a usable cache, or without a cache file and with a successful refresh; the installed keys are the fetched ones if the refresh succeeded; the error is that of the cache, or else that no keys are available |
| `JwksVerifier.JwksVerifier.VerifyToken` | examples/distributed/src/jwks.rs:207-233 | the answer is exactly that of a first decode, at most one refresh with its result or error, and a second decode with the refreshed keys; keys change exactly when a refresh was needed and succeeded |
| `JwksVerifier.KidReadsBack` | examples/distributed/src/jwks.rs:236-242 | reading an unknown-`kid` error back gives the `kid` up to its first back-tick |
| `JwksVerifier.KidRoundTrip` | examples/distributed/src/jwks.rs:236-242 | formatting and reading undo each other exactly for a `kid` without back-tick |
| `JwksVerifier.UnknownKidIsReported` | examples/distributed/src/jwks.rs:214-227 | the second decode reports an unknown `kid` as itself if and only if it has no back-tick |
| `JwksVerifier.MissingKidAsksForRefresh` | examples/distributed/src/jwks.rs:210-220 | the missing-`kid` error asks for a refresh and is classified as such |
| `JwksVerifier.AbsentKidIsUnknown` | examples/distributed/src/jwks.rs:207-233 | a `kid` absent before and after the refresh is answered with exactly that `kid` if and only if it has no back-tick |
| `JwksVerifier.RefreshFindsNewKid` | examples/distributed/src/jwks.rs:207-233 | a token whose key is published before the refresh verifies |
| `JwksVerifier.MissingKidIsRefused` | examples/distributed/src/jwks.rs:207-233 | a token without `kid` is refused when neither key set has a fallback |
| `TokenVerdicts.LoadsExactlyWhen` | examples/distributed/src/jwks.rs:244-259 | a document loads if and only if it has an ES384 signing entry on P-384 and each of them has a usable point and a `kid` that is not blank, whatever its other entries are |
| `TokenVerdicts.PublishedKeyIsUsed` | examples/distributed/src/jwks.rs:244-259 | the key of a `kid` is exactly that of the last signing entry of the document with it |
| `TokenVerdicts.DecodesExactlyWhenAccepted` | webgates-codecs/src/jwt.rs:1130-1158 | a decode succeeds exactly for an ES384 JWT whose key, by its `kid` or as fallback, exists and does not reject it; a rejection is answered with its own message |
| `TokenVerdicts.VerifiedExactlyWhen` | examples/distributed/src/jwks.rs:207-233 | a verification succeeds exactly when the installed keys accept the token, or their answer asks for a refresh that succeeds with keys that do |
| `TokenVerdicts.RefusedWith` | examples/distributed/src/jwks.rs:207-233 | a failed decode is answered with its own message exactly unless that contains one of the two texts; then with the error of the refresh or with what the second message says |
| `TokenVerdicts.NamesKidExactlyWhen` | examples/distributed/src/jwks.rs:236-242 | a message yields a `kid` if and only if some marker in it is followed by a back-tick |
| `TokenVerdicts.WrongAlgorithmIsRefused` | webgates-codecs/src/jwt.rs:1064-1074 | a token of another algorithm is refused with that message at once, without a refresh; the letters excluded occur in no algorithm name |
| `TokenVerdicts.WrongTypeIsRefused` | webgates-codecs/src/jwt.rs:1076-1081 | so is an ES384 token whose type is not JWT |
| `JwksTheorems.UpHasWorkingKeys` | examples/distributed/src/jwks.rs:88-115 | in every interleaving, over restarts, a verifier that is up holds a nonempty set of ES384 signing keys |
| `JwksTheorems.NeverHalfStarted` | examples/distributed/src/jwks.rs:88-115 | in every run a verifier is starting only while its startup refresh is in progress; once that has ended, failed or been cancelled it is up or down |
| `JwksTheorems.FailedRefreshInstallsNothing` | examples/distributed/src/jwks.rs:132-143 | a refresh that failed, in the background, at startup or for a token, has installed nothing at any time |
| `JwksTheorems.OnlyInstallChangesKeys` | examples/distributed/src/jwks.rs:141-141 | while the verifier is up its keys change only by the installation of a refresh, to the document of that refresh |
| `JwksTheorems.KeysNeverGoBack` | examples/distributed/src/jwks.rs:132-143 | keys never give way to keys of an earlier fetch; with a cache path not even over crashes and restarts |
| `JwksTheorems.CacheIsInstalledOrNewer` | examples/distributed/src/jwks.rs:132-143 | the cache holds the document behind the installed keys or one fetched later, and whatever a refresh wrote loads |
| `JwksTheorems.CacheLeadsOnlyDuringRefresh` | examples/distributed/src/jwks.rs:137-141 | in every run, when the cache is ahead of the installed keys, some refresh is about to install that very document, except if and only if such a refresh was cancelled after its write and nothing was written and the process did not end since |
| `JwksTheorems.CancelledRefreshStrandsTheCache` | examples/distributed/src/jwks.rs:137-141 | an input for the exception: from any state that is up, a refresh cancelled between write and installation leaves the cache ahead with no refresh in flight |
| `JwksTheorems.RestartNeedsNoEndpoint` | examples/distributed/src/jwks.rs:99-114 | after a crash at any moment a restart comes up from the cache though no fetch succeeds, with keys no older than before |
| `JwksTheorems.UnusableCacheNeverStarts` | examples/distributed/src/jwks.rs:99-104 | a cache file that does not load keeps the verifier down in every run, whatever the endpoint answers |
| `JwksTheorems.RefreshAlone` | examples/distributed/src/jwks.rs:132-143 | a refresh that nothing interrupts does to keys and cache what the sequential refresh does, and gives up the lock |
| `JwksTheorems.AnswersAreJustified` | examples/distributed/src/jwks.rs:207-233 | every answer is the one a verification alone would give for the keys it saw, and a second decode used keys fetched no earlier than its own refresh and later than those of its first |
| `JwksTheorems.AcceptedExactlyWhen` | examples/distributed/src/jwks.rs:200-233 | in every run a token is accepted if and only if no refresh failed for it and the document it was last judged by publishes, for the `kid` of its ES384 JWT header, a signing key that does not reject it |
| `JwksTheorems.RejectionIsAnswered` | examples/distributed/src/jwks.rs:200-233 | in every run a token that its published key rejects is answered with the message of that rejection, after a refresh as classified by its text |
| `JwksTheorems.VerificationAlone` | examples/distributed/src/jwks.rs:207-233 | from any state that is up with a free lock, a verification that nothing interrupts reaches its answer, which is the sequential one, and installs and caches what its refresh fetched |
| `JwksTheorems.AbsentKidIsReported` | examples/distributed/src/jwks.rs:214-227 | in every run a `kid` absent from the document of the second decode is reported as exactly that `kid` if and only if it has no back-tick |
| `JwksTheorems.TwoDecodesOneRefresh` | examples/distributed/src/jwks.rs:207-233 | in every run a verification decodes at most twice and fetches at most once |
| `JwksRuns.InvAlways` | examples/distributed/src/jwks.rs:88-233 | lock, fetch order, loaded keys and answers agree in every state of every run |
| `JwksRuns.LockPreserved` | examples/distributed/src/jwks.rs:132-143 | at most one task is inside the refresh lock, also after failures, cancellations and crashes |
| `KeyPair.Es384KeyPairLoader.InitializeIfRequired` | webgates-codecs/src/jwt.rs:360-407 | the answer and the files after one startup are those of the startup function that the rows below characterise, for every outcome of each write and read |
| `KeyPair.Es384KeyPairLoader.Load` | webgates-codecs/src/jwt.rs:414-444 | loading answers with the two files or says which step failed |
| `KeyPair.FirstStartup` | webgates-codecs/src/jwt.rs:366-396 | on an empty disk a startup creates a pair if and only if the directories can be made and both writes complete, and then returns and leaves the two halves of the minted key; otherwise it says what went wrong and leaves exactly what was written until then |
| `KeyPair.LaterStartup` | webgates-codecs/src/jwt.rs:365-365 | with both files present a startup changes neither and returns them exactly when they can be read and each parses; otherwise it says which of the two failed |
| `KeyPair.ExistingFilesStay` | webgates-codecs/src/jwt.rs:360-407 | over any run of startups no existing file is overwritten or removed |
| `KeyPair.SuccessesAgree` | webgates-codecs/src/jwt.rs:360-407 | all successful startups of a run return the same pair |
| `KeyPair.FateIsSealed` | webgates-codecs/src/jwt.rs:360-407 | once any file exists, later startups succeed exactly when both files are whole and can be read, and return them |
| `KeyPair.OneFileIsRefusedForever` | webgates-codecs/src/jwt.rs:398-406 | exactly one file makes every later startup fail with that error, without minting |
| `KeyPair.SuccessIsOnDisk` | webgates-codecs/src/jwt.rs:360-407 | a successful startup leaves the pair it returns in the files |
| `KeyPair.SuccessReturnsOneMint` | webgates-codecs/src/jwt.rs:366-398 | from an empty disk a successful startup returns the two halves of one key that some startup minted |
| `KeyPair.LoadingIgnoresWhetherKeysMatch` | webgates-codecs/src/jwt.rs:478-481 | loading accepts exactly the files that each parse, whether or not they belong together |
| `FeatureMatrix.ParseFeatureMatrix` | scripts/check_feature_contract.py:125-212 | the nested loops terminate and collect what a fold over the lines collects |
| `FeatureLines.HeadingEndsBlocks` | scripts/check_feature_contract.py:131-154 | a heading ends both kinds of block, so that no heading is taken for a line of a block |
| `FeatureLines.ClassifiedExactlyWhen` | scripts/check_feature_contract.py:131-198 | by its text: which line opens which block, what is a bullet, and what ends a block of either kind |
| `FeatureMatrix.CratesAreTheHeadings` | scripts/check_feature_contract.py:131-137 | the documented crates are exactly those that headings name |
| `FeatureMatrix.EntryIsTheLastSection` | scripts/check_feature_contract.py:131-210 | the entry of a crate is what the lines between its last heading and the next heading give on their own |
| `FeatureMatrix.LastSectionExists` | scripts/check_feature_contract.py:131-137 | every crate that a heading names has such a last section |
| `FeatureMatrix.BlockIsOpen` | scripts/check_feature_contract.py:143-198 | a block of either kind is open exactly when some line opened it and every line since belongs to it |
| `FeatureMatrix.FeaturesAreTheBullets` | scripts/check_feature_contract.py:156-183 | a section knows exactly the features that bullets of its open features blocks document, each with the dependencies of the last such bullet |
| `FeatureMatrix.CombinationsAreTheBullets` | scripts/check_feature_contract.py:188-208 | a section lists the combinations of exactly the bullets of its open combinations blocks, in their order and with repetitions |
| `FeatureDocument.DocumentIsReadBack` | scripts/check_feature_contract.py:125-212 | a document written out in the documented form (headings, blocks, bullets, blank lines) from any list of entries is read back as exactly those entries, whenever each bullet alone reads back |
| `FeatureDocument.ExpectedAreTheEntries` | scripts/check_feature_contract.py:131-137 | with one entry a crate, the section of a crate holds the features and combinations of its entry |
| `FeatureDocument.FeatureIsMapped` | scripts/check_feature_contract.py:183-183 | of several bullets of one feature the last one counts |
| `FeatureDocument.AgreementIsWithTheEntries` | scripts/check_feature_contract.py:266-307 | with one entry a crate and one bullet a feature, there is agreement exactly when the workspace has the crates of the entries, each with exactly the features of its entry and the same dependencies, each as often |
| `FeatureDocument.CheckWritten` | scripts/check_feature_contract.py:255-307 | the whole check of such a written document finds nothing exactly when the entries are those of the workspace |
| `FeatureDrift.CheckFeatureContract` | scripts/check_feature_contract.py:255-307 | from the text to the verdict: each drift is listed, nothing else is, and the list is empty exactly when document and workspace agree |
| `FeatureDrift.CheckDrift` | scripts/check_feature_contract.py:266-307 | each drift is listed once and nothing else; the list is empty exactly when crate names, feature names and dependency multisets agree |
| `FeatureDrift.CompareFeatures` | scripts/check_feature_contract.py:285-307 | the drifts of one crate, each once and nothing else |
| `FeatureDrift.NormalizeComparesMultisets` | scripts/check_feature_contract.py:215-220 | normalised dependencies are equal exactly when the dependencies are the same with the same multiplicities |
| `FeatureDrift.NoDriftMeansAgreement` | scripts/check_feature_contract.py:266-307 | there is no drift if and only if document and workspace agree |
| `Sorting.SortedComparesMultisets` | scripts/check_feature_contract.py:219-219 | sorting tells two lists apart exactly by their multisets |
| `Csv.FromCsv` | webgates-repositories/src/comma_separated_value.rs:67-74 | the pop loop returns the reading of the pieces from the last to the first |
| `Csv.ReadingIsBackwards` | webgates-repositories/src/comma_separated_value.rs:67-74 | a reading succeeds exactly when every piece parses and lists the values back to front |
| `Csv.ReadingFailsAtTheLast` | webgates-repositories/src/comma_separated_value.rs:70-72 | a failed reading reports the last piece that does not parse |
| `Csv.SplitJoin` | webgates-repositories/src/comma_separated_value.rs:76-81 | splitting undoes joining when no piece has a comma, and only then gives as many pieces |
| `Csv.RoundTripReverses` | webgates-repositories/src/comma_separated_value.rs:67-81 | a nonempty list reads back as exactly its reverse if and only if every element prints without comma and parses back to itself |
| `Csv.TwoTripsRestore` | webgates-repositories/src/comma_separated_value.rs:67-81 | one trip keeps all multiplicities and two trips restore the list |
| `Csv.OneTripRestoresPalindromes` | webgates-repositories/src/comma_separated_value.rs:67-81 | one trip restores the list if and only if it equals its reverse |
| `Csv.EmptyListIsLost` | webgates-repositories/src/comma_separated_value.rs:67-81 | the empty list never reads back as the empty list |

## Left out

- `JwksVerifier.JwksVerifier.Refresh`: writes the cache atomically; a torn file, and a write of a cancelled refresh that lands after a later one, are not modelled.
- `JwksVerifier.CodecFromJwks`: names an unusable entry by its `kid`; the wording of a conversion error is not modelled.
- `MemoryRepository.MemorySessionRepository.RevokeSession`: is one step; with family scope the source gives up the mutex between looking the family up and revoking it, where the protocol has `RevokeFamily` as a step of its own.
- `Tokens.HashDigest`: takes the digest as input; SHA-256 itself and collisions of it are not modelled.
- `FeatureDrift.CheckDrift`: does not model the order of the messages nor their wording.
- `KeyPair.Es384KeyPairLoader.InitializeIfRequired`: takes a partly written file as one that does not parse, and paths that are directories as absent files.
- Signatures and claims of tokens: which keys reject a token, and with which message, is an input.
- The regular expressions that take a feature bullet apart, TOML discovery and the compilation runs of the feature check.
- HTTP, JSON, PEM and file-system details: each call succeeds or fails as its inputs say.
- Lock poisoning and the choice of the fallback key beyond being one of the new keys.
- SeaORM: its session backend is a placeholder without operations, so there is nothing to model.
- SurrealDB: `SurrealSessions` models one session record and the operations that write it; the family record, the cut of times to seconds, and what `RenewalProtocol` proves, which rests on atomic calls, do not extend to it.
- Axum and tonic adapters, gates, cookies, OAuth2, permissions, accounts, audit logging and metrics: wiring without state of its own.
